/** Query expansion: how the turn reads the expansion agent's JSON answer into
    a list of `QueryItem`s.  JSON parsing itself is external; its outcome is a
    `Parsed` value.  Validation follows the two pydantic models `QueryItem`
    (`query: str`, `type: str`) and `QueryExtension` (`queries`, a list of
    items that defaults to empty). */
module Expansion {
  import opened Wrappers

  /** A parsed JSON value; an object is a map from key to value (for repeated
      keys the parser keeps the last). */
  datatype Json =
    | JNull
    | JBool(b: bool)
    | JNumber(literal: string)
    | JString(s: string)
    | JArray(items: seq<Json>)
    | JObject(fields: map<string, Json>)

  /** The outcome of `json.loads`: a value, or a decode error. */
  datatype Parsed = ParseError | Value(json: Json)

  datatype QueryItem = QueryItem(query: string, kind: string)

  /** `QueryItem.model_validate`: an object whose `query` and `type` fields are
      strings; other fields are ignored. */
  function ValidateItem(j: Json): (r: Option<QueryItem>)
    ensures r.Some? <==> j.JObject? && "query" in j.fields && j.fields["query"].JString?
                         && "type" in j.fields && j.fields["type"].JString?
    ensures r.Some? ==> r.value.query == j.fields["query"].s && r.value.kind == j.fields["type"].s
  {
    match j
    case JObject(f) =>
      if "query" in f && f["query"].JString? && "type" in f && f["type"].JString?
      then Some(QueryItem(f["query"].s, f["type"].s))
      else None
    case _ => None
  }

  /** Validation of a list of items: all of them, in order, or a failure when
      any one fails. */
  function ValidateItems(items: seq<Json>): (r: Option<seq<QueryItem>>)
    ensures r.Some? <==> forall i :: 0 <= i < |items| ==> ValidateItem(items[i]).Some?
    ensures r.Some? ==> |r.value| == |items|
    ensures r.Some? ==> forall i :: 0 <= i < |items| ==> ValidateItem(items[i]) == Some(r.value[i])
  {
    if items == [] then Some([])
    else
      match (ValidateItem(items[0]), ValidateItems(items[1..]))
      case (Some(q), Some(qs)) => Some([q] + qs)
      case _ => None
  }

  /** `QueryExtension.model_validate` on an object: a missing `queries` field
      is the empty list; a present one must be an array of valid items. */
  function ValidateExtension(fields: map<string, Json>): (r: Option<seq<QueryItem>>)
    ensures "queries" !in fields ==> r == Some([])
    ensures "queries" in fields && !fields["queries"].JArray? ==> r.None?
    ensures "queries" in fields && fields["queries"].JArray? ==> r == ValidateItems(fields["queries"].items)
  {
    if "queries" !in fields then Some([])
    else
      match fields["queries"]
      case JArray(items) => ValidateItems(items)
      case _ => None
  }

  /** The query list the turn retrieves with: an object is validated as it is,
      an array is wrapped as `{"queries": array}` first, and any other value, a
      decode error or a validation error gives the empty list. */
  function ExpansionQueries(p: Parsed): (qs: seq<QueryItem>)
    ensures p.ParseError? ==> qs == []
    ensures p.Value? && !p.json.JObject? && !p.json.JArray? ==> qs == []
    ensures p.Value? && p.json.JObject? ==> qs == ValidateExtension(p.json.fields).GetOr([])
    ensures p.Value? && p.json.JArray? ==> qs == ValidateItems(p.json.items).GetOr([])
  {
    match p
    case ParseError => []
    case Value(JObject(fields)) => ValidateExtension(fields).GetOr([])
    case Value(JArray(items)) => ValidateExtension(map["queries" := JArray(items)]).GetOr([])
    case Value(_) => []
  }

  /** An array of valid items yields exactly those items, in order; an array
      with one invalid item yields nothing at all. */
  lemma ArrayOfItems(items: seq<Json>)
    ensures (forall i :: 0 <= i < |items| ==> ValidateItem(items[i]).Some?) ==>
              |ExpansionQueries(Value(JArray(items)))| == |items|
              && forall i :: 0 <= i < |items| ==>
                   ValidateItem(items[i]) == Some(ExpansionQueries(Value(JArray(items)))[i])
    ensures (exists i :: 0 <= i < |items| && ValidateItem(items[i]).None?) ==>
              ExpansionQueries(Value(JArray(items))) == []
  {
  }

  /** The object `{"queries": [{"query": q, "type": t}]}` yields the one item. */
  lemma SingleQuery(q: string, t: string)
    ensures var item := JObject(map["query" := JString(q), "type" := JString(t)]);
            ExpansionQueries(Value(JObject(map["queries" := JArray([item])]))) == [QueryItem(q, t)]
  {
  }

}
