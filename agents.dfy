/** An agent: a model id, a name and a system prompt, and the one operation
    `generate_response`, which lets the model ask for a single web search by
    writing `[SEARCH: query]` in its answer. */
module Agents {
  import opened Wrappers
  import opened Text
  import opened Web

  datatype Role = System | User | Assistant

  /** One entry of the message list sent to the completion service. */
  datatype Message = Message(role: Role, content: string)

  const SearchMarker := "[SEARCH:"

  /** The query of a search request embedded in a response: the text after the
      first marker, up to the first following `]` (or to the end), stripped.
      None when the response holds no marker. */
  function SearchQuery(response: string): (q: Option<string>)
    ensures q.Some? <==> Contains(response, SearchMarker)
    ensures q.Some? && q.value != [] ==> !IsSpace(q.value[0]) && !IsSpace(q.value[|q.value| - 1])
  {
    match Find(response, SearchMarker)
    case None => None
    case Some(i) => Some(Strip(TakeUntil(response[i + |SearchMarker|..], ']')))
  }

  /** Reading a request back: the first marker, then the query text, then `]`
      or the end of the response, gives the stripped query text. */
  lemma SearchQueryOfParts(pre: string, body: string, rest: string)
    requires forall j :: 0 <= j < |pre| ==> !OccursAt(pre + SearchMarker + body + rest, SearchMarker, j)
    requires ']' !in body
    requires rest == [] || rest[0] == ']'
    ensures SearchQuery(pre + SearchMarker + body + rest) == Some(Strip(body))
  {
    var s := pre + SearchMarker + body + rest;
    assert s[|pre|..|pre| + |SearchMarker|] == SearchMarker;
    assert OccursAt(s, SearchMarker, |pre|);
    var i := Find(s, SearchMarker).value;
    assert i == |pre|;
    assert s[i + |SearchMarker|..] == body + rest;
    TakeUntilOfParts(body, rest, ']');
  }

  /** A response whose text before the marker has no `[` finds that marker first. */
  lemma NoEarlierMarker(pre: string, tail: string)
    requires '[' !in pre
    ensures forall j :: 0 <= j < |pre| ==> !OccursAt(pre + tail, SearchMarker, j)
  {
    forall j | 0 <= j < |pre| ensures !OccursAt(pre + tail, SearchMarker, j) {
      var s := pre + tail;
      if j + |SearchMarker| <= |s| {
        assert s[j..j + |SearchMarker|][0] == s[j] == pre[j] != '[';
      }
    }
  }

  /** The worked example of the search protocol in general form: a response that
      reads `... [SEARCH: q] ...`, with no `[` before the marker, asks for the
      query `q` (for `q` without `]` and without blank ends, `solar flares` say). */
  lemma RequestedQuery(pre: string, q: string, post: string)
    requires '[' !in pre
    requires ']' !in q && q != [] && !IsSpace(q[0]) && !IsSpace(q[|q| - 1])
    ensures SearchQuery(pre + SearchMarker + " " + q + "]" + post) == Some(q)
  {
    var body := " " + q;
    var rest := "]" + post;
    var s := pre + SearchMarker + body + rest;
    assert pre + SearchMarker + " " + q + "]" + post == s;
    NoEarlierMarker(pre, SearchMarker + body + rest);
    assert pre + (SearchMarker + body + rest) == s;
    assert IsBlank(" ");
    StripOfLeading(" ", q);
    SearchQueryOfParts(pre, body, rest);
  }

  /** The opening exchange: the agent's system prompt, then the user's message. */
  function Opening(systemPrompt: string, message: string): seq<Message> {
    [Message(System, systemPrompt), Message(User, message)]
  }

  /** The user turn that hands the search evidence back to the model. */
  function FollowUp(query: string, evidence: string): string {
    "Here are the search results for '" + query + "':\n\n" + evidence
    + "\n\nPlease provide an updated response based on this information."
  }

  /** The hand-back turn names the query and carries the whole evidence. */
  lemma FollowUpCarries(query: string, evidence: string)
    ensures Contains(FollowUp(query, evidence), query) && Contains(FollowUp(query, evidence), evidence)
  {
    var head := "Here are the search results for '";
    var mid := "':\n\n";
    var tail := "\n\nPlease provide an updated response based on this information.";
    assert FollowUp(query, evidence) == head + query + (mid + evidence + tail);
    ContainsInfix(head, query, mid + evidence + tail);
    assert FollowUp(query, evidence) == (head + query + mid) + evidence + tail;
    ContainsInfix(head + query + mid, evidence, tail);
  }

  /** The second request: the opening exchange, the model's first response, and
      the search evidence as a new user turn. */
  function Retry(systemPrompt: string, message: string, first: string, query: string, evidence: string)
    : (r: seq<Message>)
    ensures |r| == 4 && r[..2] == Opening(systemPrompt, message)
    ensures r[2] == Message(Assistant, first) && r[3].role == User
    ensures Contains(r[3].content, query) && Contains(r[3].content, evidence)
  {
    FollowUpCarries(query, evidence);
    Opening(systemPrompt, message) + [Message(Assistant, first), Message(User, FollowUp(query, evidence))]
  }

  /** The final text: the canonical re-serialisation when the response parses
      as JSON, the response unchanged otherwise. */
  function PassThroughJson(canonical: string -> Option<string>, response: string): string {
    canonical(response).GetOr(response)
  }

  /** What one call of `generate_response` produced: the text and the search
      flag it returns, the message lists it sent to the completion service, in
      order, and the queries it sent to the web search. */
  datatype AgentRun = AgentRun(text: string, searched: bool, requests: seq<seq<Message>>, queries: seq<string>)

  /** `generate_response`.  `complete(model, messages)` is the completion
      service, `lookup(query)` the search engine's hits with what fetching each
      produced, `canonical` the JSON parse-and-dump round.  The agent searches
      exactly when the first response holds the marker, and then re-generates
      once: a marker in the second response is not acted on. */
  function Run(model: string, systemPrompt: string, message: string,
               complete: (string, seq<Message>) -> string, lookup: string -> seq<Hit>,
               canonical: string -> Option<string>): (r: AgentRun)
    ensures var first := complete(model, Opening(systemPrompt, message));
      && (r.searched <==> Contains(first, SearchMarker))
      && |r.queries| <= 1 && |r.requests| == 1 + |r.queries|
      && (r.searched <==> |r.queries| == 1)
      && r.requests[0] == Opening(systemPrompt, message)
      && (r.searched ==> Some(r.queries[0]) == SearchQuery(first))
      && (r.searched ==> r.requests[1] == Retry(systemPrompt, message, first, r.queries[0],
                                                Evidence(lookup(r.queries[0]))))
      && (!r.searched ==> r.text == PassThroughJson(canonical, first))
      && (r.searched ==> r.text == PassThroughJson(canonical, complete(model, r.requests[1])))
  {
    var opening := Opening(systemPrompt, message);
    var first := complete(model, opening);
    match SearchQuery(first)
    case None => AgentRun(PassThroughJson(canonical, first), false, [opening], [])
    case Some(query) =>
      var retry := Retry(systemPrompt, message, first, query, Evidence(lookup(query)));
      AgentRun(PassThroughJson(canonical, complete(model, retry)), true, [opening, retry], [query])
  }

  class Agent {
    var model: string
    const name: string
    const systemPrompt: string

    constructor (model: string, name: string, systemPrompt: string)
      ensures this.model == model && this.name == name && this.systemPrompt == systemPrompt
    {
      this.model := model;
      this.name := name;
      this.systemPrompt := systemPrompt;
    }

    /** `generate_response` on this agent's current model. */
    method GenerateResponse(message: string, complete: (string, seq<Message>) -> string,
                            lookup: string -> seq<Hit>, canonical: string -> Option<string>)
      returns (text: string, searched: bool, requests: seq<seq<Message>>, queries: seq<string>)
      ensures AgentRun(text, searched, requests, queries)
              == Run(model, systemPrompt, message, complete, lookup, canonical)
    {
      var messages := Opening(systemPrompt, message);
      var response := complete(model, messages);
      var query := SearchQuery(response);
      if query.None? {
        searched, requests, queries := false, [messages], [];
      } else {
        var searchResults := SearchWeb(lookup(query.value));
        var retry := Retry(systemPrompt, message, response, query.value, searchResults);
        searched, requests, queries := true, [messages, retry], [query.value];
        response := complete(model, retry);
      }
      text := PassThroughJson(canonical, response);
    }
  }
}
