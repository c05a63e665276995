/** The deterministic steps of one orchestrator turn: fan-in of the reference
    agents' replies, the retrieval size, and the assembly of the context prompt
    from the retrieved chunks. */
module Turn {
  import opened Wrappers
  import opened Text
  import opened Expansion

  /** One reference agent's joined result: its text (None when it produced
      none) and whether it searched the web. */
  datatype Reply = Reply(text: Option<string>, searched: bool)

  const ErrorPrefix := "Error:"
  const AllAgentsFailed := "Error: All reference agents failed to generate responses."

  /** A reply that is kept as a reference. */
  predicate Usable(r: Reply) {
    r.text.Some? && !StartsWith(r.text.value, ErrorPrefix)
  }

  /** The usable replies' texts, in agent order. */
  function References(replies: seq<Reply>): seq<string> {
    if replies == [] then []
    else
      var last := replies[|replies| - 1];
      References(replies[..|replies| - 1]) + (if Usable(last) then [last.text.value] else [])
  }

  /** Whether any agent searched, usable or not. */
  function AnySearched(replies: seq<Reply>): bool {
    if replies == [] then false
    else AnySearched(replies[..|replies| - 1]) || replies[|replies| - 1].searched
  }

  /** The fan-in loop of `get_response`. */
  method FanIn(replies: seq<Reply>) returns (references: seq<string>, searched: bool)
    ensures references == References(replies) && searched == AnySearched(replies)
    ensures searched <==> exists i :: 0 <= i < |replies| && replies[i].searched
    ensures references == [] <==> forall i :: 0 <= i < |replies| ==> !Usable(replies[i])
  {
    references, searched := [], false;
    var i := 0;
    while i < |replies|
      invariant 0 <= i <= |replies|
      invariant references == References(replies[..i])
      invariant searched == AnySearched(replies[..i])
    {
      assert replies[..i + 1][..i] == replies[..i];
      var r := replies[i];
      if r.text.Some? && !StartsWith(r.text.value, ErrorPrefix) {
        references := references + [r.text.value];
      }
      searched := searched || r.searched;
      i := i + 1;
    }
    assert replies[..|replies|] == replies;
    AnySearchedIff(replies);
    ReferencesEmptyIff(replies);
  }

  lemma {:induction false} ReferencesConcat(a: seq<Reply>, b: seq<Reply>)
    ensures References(a + b) == References(a) + References(b)
    decreases |b|
  {
    if b == [] {
      assert a + b == a;
    } else {
      var init := b[..|b| - 1];
      assert (a + b)[..|a + b| - 1] == a + init;
      assert (a + b)[|a + b| - 1] == b[|b| - 1];
      ReferencesConcat(a, init);
    }
  }

  lemma {:induction false} AnySearchedConcat(a: seq<Reply>, b: seq<Reply>)
    ensures AnySearched(a + b) == (AnySearched(a) || AnySearched(b))
    decreases |b|
  {
    if b == [] {
      assert a + b == a;
    } else {
      var init := b[..|b| - 1];
      assert (a + b)[..|a + b| - 1] == a + init;
      assert (a + b)[|a + b| - 1] == b[|b| - 1];
      AnySearchedConcat(a, init);
    }
  }

  /** The search flag is the OR over every agent, including failed ones. */
  lemma {:induction false} AnySearchedIff(replies: seq<Reply>)
    ensures AnySearched(replies) <==> exists i :: 0 <= i < |replies| && replies[i].searched
    decreases |replies|
  {
    if replies != [] {
      var init := replies[..|replies| - 1];
      AnySearchedIff(init);
      if AnySearched(init) {
        var i :| 0 <= i < |init| && init[i].searched;
        assert replies[i] == init[i];
      }
      forall i | 0 <= i < |init| ensures replies[i] == init[i] { }
    }
  }

  /** A text is a reference exactly when some agent's usable reply carries it. */
  lemma {:induction false} ReferencesMembers(replies: seq<Reply>, x: string)
    ensures x in References(replies) <==>
            exists i :: 0 <= i < |replies| && Usable(replies[i]) && replies[i].text == Some(x)
    decreases |replies|
  {
    if replies != [] {
      var init := replies[..|replies| - 1];
      ReferencesMembers(init, x);
      forall i | 0 <= i < |init| ensures replies[i] == init[i] { }
      if x in References(init) {
        var i :| 0 <= i < |init| && Usable(init[i]) && init[i].text == Some(x);
        assert replies[i] == init[i];
      }
    }
  }

  /** The turn aborts exactly when no reply is usable. */
  lemma {:induction false} ReferencesEmptyIff(replies: seq<Reply>)
    ensures References(replies) == [] <==> forall i :: 0 <= i < |replies| ==> !Usable(replies[i])
    decreases |replies|
  {
    if replies != [] {
      var init := replies[..|replies| - 1];
      ReferencesEmptyIff(init);
      forall i | 0 <= i < |init| ensures replies[i] == init[i] { }
    }
  }

  /** The order in which the agents finish does not matter: permuting the
      replies permutes the references and leaves the search flag unchanged. */
  lemma {:induction false} FanInOrderIndependent(a: seq<Reply>, b: seq<Reply>)
    requires multiset(a) == multiset(b)
    ensures multiset(References(a)) == multiset(References(b))
    ensures AnySearched(a) == AnySearched(b)
    decreases |a|
  {
    if a == [] {
      assert |b| == |multiset(b)| == 0;
    } else {
      var x := a[|a| - 1];
      var init := a[..|a| - 1];
      assert a == init + [x];
      assert x in multiset(b);
      var j :| 0 <= j < |b| && b[j] == x;
      var rest := b[..j] + b[j + 1..];
      assert b == b[..j] + [x] + b[j + 1..];
      assert multiset(init) == multiset(rest) by {
        assert multiset(a) == multiset(init) + multiset{x};
        assert multiset(b) == multiset(b[..j]) + multiset{x} + multiset(b[j + 1..]);
        assert multiset(rest) == multiset(b[..j]) + multiset(b[j + 1..]);
        assert multiset(init) + multiset{x} == multiset(rest) + multiset{x};
        assert multiset(init) == multiset(init) + multiset{x} - multiset{x};
        assert multiset(rest) == multiset(rest) + multiset{x} - multiset{x};
      }
      FanInOrderIndependent(init, rest);
      ReferencesConcat(init, [x]);
      AnySearchedConcat(init, [x]);
      RemoveOne(b[..j], x, b[j + 1..]);
    }
  }

  /** Taking one reply out of the middle of the list. */
  lemma RemoveOne(pre: seq<Reply>, x: Reply, post: seq<Reply>)
    ensures multiset(References(pre + [x] + post))
            == multiset(References(pre + post)) + multiset(References([x]))
    ensures AnySearched(pre + [x] + post) == (AnySearched(pre + post) || AnySearched([x]))
  {
    ReferencesConcat(pre + [x], post);
    ReferencesConcat(pre, [x]);
    ReferencesConcat(pre, post);
    AnySearchedConcat(pre + [x], post);
    AnySearchedConcat(pre, [x]);
    AnySearchedConcat(pre, post);
  }

  /** `k = min(3, max(1, document_count))`. */
  function RetrievalSize(documentCount: nat): (k: nat)
    ensures 1 <= k <= 3
    ensures documentCount == 0 ==> k == 1
    ensures 1 <= documentCount <= 3 ==> k == documentCount
    ensures documentCount >= 3 ==> k == 3
  {
    if documentCount < 1 then 1 else if documentCount > 3 then 3 else documentCount
  }

  const ContextHeader := "Consider the following context:\n==========Context===========\n"
  const NoDocuments := "No relevant documents found in archival memory.\n\n"
  const QuestionSeparator := "\n======================\nQuestion: "
  const ChunkSeparator := "\n\n"

  /** The chunks, each followed by a blank line. */
  function Join(docs: seq<string>): string {
    if docs == [] then [] else docs[0] + ChunkSeparator + Join(docs[1..])
  }

  /** Appending every chunk of the first retrieval, duplicates included. */
  function AppendChunks(prompt: string, docs: seq<string>): string
    decreases |docs|
  {
    if docs == [] then prompt else AppendChunks(prompt + docs[0] + ChunkSeparator, docs[1..])
  }

  /** One step of the expansion loop: a chunk already present in the prompt is
      skipped, any other is appended. */
  function AppendIfNew(prompt: string, doc: string): string {
    if Contains(prompt, doc) then prompt else prompt + doc + ChunkSeparator
  }

  /** Appending one expansion query's chunks, in retrieval order. */
  function AppendNew(prompt: string, docs: seq<string>): string
    decreases |docs|
  {
    if docs == [] then prompt else AppendNew(AppendIfNew(prompt, docs[0]), docs[1..])
  }

  /** Appending every expansion query's chunks, query by query. */
  function AppendExpansions(prompt: string, retrieved: seq<seq<string>>): string
    decreases |retrieved|
  {
    if retrieved == [] then prompt else AppendExpansions(AppendNew(prompt, retrieved[0]), retrieved[1..])
  }

  /** The synthesis prompt: the header, the first retrieval's chunks (or the
      "no documents" line), the new chunks of each expansion query, then the
      question. */
  function ContextPrompt(input: string, first: seq<string>, retrieved: seq<seq<string>>): string {
    var start := if first == [] then ContextHeader + NoDocuments else AppendChunks(ContextHeader, first);
    AppendExpansions(start, retrieved) + QuestionSeparator + input
  }

  /** What each expansion query retrieves, in query order. */
  function Retrieved(queries: seq<QueryItem>, retrieve: (string, nat) -> seq<string>, k: nat)
    : (r: seq<seq<string>>)
    ensures |r| == |queries|
    ensures forall i :: 0 <= i < |queries| ==> r[i] == retrieve(queries[i].query, k)
  {
    seq(|queries|, i requires 0 <= i < |queries| => retrieve(queries[i].query, k))
  }

  /** The prompt-building loops of `get_response`: the first retrieval is for
      the input itself, then one retrieval per expansion query. */
  method AssembleContext(input: string, k: nat, queries: seq<QueryItem>,
                         retrieve: (string, nat) -> seq<string>) returns (prompt: string)
    ensures prompt == ContextPrompt(input, retrieve(input, k), Retrieved(queries, retrieve, k))
  {
    prompt := ContextHeader;
    var documents := retrieve(input, k);
    if documents != [] {
      var i := 0;
      while i < |documents|
        invariant 0 <= i <= |documents|
        invariant AppendChunks(prompt, documents[i..]) == AppendChunks(ContextHeader, documents)
      {
        assert documents[i..][1..] == documents[i + 1..];
        prompt := prompt + documents[i] + ChunkSeparator;
        i := i + 1;
      }
    } else {
      prompt := prompt + NoDocuments;
    }
    ghost var all := Retrieved(queries, retrieve, k);
    ghost var start := prompt;
    var j := 0;
    while j < |queries|
      invariant 0 <= j <= |queries|
      invariant AppendExpansions(prompt, all[j..]) == AppendExpansions(start, all)
    {
      assert all[j..][1..] == all[j + 1..];
      ghost var before := prompt;
      documents := retrieve(queries[j].query, k);
      var i := 0;
      while i < |documents|
        invariant 0 <= i <= |documents|
        invariant AppendNew(prompt, documents[i..]) == AppendNew(before, documents)
      {
        assert documents[i..][1..] == documents[i + 1..];
        if !Contains(prompt, documents[i]) {
          prompt := prompt + documents[i] + ChunkSeparator;
        }
        i := i + 1;
      }
      j := j + 1;
    }
    prompt := prompt + QuestionSeparator + input;
  }

  /** The first retrieval's chunks go in unconditionally, in retrieval order. */
  lemma {:induction false} AppendChunksIsJoin(prompt: string, docs: seq<string>)
    ensures AppendChunks(prompt, docs) == prompt + Join(docs)
    decreases |docs|
  {
    if docs != [] {
      AppendChunksIsJoin(prompt + docs[0] + ChunkSeparator, docs[1..]);
    }
  }

  /** Text already in the prompt stays where it is: each step only appends. */
  lemma {:induction false} AppendNewExtends(prompt: string, docs: seq<string>)
    ensures prompt <= AppendNew(prompt, docs)
    decreases |docs|
  {
    if docs != [] {
      var next := AppendIfNew(prompt, docs[0]);
      AppendNewExtends(next, docs[1..]);
    }
  }

  lemma {:induction false} AppendExpansionsExtends(prompt: string, retrieved: seq<seq<string>>)
    ensures prompt <= AppendExpansions(prompt, retrieved)
    decreases |retrieved|
  {
    if retrieved != [] {
      AppendNewExtends(prompt, retrieved[0]);
      AppendExpansionsExtends(AppendNew(prompt, retrieved[0]), retrieved[1..]);
    }
  }

  lemma ContainsInPrefix(p: string, s: string, pat: string)
    requires p <= s && Contains(p, pat)
    ensures Contains(s, pat)
  {
    assert s == p + s[|p|..];
    ContainsExtend(p, s[|p|..], pat);
  }

  /** After an expansion step every chunk it retrieved is in the prompt, either
      from before or newly appended: deduplication loses nothing. */
  lemma {:induction false} AppendNewCovers(prompt: string, docs: seq<string>)
    ensures forall d :: d in docs ==> Contains(AppendNew(prompt, docs), d)
    decreases |docs|
  {
    if docs != [] {
      var next := AppendIfNew(prompt, docs[0]);
      assert Contains(next, docs[0]) by {
        if !Contains(prompt, docs[0]) {
          ContainsInfix(prompt, docs[0], ChunkSeparator);
        }
      }
      AppendNewExtends(next, docs[1..]);
      ContainsInPrefix(next, AppendNew(next, docs[1..]), docs[0]);
      AppendNewCovers(next, docs[1..]);
    }
  }

  /** A step whose chunks are all present already leaves the prompt unchanged. */
  lemma {:induction false} AppendNewAllPresent(prompt: string, docs: seq<string>)
    requires forall d :: d in docs ==> Contains(prompt, d)
    ensures AppendNew(prompt, docs) == prompt
    decreases |docs|
  {
    if docs != [] {
      AppendNewAllPresent(prompt, docs[1..]);
    }
  }

  /** Retrieving the same chunks again adds nothing. */
  lemma AppendNewIdempotent(prompt: string, docs: seq<string>)
    ensures AppendNew(AppendNew(prompt, docs), docs) == AppendNew(prompt, docs)
  {
    AppendNewCovers(prompt, docs);
    AppendNewAllPresent(AppendNew(prompt, docs), docs);
  }

  /** The chunks an expansion step appends, in retrieval order. */
  function Kept(prompt: string, docs: seq<string>): seq<string>
    decreases |docs|
  {
    if docs == [] then []
    else if Contains(prompt, docs[0]) then Kept(prompt, docs[1..])
    else [docs[0]] + Kept(prompt + docs[0] + ChunkSeparator, docs[1..])
  }

  /** `a` is `b` with some elements left out, order kept. */
  ghost predicate IsSubsequence(a: seq<string>, b: seq<string>) {
    if a == [] then true
    else if b == [] then false
    else (a[0] == b[0] && IsSubsequence(a[1..], b[1..])) || IsSubsequence(a, b[1..])
  }

  /** An expansion step appends a subsequence of its chunks, each one not yet
      in the prompt when its turn came, in retrieval order. */
  lemma {:induction false} AppendNewKeepsOrder(prompt: string, docs: seq<string>)
    ensures AppendNew(prompt, docs) == prompt + Join(Kept(prompt, docs))
    ensures IsSubsequence(Kept(prompt, docs), docs)
    decreases |docs|
  {
    if docs != [] {
      var d := docs[0];
      if Contains(prompt, d) {
        AppendNewKeepsOrder(prompt, docs[1..]);
        SubsequenceOfTail(Kept(prompt, docs[1..]), docs);
      } else {
        var next := prompt + d + ChunkSeparator;
        AppendNewKeepsOrder(next, docs[1..]);
        var kept := Kept(prompt, docs);
        assert kept == [d] + Kept(next, docs[1..]);
        assert kept[1..] == Kept(next, docs[1..]);
        assert Join(kept) == d + ChunkSeparator + Join(Kept(next, docs[1..]));
      }
    }
  }

  lemma SubsequenceOfTail(a: seq<string>, b: seq<string>)
    requires b != [] && IsSubsequence(a, b[1..])
    ensures IsSubsequence(a, b)
  {
  }

  /** The synthesis prompt opens with the context header (followed by the "no
      documents" line when the first retrieval is empty, or by every chunk of
      the first retrieval otherwise) and closes with the question. */
  lemma ContextPromptShape(input: string, first: seq<string>, retrieved: seq<seq<string>>)
    ensures var p := ContextPrompt(input, first, retrieved);
      && ContextHeader <= p
      && EndsWith(p, QuestionSeparator + input)
      && (first == [] ==> ContextHeader + NoDocuments <= p)
      && (first != [] ==> ContextHeader + Join(first) <= p)
  {
    var start := if first == [] then ContextHeader + NoDocuments else AppendChunks(ContextHeader, first);
    AppendChunksIsJoin(ContextHeader, first);
    AppendExpansionsExtends(start, retrieved);
    var body := AppendExpansions(start, retrieved);
    var p := body + QuestionSeparator + input;
    assert p == body + (QuestionSeparator + input);
    assert p[|p| - |QuestionSeparator + input|..] == QuestionSeparator + input;
  }

  /** Every chunk any retrieval returned (the first or an expansion query's)
      appears in the synthesis prompt. */
  lemma ContextCoversRetrieved(input: string, first: seq<string>, retrieved: seq<seq<string>>)
    ensures forall d :: d in first ==> Contains(ContextPrompt(input, first, retrieved), d)
    ensures forall j, d :: 0 <= j < |retrieved| && d in retrieved[j] ==>
              Contains(ContextPrompt(input, first, retrieved), d)
  {
    var start := if first == [] then ContextHeader + NoDocuments else AppendChunks(ContextHeader, first);
    var body := AppendExpansions(start, retrieved);
    var p := ContextPrompt(input, first, retrieved);
    assert body <= p;
    AppendExpansionsExtends(start, retrieved);
    forall d | d in first ensures Contains(p, d) {
      AppendChunksIsJoin(ContextHeader, first);
      JoinCovers(first, d);
      ContainsPrepend(ContextHeader, Join(first), d);
      ContainsInPrefix(start, p, d);
    }
    forall j, d | 0 <= j < |retrieved| && d in retrieved[j] ensures Contains(p, d) {
      AppendExpansionsCovers(start, retrieved, j, d);
      ContainsInPrefix(body, p, d);
    }
  }

  lemma {:induction false} JoinCovers(docs: seq<string>, d: string)
    requires d in docs
    ensures Contains(Join(docs), d)
    decreases |docs|
  {
    if docs[0] == d {
      assert Join(docs) == [] + d + (ChunkSeparator + Join(docs[1..]));
      ContainsInfix([], d, ChunkSeparator + Join(docs[1..]));
    } else {
      JoinCovers(docs[1..], d);
      assert Join(docs) == (docs[0] + ChunkSeparator) + Join(docs[1..]);
      ContainsPrepend(docs[0] + ChunkSeparator, Join(docs[1..]), d);
    }
  }

  lemma {:induction false} AppendExpansionsCovers(prompt: string, retrieved: seq<seq<string>>, j: nat, d: string)
    requires j < |retrieved| && d in retrieved[j]
    ensures Contains(AppendExpansions(prompt, retrieved), d)
    decreases |retrieved|
  {
    var next := AppendNew(prompt, retrieved[0]);
    if j == 0 {
      AppendNewCovers(prompt, retrieved[0]);
      AppendExpansionsExtends(next, retrieved[1..]);
      ContainsInPrefix(next, AppendExpansions(next, retrieved[1..]), d);
    } else {
      AppendExpansionsCovers(next, retrieved[1..], j - 1, d);
    }
  }
}
