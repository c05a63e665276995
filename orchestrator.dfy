/** The mixture-of-agents orchestrator: its mutable state (core memory, the
    archival index and its chunk counter, the web-search switch, the primary
    model) and the operations on it, including one conversational turn. */
module Orchestrator {
  import opened Wrappers
  import opened Text
  import opened Web
  import opened Agents
  import opened Expansion
  import opened Turn

  /** Core memory: section name to key to value. */
  type Sections = map<string, map<string, string>>

  /** The three empty sections a fresh or cleared core memory holds. */
  const EmptyCore: Sections := map["persona" := map[], "user" := map[], "scratchpad" := map[]]

  /** One conversation event, as the event memory records it. */
  datatype Event = Event(role: Role, content: string)

  /** `core_memory[section][key] = value`, creating the section when unknown. */
  function EditSections(core: Sections, section: string, key: string, value: string): (r: Sections)
    ensures section in r && key in r[section] && r[section][key] == value
    ensures r.Keys == core.Keys + {section}
    ensures forall s :: s in core && s != section ==> r[s] == core[s]
    ensures section !in core ==> r[section].Keys == {key}
    ensures section in core ==> r[section].Keys == core[section].Keys + {key}
    ensures section in core ==> forall k :: k in core[section] && k != key ==> r[section][k] == core[section][k]
  {
    var inner := if section in core then core[section] else map[];
    core[section := inner[key := value]]
  }

  /** Writing the same entry twice keeps only the second value. */
  lemma EditOverwrites(core: Sections, section: string, key: string, first: string, second: string)
    ensures EditSections(EditSections(core, section, key, first), section, key, second)
            == EditSections(core, section, key, second)
  {
    var a := EditSections(EditSections(core, section, key, first), section, key, second);
    var b := EditSections(core, section, key, second);
    assert a[section] == b[section];
  }

  /** Edits of different entries do not interfere, so their order is irrelevant. */
  lemma EditsCommute(core: Sections, s1: string, k1: string, v1: string, s2: string, k2: string, v2: string)
    requires s1 != s2 || k1 != k2
    ensures EditSections(EditSections(core, s1, k1, v1), s2, k2, v2)
            == EditSections(EditSections(core, s2, k2, v2), s1, k1, v1)
  {
    if s1 == s2 {
      EditsInOneSectionCommute(core, s1, k1, v1, k2, v2);
    } else {
      EditsInTwoSectionsCommute(core, s1, k1, v1, s2, k2, v2);
    }
  }

  lemma EditsInOneSectionCommute(core: Sections, s: string, k1: string, v1: string, k2: string, v2: string)
    requires k1 != k2
    ensures EditSections(EditSections(core, s, k1, v1), s, k2, v2)
            == EditSections(EditSections(core, s, k2, v2), s, k1, v1)
  {
    var inner := if s in core then core[s] else map[];
    assert inner[k1 := v1][k2 := v2] == inner[k2 := v2][k1 := v1];
  }

  lemma EditsInTwoSectionsCommute(core: Sections, s1: string, k1: string, v1: string,
                                  s2: string, k2: string, v2: string)
    requires s1 != s2
    ensures EditSections(EditSections(core, s1, k1, v1), s2, k2, v2)
            == EditSections(EditSections(core, s2, k2, v2), s1, k1, v1)
  {
  }

  /** `edit_core_memory`'s return value. */
  function CoreUpdated(section: string, key: string, value: string): string {
    "Core memory updated: " + section + "." + key + " = " + value
  }

  /** The readers `upload_document` dispatches to. */
  datatype Reader = PlainText | Pdf | Csv

  /** What reading a file produced: its text, or the exception raised. */
  datatype ReadOutcome = Content(text: string) | Failed(message: string)

  /** Python's `path.split('.')[-1].lower()`. */
  function FileExtension(path: string): (ext: string)
    ensures |ext| <= |path|
    ensures '.' !in ext
  {
    Lower(AfterLast(path, '.'))
  }

  /** The extension is whatever follows the last dot, lower-cased. */
  lemma ExtensionOfName(stem: string, ext: string)
    requires '.' !in ext
    ensures FileExtension(stem + "." + ext) == Lower(ext)
  {
    AfterLastOfJoin(stem, '.', ext);
  }

  /** The extension dispatch of `upload_document`. */
  function ReaderFor(ext: string): (r: Option<Reader>)
    ensures r == Some(PlainText) <==> ext == "txt"
    ensures r == Some(Pdf) <==> ext == "pdf"
    ensures r == Some(Csv) <==> ext == "csv"
  {
    if ext == "txt" then Some(PlainText)
    else if ext == "pdf" then Some(Pdf)
    else if ext == "csv" then Some(Csv)
    else None
  }

  /** The status and the chunks `upload_document` adds to the index. */
  datatype Upload = Upload(status: string, chunks: seq<string>)

  function Uploaded(path: string, chunks: nat): string {
    "Document " + path + " uploaded and processed successfully. Added "
      + NatToString(chunks) + " chunks to archival memory."
  }

  function ProcessingError(path: string, message: string): string {
    ErrorHead + path + ": " + message
  }

  /** `edit_archival_memory`'s return value. */
  function ArchiveEdited(newContent: string): string {
    "New content '" + newContent + "' added to archival memory. Note: Old content "
      + "not removed due to limitations of the current implementation."
  }

  const EmptyFile := "The file is empty or could not be read."

  /** The outcome of uploading `path`: unsupported extensions, read failures
      and blank files add nothing; otherwise every split is added. */
  function UploadOf(path: string, read: Reader -> ReadOutcome, splitter: string -> seq<string>): (u: Upload)
    ensures ReaderFor(FileExtension(path)).None? ==>
              u == Upload("Unsupported file type: " + FileExtension(path), [])
    ensures ReaderFor(FileExtension(path)).Some? ==>
              var outcome := read(ReaderFor(FileExtension(path)).value);
              && (outcome.Failed? ==> u == Upload(ProcessingError(path, outcome.message), []))
              && (outcome.Content? && IsBlank(outcome.text) ==> u == Upload(EmptyFile, []))
              && (outcome.Content? && !IsBlank(outcome.text) ==>
                    u == Upload(Uploaded(path, |splitter(outcome.text)|), splitter(outcome.text)))
  {
    var ext := FileExtension(path);
    match ReaderFor(ext)
    case None => Upload("Unsupported file type: " + ext, [])
    case Some(reader) =>
      match read(reader)
      case Failed(message) => Upload(ProcessingError(path, message), [])
      case Content(text) =>
        if Strip(text) == [] then Upload(EmptyFile, [])
        else var splits := splitter(text); Upload(Uploaded(path, |splits|), splits)
  }

  /** The extension agent's instructions and request. */
  const ExtensionPrompt := "You are a world class query extension algorithm capable of extending "
    + "queries by writing new queries. Do not answer the queries, simply provide a list of "
    + "additional queries in JSON format."

  function ExtensionRequest(input: string): string {
    "Consider the following query: " + input
  }

  /** Retrieval against a fixed index content. */
  function Against(retrieve: (seq<string>, string, nat) -> seq<string>, index: seq<string>)
    : (string, nat) -> seq<string>
  {
    (query: string, k: nat) => retrieve(index, query, k)
  }

  /** What a turn yields: the answer, the search flag, and (on success) the
      expansion queries and the context prompt the synthesis saw. */
  datatype TurnOutcome = TurnOutcome(answer: string, searched: bool, queries: seq<QueryItem>, prompt: string)

  /** The part of a turn that follows a successful fan-in, as a function of
      the state it reads and the external results: `agentsSearched` is the
      fan-in's flag, `index` the index content after the user's message. */
  function Synthesis(input: string, agentsSearched: bool, model: string, systemPrompt: string,
                     enabled: bool, count: nat, index: seq<string>,
                     complete: (string, seq<Message>) -> string, lookup: string -> seq<Hit>,
                     canonical: string -> Option<string>, parse: string -> Parsed,
                     retrieve: (seq<string>, string, nat) -> seq<string>): (t: TurnOutcome)
    ensures t.searched <==> agentsSearched || (enabled && lookup(input) != [])
    ensures t.queries == ExpansionQueries(parse(
              Run(model, ExtensionPrompt, ExtensionRequest(input), complete, lookup, canonical).text))
    ensures t.prompt == ContextPrompt(input, retrieve(index, input, RetrievalSize(count)),
              Retrieved(t.queries, Against(retrieve, index), RetrievalSize(count)))
    ensures t.answer == complete(model, [Message(System, systemPrompt), Message(User, t.prompt)])
  {
    var direct := enabled && DirectSearch(lookup(input));
    var extension := Run(model, ExtensionPrompt, ExtensionRequest(input), complete, lookup, canonical);
    var queries := ExpansionQueries(parse(extension.text));
    var k := RetrievalSize(count);
    var prompt := ContextPrompt(input, retrieve(index, input, k), Retrieved(queries, Against(retrieve, index), k));
    var answer := complete(model, [Message(System, systemPrompt), Message(User, prompt)]);
    TurnOutcome(answer, agentsSearched || direct, queries, prompt)
  }

  /** A whole turn after the user's message has been recorded: the abort when
      no reference is usable, the synthesis otherwise. */
  function Respond(input: string, replies: seq<Reply>, model: string, systemPrompt: string,
                   enabled: bool, count: nat, index: seq<string>,
                   complete: (string, seq<Message>) -> string, lookup: string -> seq<Hit>,
                   canonical: string -> Option<string>, parse: string -> Parsed,
                   retrieve: (seq<string>, string, nat) -> seq<string>): (t: TurnOutcome)
    ensures References(replies) == [] ==> t.answer == AllAgentsFailed && !t.searched
    ensures References(replies) != [] ==>
              (t.searched <==> (exists i :: 0 <= i < |replies| && replies[i].searched)
                               || (enabled && lookup(input) != []))
  {
    if References(replies) == [] then TurnOutcome(AllAgentsFailed, false, [], [])
    else
      AnySearchedIff(replies);
      Synthesis(input, AnySearched(replies), model, systemPrompt, enabled, count, index,
                complete, lookup, canonical, parse, retrieve)
  }

  class MixtureOfAgents {
    const referenceAgents: seq<Agent>
    const finalAgent: Agent
    var coreMemory: Sections
    /** The chunks added through the archival-memory operations and uploads. */
    var documentCount: nat
    var webSearchEnabled: bool
    var primaryModel: string
    /** The archival index's documents, in insertion order. */
    var archive: seq<string>
    /** The event memory's records. */
    var events: seq<Event>

    /** The primary model is the final agent's, and the counter never exceeds
        the number of documents in the index (conversation turns add documents
        without counting them). */
    predicate Valid()
      reads this, finalAgent
    {
      primaryModel == finalAgent.model && documentCount <= |archive|
    }

    /** `stored` is the core memory file's content; a missing file is created
        holding the empty sections. */
    constructor (referenceAgents: seq<Agent>, finalAgent: Agent, stored: Option<Sections>)
      ensures Valid()
      ensures this.referenceAgents == referenceAgents && this.finalAgent == finalAgent
      ensures coreMemory == stored.GetOr(EmptyCore)
      ensures documentCount == 0 && webSearchEnabled && primaryModel == finalAgent.model
      ensures archive == [] && events == []
    {
      this.referenceAgents := referenceAgents;
      this.finalAgent := finalAgent;
      coreMemory := stored.GetOr(EmptyCore);
      documentCount := 0;
      webSearchEnabled := true;
      primaryModel := finalAgent.model;
      archive := [];
      events := [];
    }

    /** The `model` property. */
    function Model(): (m: string)
      reads this, finalAgent
      requires Valid()
      ensures m == finalAgent.model
    {
      primaryModel
    }

    /** The `model` setter: the primary model and the final agent change together. */
    method SetModel(value: string)
      modifies this, finalAgent
      requires Valid()
      ensures Valid() && Model() == value
      ensures coreMemory == old(coreMemory) && documentCount == old(documentCount)
      ensures webSearchEnabled == old(webSearchEnabled)
      ensures archive == old(archive) && events == old(events)
    {
      primaryModel := value;
      finalAgent.model := value;
    }

    method ToggleWebSearch(enabled: bool) returns (status: string)
      modifies this
      requires Valid()
      ensures Valid() && webSearchEnabled == enabled
      ensures status == if enabled then "Web search enabled" else "Web search disabled"
      ensures coreMemory == old(coreMemory) && documentCount == old(documentCount)
      ensures primaryModel == old(primaryModel) && archive == old(archive) && events == old(events)
    {
      webSearchEnabled := enabled;
      status := "Web search " + (if enabled then "enabled" else "disabled");
    }

    method EditCoreMemory(section: string, key: string, value: string) returns (status: string)
      modifies this
      requires Valid()
      ensures Valid() && coreMemory == EditSections(old(coreMemory), section, key, value)
      ensures status == CoreUpdated(section, key, value)
      ensures documentCount == old(documentCount) && webSearchEnabled == old(webSearchEnabled)
      ensures primaryModel == old(primaryModel) && archive == old(archive) && events == old(events)
    {
      if section !in coreMemory {
        coreMemory := coreMemory[section := map[]];
      }
      coreMemory := coreMemory[section := coreMemory[section][key := value]];
      status := CoreUpdated(section, key, value);
    }

    method ClearCoreMemory() returns (status: string)
      modifies this
      requires Valid()
      ensures Valid() && coreMemory == EmptyCore
      ensures status == "Core memory cleared successfully."
      ensures documentCount == old(documentCount) && webSearchEnabled == old(webSearchEnabled)
      ensures primaryModel == old(primaryModel) && archive == old(archive) && events == old(events)
    {
      coreMemory := EmptyCore;
      status := "Core memory cleared successfully.";
    }

    /** Records a message in the event memory and the index; the chunk
        counter is left alone. */
    method UpdateMemory(message: string, role: Role)
      modifies this
      requires Valid()
      ensures Valid()
      ensures events == old(events) + [Event(role, message)] && archive == old(archive) + [message]
      ensures documentCount == old(documentCount) && coreMemory == old(coreMemory)
      ensures webSearchEnabled == old(webSearchEnabled) && primaryModel == old(primaryModel)
    {
      events := events + [Event(role, message)];
      archive := archive + [message];
    }

    method AddToArchivalMemory(content: string) returns (status: string)
      modifies this
      requires Valid()
      ensures Valid()
      ensures !IsBlank(content) ==> && archive == old(archive) + [content]
                                    && documentCount == old(documentCount) + 1
                                    && status == "Added to archival memory: " + content
      ensures IsBlank(content) ==> && archive == old(archive) && documentCount == old(documentCount)
                                   && status == "Failed to add empty content to archival memory."
      ensures coreMemory == old(coreMemory) && webSearchEnabled == old(webSearchEnabled)
      ensures primaryModel == old(primaryModel) && events == old(events)
    {
      if Strip(content) != [] {
        archive := archive + [content];
        documentCount := documentCount + 1;
        return "Added to archival memory: " + content;
      }
      status := "Failed to add empty content to archival memory.";
    }

    /** `failure` is the exception clearing the index raised, if any. */
    method ClearArchivalMemory(failure: Option<string>) returns (status: string)
      modifies this
      requires Valid()
      ensures Valid()
      ensures failure.None? ==> && archive == [] && documentCount == 0
                                && status == "Archival memory cleared successfully."
      ensures failure.Some? ==> && archive == old(archive) && documentCount == old(documentCount)
                                && status == "Error clearing archival memory: " + failure.value
      ensures coreMemory == old(coreMemory) && webSearchEnabled == old(webSearchEnabled)
      ensures primaryModel == old(primaryModel) && events == old(events)
    {
      if failure.Some? {
        return "Error clearing archival memory: " + failure.value;
      }
      archive := [];
      documentCount := 0;
      status := "Archival memory cleared successfully.";
    }

    /** Adds the new content; the old content stays in the index. */
    method EditArchivalMemory(oldContent: string, newContent: string) returns (status: string)
      modifies this
      requires Valid()
      ensures Valid()
      ensures archive == old(archive) + [newContent] && documentCount == old(documentCount) + 1
      ensures status == ArchiveEdited(newContent)
      ensures coreMemory == old(coreMemory) && webSearchEnabled == old(webSearchEnabled)
      ensures primaryModel == old(primaryModel) && events == old(events)
    {
      archive := archive + [newContent];
      documentCount := documentCount + 1;
      status := ArchiveEdited(newContent);
    }

    /** `read` gives what the dispatched reader makes of the file, `splitter`
        the text splitter's chunks. */
    method UploadDocument(path: string, read: Reader -> ReadOutcome, splitter: string -> seq<string>)
      returns (status: string)
      modifies this
      requires Valid()
      ensures Valid()
      ensures var u := UploadOf(path, read, splitter);
              && status == u.status && archive == old(archive) + u.chunks
              && documentCount == old(documentCount) + |u.chunks|
      ensures coreMemory == old(coreMemory) && webSearchEnabled == old(webSearchEnabled)
      ensures primaryModel == old(primaryModel) && events == old(events)
    {
      var ext := FileExtension(path);
      match ReaderFor(ext)
      case None =>
        status := "Unsupported file type: " + ext;
      case Some(reader) =>
        match read(reader)
        case Failed(message) =>
          status := ProcessingError(path, message);
        case Content(content) =>
          if Strip(content) == [] {
            status := EmptyFile;
          } else {
            var splits := splitter(content);
            AddChunks(splits);
            status := Uploaded(path, |splits|);
          }
    }

    /** The per-split loop of `upload_document`: each split goes into the index
        and is counted. */
    method AddChunks(splits: seq<string>)
      modifies this
      requires Valid()
      ensures Valid()
      ensures archive == old(archive) + splits && documentCount == old(documentCount) + |splits|
      ensures coreMemory == old(coreMemory) && webSearchEnabled == old(webSearchEnabled)
      ensures primaryModel == old(primaryModel) && events == old(events)
    {
      var i := 0;
      while i < |splits|
        invariant 0 <= i <= |splits|
        invariant archive == old(archive) + splits[..i] && documentCount == old(documentCount) + i
        invariant coreMemory == old(coreMemory) && webSearchEnabled == old(webSearchEnabled)
        invariant primaryModel == old(primaryModel) && events == old(events)
      {
        assert splits[..i + 1] == splits[..i] + [splits[i]];
        archive := archive + [splits[i]];
        documentCount := documentCount + 1;
        i := i + 1;
      }
      assert splits[..|splits|] == splits;
    }

    /** The steps of `get_response` after a successful fan-in: the direct web
        search, the query expansion, the context prompt and the synthesis. */
    method Synthesize(input: string, agentsSearched: bool,
                      complete: (string, seq<Message>) -> string, lookup: string -> seq<Hit>,
                      canonical: string -> Option<string>, parse: string -> Parsed,
                      retrieve: (seq<string>, string, nat) -> seq<string>)
      returns (answer: string, searched: bool, queries: seq<QueryItem>, prompt: string)
      ensures TurnOutcome(answer, searched, queries, prompt)
              == Synthesis(input, agentsSearched, finalAgent.model, finalAgent.systemPrompt,
                           webSearchEnabled, documentCount, archive,
                           complete, lookup, canonical, parse, retrieve)
    {
      ghost var t := Synthesis(input, agentsSearched, finalAgent.model, finalAgent.systemPrompt,
                               webSearchEnabled, documentCount, archive,
                               complete, lookup, canonical, parse, retrieve);
      searched := agentsSearched;
      if webSearchEnabled {
        var evidence := SearchWeb(lookup(input));
        if Contains(evidence, SuccessMarker) {
          searched := true;
        }
      }
      assert searched == t.searched;
      var extensionAgent := new Agent(finalAgent.model, "QueryExtensionAgent", ExtensionPrompt);
      var extensionOutput, _, _, _ := extensionAgent.GenerateResponse(ExtensionRequest(input), complete, lookup, canonical);
      queries := ExpansionQueries(parse(extensionOutput));
      assert queries == t.queries;
      var k := RetrievalSize(documentCount);
      prompt := AssembleContext(input, k, queries, Against(retrieve, archive));
      assert prompt == t.prompt;
      answer := complete(finalAgent.model, [Message(System, finalAgent.systemPrompt), Message(User, prompt)]);
    }

    /** One turn: `replies` are the reference agents' joined results, in agent
        order; the other parameters stand for the model server, the web, the
        JSON parser and the index's ranking. */
    method GetResponse(input: string, replies: seq<Reply>,
                       complete: (string, seq<Message>) -> string, lookup: string -> seq<Hit>,
                       canonical: string -> Option<string>, parse: string -> Parsed,
                       retrieve: (seq<string>, string, nat) -> seq<string>)
      returns (answer: string, searched: bool)
      modifies this
      requires Valid() && |replies| == |referenceAgents|
      ensures Valid()
      ensures var t := Respond(input, replies, old(finalAgent.model), finalAgent.systemPrompt,
                               old(webSearchEnabled), old(documentCount), old(archive) + [input],
                               complete, lookup, canonical, parse, retrieve);
              answer == t.answer && searched == t.searched
      ensures References(replies) == [] ==>
                events == old(events) + [Event(User, input)] && archive == old(archive) + [input]
      ensures References(replies) != [] ==>
                && events == old(events) + [Event(User, input), Event(Assistant, answer)]
                && archive == old(archive) + [input, answer]
      ensures coreMemory == old(coreMemory) && documentCount == old(documentCount)
      ensures webSearchEnabled == old(webSearchEnabled) && primaryModel == old(primaryModel)
    {
      UpdateMemory(input, User);
      var references, anySearched := FanIn(replies);
      if references == [] {
        return AllAgentsFailed, false;
      }
      var queries, prompt;
      answer, searched, queries, prompt := Synthesize(input, anySearched, complete, lookup, canonical, parse, retrieve);
      ghost var mid := archive;
      UpdateMemory(answer, Assistant);
      assert archive == mid + [answer];
    }
  }
}
