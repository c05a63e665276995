# Mixture-of-agents orchestrator: a Dafny model

This project models the deterministic core of `omoa.py`, a mixture-of-agents
chat orchestrator. Several reference agents each answer the user's message
through a local model server. An agent may ask for one web search by writing
`[SEARCH: query]` in its answer. The orchestrator keeps the usable answers and
runs its own direct web search. It asks a query-extension agent for more
queries and retrieves chunks from an archival index for the input and for each
extra query. It then assembles a context prompt and has a final agent produce
the answer. It also keeps a core memory (section to key to value), a chunk
counter for the archival index, a web-search switch and the primary model.

Everything outside the process is a parameter of the model:
- the model server, `complete(model, messages)`;
- the search engine together with the page fetcher, `lookup(query)`, which gives the hits and what fetching each produced;
- the JSON parse-and-dump round, `canonical`;
- the JSON parser, `parse`;
- the index's ranking, `retrieve(index, query, k)`;
- the file readers and the text splitter.

The modules follow the program's structure:

- `Wrappers`: `Option`.
- `Text`: the Python string operations the code relies on (`strip`, `in`, `startswith`, `split`, `lower`, `str(n)`).
- `Web`: `get_website_content_from_url` and `search_web`.
- `Agents`: `OllamaAgent` and its `generate_response` search protocol.
- `Expansion`: reading the query-extension answer into `QueryItem`s.
- `Turn`: the fan-in, the retrieval size and the context-prompt assembly of `get_response`.
- `Orchestrator`: class `MixtureOfAgents`, with its state, its operations and the whole turn.

Where the code loops or mutates, the model is a method with a loop or a class
method with `modifies`, and each method's ensures give its result and the new
state. The loops of `search_web`, `generate_response`, the fan-in, the
context-prompt assembly, the upload and the turn are proved equal to
specification functions, and the lemmas about those functions state what the
code promises.

Two behaviours of the code are worth stating:
- A successful turn adds the user message and the answer to the archival index (two documents). It leaves `document_count` unchanged, so the counter counts only the chunks added through the archival-memory operations and uploads. The invariant `Valid()` records that the counter never exceeds the number of indexed documents.
- The first `final_prompt`, with the personality, the references and the memory section, is built and then replaced before the synthesis call. The synthesis sees only the final agent's system prompt and the context prompt. Only the side effect of that block is kept: the direct search and its flag.

## Model

| member | source | states |
|---|---|---|
| Text.Strip | omoa.py:109 | the result is empty exactly when the input is all whitespace (Python's `isspace` set), and otherwise has no whitespace at either end |
| Text.TakeUntil | omoa.py:130 | `split("]", 1)[0]`: a prefix of the input with no `]`, followed in the input by `]` unless it is all of it |
| Text.AfterLast | omoa.py:222 | `split('.')[-1]`: a suffix of the input with no `.`, preceded by `.` unless it is all of it |
| Web.PageBlock | omoa.py:72-100 | the intended block per fetch outcome: always starts with visible text; a page with non-empty content starts with the title banner and carries its URL and content |
| Web.PageBlockAsWritten | omoa.py:74-75 | the block as the code is written: the NameError from the unimported `use_config` gives the generic error text for every URL |
| Web.AsWrittenIsRaised | omoa.py:75 | the as-written block for any URL is the intended block for a fetch that raised the `use_config` NameError |
| Web.AsWrittenDropsContent | omoa.py:75 | for the page `https://example.org/flares` with title "Flares" and text "Quasar", the intended block carries "Quasar" and the as-written block does not |
| Web.SearchWeb | omoa.py:102-112 | with each fetch as intended (`PageBlock`), the accumulation loop computes `Evidence(hits)`, and the success marker is in the result exactly when there were hits |
| Web.BlocksBlankIffNoHits | omoa.py:105-109 | the accumulated string is whitespace-only exactly when there were no hits |
| Web.EvidenceMarkerIffHits | omoa.py:109-112 | "Based on the following results:" is in the result exactly when the search returned hits |
| Web.EvidenceSentinelIffNoHits | omoa.py:109-112 | the result is exactly the "No relevant information found" sentinel when, and only when, there were no hits |
| Web.SentinelLacksMarker | omoa.py:110-112 | the sentinel does not contain the success marker |
| Web.EvidenceCarriesEveryBlock | omoa.py:105-111 | every hit's block appears in the evidence |
| Web.DirectSearch | omoa.py:298-301 | the direct-search flag rule: the turn counts as searched exactly when the search returned hits |
| Agents.SearchQuery | omoa.py:128-130 | a query is extracted exactly when the response contains `[SEARCH:`; a non-empty query has no whitespace at its ends |
| Agents.SearchQueryOfParts | omoa.py:130 | the query is the stripped text after the first marker, up to the first following `]` or the end |
| Agents.RequestedQuery | omoa.py:128-130 | `... [SEARCH: q] ...` with no `[` before the marker yields exactly `q` |
| Agents.FollowUpCarries | omoa.py:133 | the hand-back user turn contains the query and the whole search evidence |
| Agents.Retry | omoa.py:131-134 | the re-generation request: the original two messages, the first response as assistant turn, then a user turn that names the query and contains the whole evidence |
| Agents.Run | omoa.py:120-141 | the flag is set exactly when the first response holds the marker; there is exactly one re-generation with the extracted query's evidence, or none; the text is the JSON pass-through of the last response |
| Agents.Agent.constructor | omoa.py:115-118 | the agent holds the given model, name and system prompt |
| Agents.Agent.GenerateResponse | omoa.py:120-141 | the method's text, flag, requests and search queries are those of `Run` |
| Expansion.ValidateItem | omoa.py:143-145 | an item validates exactly when it is an object with string `query` and `type` fields, which it carries |
| Expansion.ValidateItems | omoa.py:147-148 | a list validates exactly when every item does, giving the items in order |
| Expansion.ValidateExtension | omoa.py:147-148 | a missing `queries` field is the empty list; a non-array one fails; an array is validated item by item (`ValidateItems`) |
| Expansion.ExpansionQueries | omoa.py:310-325 | a decode error or a non-object, non-array value gives no queries; an object is validated as-is; an array is validated as the `queries` list |
| Expansion.ArrayOfItems | omoa.py:315-317 | an array of valid items gives those items in order; one invalid item gives no queries at all |
| Expansion.SingleQuery | omoa.py:312-314 | `{"queries": [{"query": q, "type": t}]}` gives exactly one item `(q, t)` |
| Turn.FanIn | omoa.py:270-275 | the loop's references are `References(replies)`; the flag is set exactly when some agent searched; the references are empty exactly when no reply is usable |
| Turn.ReferencesConcat | omoa.py:270-274 | the references of two batches of replies are the concatenation of theirs |
| Turn.AnySearchedConcat | omoa.py:275 | the flag of two batches is the OR of theirs |
| Turn.AnySearchedIff | omoa.py:275 | the flag is the OR over all agents, failed ones included |
| Turn.ReferencesMembers | omoa.py:272-274 | a text is a reference exactly when some agent's reply carries it, is not None and does not start with `Error:` |
| Turn.ReferencesEmptyIff | omoa.py:277-278 | the turn aborts exactly when no reply is usable |
| Turn.FanInOrderIndependent | omoa.py:267-275 | permuting the replies permutes the references (as a multiset) and leaves the flag unchanged |
| Turn.RetrievalSize | omoa.py:329 | `k = min(3, max(1, document_count))` lies in [1, 3], is 1 for an empty index, and equals the count from 1 to 3 |
| Turn.AssembleContext | omoa.py:328-343 | the nested loops build exactly `ContextPrompt` of the input's retrieval and the expansion queries' retrievals: one retrieval per expansion query, in query order, with the same `k` |
| Turn.AppendChunksIsJoin | omoa.py:330-332 | the first retrieval's chunks are appended unconditionally, each followed by a blank line, in order |
| Turn.AppendNewExtends | omoa.py:338-341 | an expansion step only appends: the prompt so far is a prefix of the result |
| Turn.AppendExpansionsExtends | omoa.py:336-341 | the expansion loop only appends |
| Turn.AppendNewCovers | omoa.py:338-341 | after an expansion step every chunk it retrieved is in the prompt |
| Turn.AppendNewAllPresent | omoa.py:340 | a step whose chunks are all substrings of the prompt already leaves it unchanged |
| Turn.AppendNewIdempotent | omoa.py:338-341 | retrieving the same chunks again adds nothing |
| Turn.AppendNewKeepsOrder | omoa.py:338-341 | a step appends a subsequence of its chunks, in retrieval order, each one not yet in the prompt when its turn came |
| Turn.ContextPromptShape | omoa.py:328-343 | the prompt starts with the context header, then the "No relevant documents" line if the first retrieval is empty or all its chunks otherwise, and ends with the separator and the question |
| Turn.ContextCoversRetrieved | omoa.py:328-343 | every chunk of every retrieval appears in the prompt |
| Orchestrator.EditSections | omoa.py:213-216 | afterwards `core[section][key] == value`; an unknown section is created; every other section and every other key keeps its value |
| Orchestrator.EditOverwrites | omoa.py:213-216 | writing the same entry twice keeps only the second value |
| Orchestrator.EditsCommute | omoa.py:213-216 | edits of different entries give the same memory in either order |
| Orchestrator.FileExtension | omoa.py:222 | the extension is no longer than the path and holds no `.` |
| Orchestrator.ExtensionOfName | omoa.py:222 | `stem.ext` has the extension `ext` lower-cased, whatever the stem |
| Orchestrator.ReaderFor | omoa.py:224-232 | exactly `txt`, `pdf` and `csv` select the text, PDF and CSV readers; anything else is unsupported |
| Orchestrator.UploadOf | omoa.py:220-244 | an unsupported extension, a read failure or blank content adds no chunk, with the matching status; otherwise every split is added and the status reports their number |
| Orchestrator.Synthesis | omoa.py:298-357 | after a successful fan-in: the flag is the agents' OR, or-ed with "search enabled and hits"; the queries come from the extension agent's answer; the prompt is the assembled context; the answer is the final model's reply to system prompt plus context prompt |
| Orchestrator.Respond | omoa.py:270-357 | no usable reply gives the fixed error and False; otherwise the flag is set exactly when some agent searched or the direct search found hits |
| Orchestrator.MixtureOfAgents.constructor | omoa.py:151-188 | web search on, count 0, the core memory file's content (or the three empty sections when there is no file), the primary model is the final agent's |
| Orchestrator.MixtureOfAgents.Model | omoa.py:397-399 | the property reads the final agent's model |
| Orchestrator.MixtureOfAgents.SetModel | omoa.py:401-404 | the primary model and the final agent's model both become the value; nothing else changes |
| Orchestrator.MixtureOfAgents.ToggleWebSearch | omoa.py:364-366 | the switch takes the value and the status names it; nothing else changes |
| Orchestrator.MixtureOfAgents.EditCoreMemory | omoa.py:213-218 | the core memory becomes `EditSections` of the old one; the status echoes the entry |
| Orchestrator.MixtureOfAgents.ClearCoreMemory | omoa.py:200-211 | the core memory becomes exactly the three empty sections |
| Orchestrator.MixtureOfAgents.UpdateMemory | omoa.py:190-195 | one event and one index document are appended; the counter is unchanged |
| Orchestrator.MixtureOfAgents.AddToArchivalMemory | omoa.py:375-380 | non-blank content is indexed and counted once; blank content changes nothing; the status says which |
| Orchestrator.MixtureOfAgents.ClearArchivalMemory | omoa.py:382-388 | success empties the index and zeroes the counter; a failure changes nothing and reports the error |
| Orchestrator.MixtureOfAgents.EditArchivalMemory | omoa.py:390-395 | the new content is indexed and counted; the old content stays |
| Orchestrator.MixtureOfAgents.UploadDocument | omoa.py:220-244 | the status, the added documents and the counter increase are those of `UploadOf` |
| Orchestrator.MixtureOfAgents.AddChunks | omoa.py:237-240 | the loop appends every split to the index and counts each once |
| Orchestrator.MixtureOfAgents.Synthesize | omoa.py:298-357 | the method's answer, flag, queries and prompt are those of `Synthesis` over the current state |
| Orchestrator.MixtureOfAgents.GetResponse | omoa.py:262-362 | the answer and flag are those of `Respond` after the user message is recorded; an abort records only the user message; a success also records the answer; core memory, counter, switch and model are unchanged |

## Left out

- Model server calls (`generate_with_references` in `utils`) are the parameter `complete`. `utils` is not part of this model.
- Failing external calls are not modelled: `complete`, `lookup` and `retrieve` always return. In the code nothing catches an exception from `DDGS().text` (omoa.py:103), so a search-engine failure in an agent's search round (omoa.py:131) or in the direct search (omoa.py:299) propagates out of `get_response`. The same holds for a raising completion call (omoa.py:125, omoa.py:134, omoa.py:351). `main` does not catch it either (omoa.py:511). The turn then returns no `Error:` text and no sentinel, and the user message is already recorded (omoa.py:264).
- Concurrency (`asyncio.gather`, `asyncio.to_thread`) is not modelled. The reference agents' joined results come in as a list in agent order. After the join, the order of start does not matter.
- Web.SearchWeb and Agents.Run model each fetch as intended (`PageBlock`). The program as written is the case where `lookup` reports the `use_config` NameError for every hit (`Web.AsWrittenIsRaised`); see Findings.
- The DuckDuckGo search, trafilatura's fetch and extraction, and `max_results=3` are the parameter `lookup`. The model states nothing about the number of hits.
- JSON parsing and dumping are the parameters `parse` and `canonical`.
- JSON `null` values for `title` or `text` are not modelled. Only the presence of each key is (`Option`).
- Pydantic's type coercion is not modelled. A field validates only when it holds a JSON string.
- The index's ranking and `k` bound are left to `retrieve`, which receives the index content and `k`. `search_archival_memory` is only such a retrieval call and is not modelled.
- The text splitter is the parameter `splitter`. The file readers (`open`, PyPDF2, the csv reader) are the parameter `read`.
- An exception raised part-way through the split loop (from the index) would leave some splits added. UploadDocument models the reader's exception only.
- Core memory persistence is not modelled: the JSON file writes, `AgentCoreMemory` and `load_core_memory`. The constructor takes the file's content instead.
- The event memory's SQL store is modelled as a list of events. `update_memory_section` and the discarded first `final_prompt` are not modelled (personality, references, memory section), since nothing reads them.
- The `isinstance` checks on `core_memory` and on the agent's response are not modelled. The core memory is always a map, and the model's reply is always a string.
- `temperature`, `max_tokens` and `rounds` are only passed through, so they are not modelled.
- The console loop is not modelled: `main`, the welcome text and environment loading. `edit core` in that loop splits the command with `split(' ', 3)`, so the word `core` becomes the section name.
- Text.Lower: lower-cases ASCII letters only, where Python's `str.lower` covers all of Unicode. So `FileExtension`'s bound `|ext| <= |path|` relies on this: Python's `"İ".lower()` is two characters long.
- Text.NatToString is the decimal text of the count. Its digits are stated, not their value.

## Findings

| source | as written | input that shows it | evidently intended | confidence | as-written member | corrected member |
|---|---|---|---|---|---|---|
| omoa.py:75 | `use_config()` is called but never imported, so the NameError is caught at omoa.py:99-100 and every URL yields "An error occurred while processing {url}: name 'use_config' is not defined" | hit `https://example.org/flares` whose page extracts to title "Flares", text "Quasar": the as-written block does not contain "Quasar" | with `use_config` imported from trafilatura's settings, the block carries the page's title, URL and content (omoa.py:80-96) | not executed | Web.AsWrittenDropsContent | Web.PageBlock |
