# research_agent in Dafny

A model of the research pipeline of `research_agent`. A user's query goes through three
fixed stages:

1. **plan.** A language model splits the query into prioritised sub-questions.
2. **research.** For every sub-question in priority order, the stage issues up to three web
   searches, de-duplicates the results by url across the whole run, and asks a model to
   turn them into evidence bullets.
3. **write_report.** A model writes the final report from the notes. If it fails, a fixed
   fallback report is assembled.

Each stage returns a partial update. The update is merged into one shared `ResearchState`:
four list fields are concatenated and every other field is overwritten. A streaming service
runs the graph and emits a fixed sequence of server-sent events:

- `thread_id`;
- `planning`;
- `writing`;
- one `message` per 500-character chunk of the report;
- `done` with the response, whose citations are de-duplicated by url.

A fault produces a single `error` event instead. An in-memory thread manager keeps
conversation threads and their messages.

Things outside the program become parameters:

- the language models (planner, synthesiser, writer);
- the live search client;
- the clock;
- the uuid generator;
- the JSON encoder.

A call to a model or to the search client returns `Outcome<T>`: `Ok(value)` or
`Fault(message)`. `Fault` stands for any exception the call or the parsing of its answer
raises.

Modules, one per file:

- `Text`: Python string and slice helpers, decimal rendering, joining and flattening.
- `Models`: `Option`, `Outcome` and the records the agents exchange (`SubQuestion`,
  `ResearchPlan`, `SearchResult`, `Citation`, `ResearchNote`).
- `State`: `ResearchState`, the partial `Update` a stage returns, and the per-field merge.
- `Search`: the search tool, its stub results and the stub/live choice.
- `Planner`: the planning stage.
- `Researcher`: the research stage.
  - `ResearchSpec` specifies the stage as a left fold of `Step` over the sorted
    sub-questions.
  - The method `Research` keeps the source's loop over mutable locals and is proved equal
    to `ResearchSpec`.
- `Writer`: the writing stage.
  - The two string builders are methods with append loops, proved equal to line-list
    functions joined with `"\n"`.
- `Workflow`: the graph (entry `plan`, then `research`, then `write_report`, then the end).
  - A run is the fold of the three stage updates into the initial state.
  - The build-once graph cache is a class.
- `Streaming`: citation de-duplication, chunking, SSE framing and the event sequence of a
  run.
- `Threads`: the classes `ConversationThread` and `ThreadManager`, which update their
  fields in place.

Where the code does something other than what one might expect, the model follows the code:

- The first event is named `thread_id`.
- No `research_progress` event is ever sent.
- `sources_analyzed` counts raw search results before de-duplication. It has no reducer,
  so the merge overwrites it instead of summing it. After a run it is the researcher's raw
  count.
- The planner's model may return an empty list of sub-questions. The plan then has no
  sub-question (`Planner.PlanNonEmptyUnlessModelEmpty`), so a run is not guaranteed at
  least one work item.
- When the report is empty, no `message` event is sent.

## Model

| member | source | states |
|---|---|---|
| State.Initial | app/services/streaming.py:37-49 | the initial state has the query and thread id, every list empty, plan and report fields absent, and a counter of 0 |
| State.Merge | app/graph/state.py:9-39 | `research_notes`, `key_takeaways`, `citations` and `errors` become old ++ update, with no de-duplication. `plan`, `final_report`, `executive_summary`, `limitations` and `sources_analyzed` take the update's value when it sets one, else keep the old value. `query` and `thread_id` are kept |
| State.MergeNoUpdate | app/graph/state.py:9-39 | merging an update that sets no field leaves the state unchanged |
| State.MergeThen | app/graph/state.py:9-39 | merging two updates one after the other equals merging their composition, where lists concatenate and the later scalar wins |
| Planner.FallbackPlan | app/agents/planner.py:99-108 | the fallback plan has exactly one sub-question: id `sq1`, the query as question and as sole search query, priority 1 |
| Planner.Plan | app/agents/planner.py:67-114 | both paths set a plan and `sources_analyzed = 0` and nothing else but errors. On success the plan is the parsed sub-questions in order. On failure it is the fallback plan. `errors` is present iff the model failed, and then holds exactly `"Planner agent failed: " + message` |
| Planner.PlanNonEmptyUnlessModelEmpty | app/agents/planner.py:81-108 | the plan has no sub-question iff the model answered with an empty list |
| Search.NewSearchTool | app/tools/search.py:15-23 | the stub is used iff no API key (or an empty one) is configured |
| Search.StubSearch | app/tools/search.py:105 | the result is a prefix of the five fixed results. For `max_results >= 0` it has `min(5, max_results)` entries. A negative bound drops entries from the end as Python slicing does |
| Search.DoSearch | app/tools/search.py:36-59 | the stub answers when `use_stub` is set. Otherwise the live client's results are returned, and the stub's when the live client raises |
| Search.AsCollaborator | app/tools/search.py:25-59 | seen by the researcher, the search tool never fails and returns `DoSearch`'s results |
| Search.StubUrlShape | app/tools/search.py:70-98 | the i-th stub url is `https://example.com/` + its kind + the query with spaces replaced by `-`, cut to 30 characters |
| Search.StubUrlsDistinct | app/tools/search.py:70-98 | for any query the five stub urls are pairwise distinct |
| Search.StubUrlsCollide | app/tools/search.py:70-98 | two queries that agree on their first 30 characters after replacing spaces by `-` get the same five urls |
| Search.StubTitle | app/tools/search.py:69-97 | the i-th title is its fixed prefix followed by the query cut to 50, 40, 45, 50 or 45 characters |
| Researcher.SortByPriorityCorrect | app/agents/researcher.py:83-86 | the processing order is sorted by ascending priority and is a permutation of the plan. It is stable: for every priority, the sub-questions with that priority keep their plan order |
| Researcher.Synthesize | app/agents/researcher.py:156-212 | no results: the fixed findings and open question, without calling the model. Model answered: its two lists, a missing key read as empty. Model failed: `content[:200] + "..."` of the first min(6, n) results in order, and the fixed open question |
| Researcher.SynthesizeSeesFirstTen | app/agents/researcher.py:178-181 | two non-empty result lists that agree on their first ten entries give the same synthesis: at most ten results reach the model |
| Researcher.GatherStopsAtFault | app/agents/researcher.py:93-97 | once a search raises, no later query of that sub-question is issued |
| Researcher.Step | app/agents/researcher.py:89-147 | each sub-question appends exactly one note with its id. The counter grows by every raw result returned before any fault. If a search raised, the note is the placeholder, the one error appended is `Research failed for sub-question '<question>': <message>`, and citations and seen urls are unchanged. Otherwise no error is added. The results are de-duplicated against the run-wide seen set, which grows to the de-duplication's set. The note holds the new citations as its sources and the synthesis of only the new-url results as its bullets and open questions. The run's citations grow by exactly those sources |
| Researcher.AllSeenGivesNoResults | app/agents/researcher.py:103-119 | a sub-question whose searches succeed but return only empty or already-seen urls gets the "No search results available" note and no source, although results came back |
| Researcher.ResearchSpec | app/agents/researcher.py:62-154 | no plan: only the error `No research plan available`, and the result does not depend on the searcher. A plan: exactly the four keys notes, citations, `sources_analyzed` and errors |
| Researcher.SearchQueries | app/agents/researcher.py:93-97 | the query loop gathers the results of each query in turn and stops at the first search that raises |
| Researcher.KeepUnseen | app/agents/researcher.py:103-113 | the de-duplication loop against the run-wide seen set computes `DedupResults` |
| Researcher.Research | app/agents/researcher.py:62-154 | the stage's loop over mutable locals returns exactly `ResearchSpec` |
| Researcher.OneNotePerSubQuestion | app/agents/researcher.py:122-147 | the number of notes equals the number of sub-questions, and the i-th note carries the i-th sub-question's id |
| Researcher.CitationsAreNoteSources | app/agents/researcher.py:125-130 | the run's citations are the notes' source lists concatenated in note order |
| Researcher.DedupResultsCorrect | app/agents/researcher.py:103-113 | the cited urls are exactly the non-empty urls not seen before. None is empty, none repeats, and each citation is the first result with its url. The seen set grows by exactly the non-empty urls |
| Researcher.DedupResultsAppend | app/agents/researcher.py:103-113 | de-duplicating a ++ b against a seen set equals de-duplicating a, then b against the set a left behind |
| Researcher.RunIsOneDedup | app/agents/researcher.py:78-113 | the run's citations and seen set equal one de-duplication, from the empty set, of the results of the sub-questions whose searches all succeeded, in processing order. Results gathered before a search raised count towards `sources_analyzed` but take no part in the de-duplication |
| Researcher.ResearchCitations | app/agents/researcher.py:103-130 | the stage's citations have distinct, non-empty urls, exactly the non-empty urls of the results of the sub-questions whose searches all succeeded (the results gathered before a search raised are counted but never de-duplicated or cited). Each is the first occurrence among those results in processing order, and together they are the notes' sources in order |
| Researcher.CounterIsRawCount | app/agents/researcher.py:97 | the counter equals the number of raw results, which bounds the number of results de-duplicated |
| Researcher.RawCountBound | app/agents/researcher.py:94-97 | with a searcher that honours `max_results`, the raw count is at most 3 × 3 per sub-question |
| Researcher.SourcesAnalyzedBounds | app/agents/researcher.py:94-152 | `sources_analyzed` is the raw count, is at least the number of citations, and is at most 9 × the number of sub-questions when search honours `max_results` |
| Researcher.GatherDependsOnlyOn | app/agents/researcher.py:94-95 | gathering uses the searcher only on the given queries, with `max_results = 3` |
| Researcher.OnlyFirstThreeQueries | app/agents/researcher.py:94-95 | two searchers that agree on the first three queries of every sub-question, each asked for three results, give the same stage output |
| Researcher.ErrorsCountFailures | app/agents/researcher.py:134-147 | one error per sub-question whose searches raised, and none when search never raises |
| Researcher.ResearchNotesFollowPlan | app/agents/researcher.py:83-129 | the stage yields one note per sub-question of the plan, in ascending priority order |
| Writer.AppendBullets | app/agents/writer.py:146-147 | appends one `- item` line per item, in order |
| Writer.AppendNote | app/agents/writer.py:141-155 | appends exactly the lines of one note block |
| Writer.FormatAll | app/agents/writer.py:141-155 | the loop over notes produces the note blocks one after the other |
| Writer.FormatResearchNotes | app/agents/writer.py:132-157 | `_format_research_notes` returns the note lines under the plan's id-to-question map, joined with `"\n"` |
| Writer.QuestionMapKeys | app/agents/writer.py:137-139 | an id has an entry in the map iff some sub-question of the plan has that id |
| Writer.QuestionMapLastWins | app/agents/writer.py:139 | the map gives a sub-question's question for its id when no later sub-question repeats the id, as the dict comprehension does |
| Writer.LabelWithoutPlan | app/agents/writer.py:138-142 | without a plan the heading is the note's id itself |
| Writer.OpenQuestionsShown | app/agents/writer.py:149-152 | the `Open Questions:` line appears in a note block iff the note has open questions |
| Writer.NoteBlockEnd | app/agents/writer.py:154-155 | every note block ends with `Sources: N sources` for its number of sources, then a newline and 80 dashes |
| Writer.AppendFindings | app/agents/writer.py:168-171 | appends, for each note numbered from 1, its `### Finding i` heading and its bullets |
| Writer.GenerateFallbackReport | app/agents/writer.py:159-176 | `_generate_fallback_report` returns header ++ findings ++ conclusion lines joined with `"\n"` |
| Writer.FindingLinesAt | app/agents/writer.py:168-171 | in the findings, note i's heading is `### Finding i+1` and its k-th bullet follows as `- bullet`, at a position fixed by the sizes of the earlier notes |
| Writer.FallbackReportShape | app/agents/writer.py:161-176 | the fallback report starts with `# Research Report: {query}\n` and ends with the fixed conclusion sentence |
| Writer.WriteReport | app/agents/writer.py:64-130 | every path sets all four report fields and no research field. No notes: the fixed texts and one error, without calling the model. Model answered: its fields, with missing keys (and, in the model, `null` values) read as `""` or `[]`, and no error. Model failed: the fallback report, the fixed texts, and exactly one error `"Report writer failed: " + message` |
| Text.NatToStringRoundTrip | app/agents/writer.py:154-169 | the decimal rendering used for source counts and finding numbers reads back as the same number |
| Workflow.ResearchGraphSchedule | app/graph/workflow.py:25-33 | walking the graph from its entry visits `plan`, `research`, `write_report`, once each and in that order, and then ends |
| Workflow.RunIsThreeStages | app/graph/workflow.py:30-36 | a run is the initial state merged with the planner's, the researcher's and the writer's updates in turn |
| Workflow.RunKeepsResearch | app/graph/workflow.py:32-33 | the writer leaves plan, notes, citations and counter as the researcher left them, and only appends to errors |
| Workflow.RunPlan | app/graph/workflow.py:30-31 | a run's plan is always the planner's, so the researcher's no-plan branch is never taken inside the graph |
| Workflow.RunNotes | app/graph/workflow.py:31-32 | a run has one note per planned sub-question, in ascending priority, so the writer gets no notes iff the plan is empty |
| Workflow.RunErrors | app/graph/workflow.py:31-33 | the final errors are planner errors ++ researcher errors ++ writer errors |
| Workflow.RunErrorCount | app/graph/workflow.py:31-33 | the final error count is one for a failed planner, plus one per sub-question whose searches raised, plus one when the writer reports an error |
| Workflow.RunSourcesAnalyzed | app/graph/workflow.py:31-33 | after a run `sources_analyzed` is the researcher's raw count: the planner's 0 is overwritten and the writer leaves it alone |
| Workflow.RunCitations | app/graph/workflow.py:31-33 | a run's citations are the researcher's, with distinct, non-empty urls |
| Workflow.RunReport | app/graph/workflow.py:32-33 | after a run the report fields are set, and they are the writer's |
| Workflow.GraphCache.constructor | app/graph/workflow.py:42 | the cache starts empty, with no build made |
| Workflow.GraphCache.Get | app/graph/workflow.py:44-49 | returns the research graph and never replaces a cached graph. The build counter grows by one only when the cache was empty, so across any number of calls the graph is built exactly once |
| Streaming.BuildResponse | app/services/streaming.py:102-133 | the response-building loop returns `Respond`: the state's fields with citations de-duplicated by url |
| Streaming.RespondFields | app/services/streaming.py:102-133 | the response has the thread id, query and report of the state, and citations with distinct urls covering every url of the state. `sub_question_count` is the plan's size, or 0 without a plan. `sources_analyzed` is copied |
| Streaming.UniqueByUrlUrls | app/services/streaming.py:106-111 | de-duplication keeps every url of the input |
| Streaming.UniqueByUrlDistinct | app/services/streaming.py:106-111 | no url occurs twice in the de-duplicated citations |
| Streaming.UniqueByUrlFirst | app/services/streaming.py:106-111 | each kept citation is the first one in the input with its url |
| Streaming.UniqueByUrlPrefix | app/services/streaming.py:106-111 | de-duplicating a prefix gives a prefix of the result, so relative order is kept |
| Streaming.UniqueByUrlIdentity | app/services/streaming.py:106-111 | citations whose urls are already distinct pass through unchanged |
| Streaming.UniqueByUrlIdempotent | app/services/streaming.py:106-111 | de-duplicating twice is the same as once |
| Streaming.ChunkText | app/services/streaming.py:140-148 | the chunking loop returns `Chunks(text, size)` |
| Streaming.ChunksConcat | app/services/streaming.py:145-148 | concatenating the chunks in order gives back the text |
| Streaming.ChunksSizes | app/services/streaming.py:146-147 | every chunk is non-empty and at most `size` long, and all but the last are exactly `size` long |
| Streaming.ChunksCount | app/services/streaming.py:140-148 | there are `ceil(len/size)` chunks: none iff the text is empty |
| Streaming.SseRoundTrip | app/services/streaming.py:135-138 | parsing a frame `event: kind\ndata: payload\n\n` gives back the kind and the payload when the kind has no newline |
| Streaming.SseParseFormats | app/services/streaming.py:135-138 | every frame that parses is exactly the frame of what it parses to |
| Streaming.StreamResearch | app/services/streaming.py:17-90 | the generator's loop yields exactly `StreamEvents` |
| Streaming.StreamFraming | app/services/streaming.py:32-90 | the first event is `thread_id`, only the last event is terminal (`done` or `error`), the stream ends in `done` iff nothing failed, and an `error` event carries the thread id |
| Streaming.StreamOnSuccess | app/services/streaming.py:34-82 | a successful run emits exactly `thread_id`, `planning`, `writing`, one `message` per chunk of the report in order, then `done` with the response |
| Streaming.StreamCarriesReport | app/services/streaming.py:76-82 | on success the message payloads are the report's 500-character chunks and concatenate to the report, there are 4 + `ceil(len/500)` events, and the last is `done` with the response |
| Streaming.StreamFramesParse | app/services/streaming.py:34-90 | every frame the service sends parses back to its event's kind and encoded payload |
| Streaming.StreamOfResearchRun | app/services/streaming.py:52-82 | streaming the research graph ends in `done`. Its response carries the run's report (always present), its citations, the plan's size and the raw result count |
| Threads.NewMessage | app/services/threads.py:11-14 | a message keeps role and content, and its timestamp is the given one, or the current time when that is missing or empty |
| Threads.ConversationThread.constructor | app/services/threads.py:19-23 | a new thread has its id, no messages, and equal creation and update times |
| Threads.ConversationThread.AddMessage | app/services/threads.py:25-29 | appends exactly one message stamped with the current time after the earlier ones, moves the update time, and keeps the creation time |
| Threads.ConversationThread.History | app/services/threads.py:31-40 | the history lists the messages in insertion order with role, content and timestamp |
| Threads.ThreadManager.constructor | app/services/threads.py:50-51 | a new manager has no threads |
| Threads.ThreadManager.CreateThread | app/services/threads.py:53-57 | files a fresh empty thread under the generated id, changes no other entry, and grows the count by one unless that id was taken |
| Threads.ThreadManager.GetThread | app/services/threads.py:59-61 | the thread under the id, or none iff the id is unknown |
| Threads.ThreadManager.GetOrCreateThread | app/services/threads.py:63-78 | an existing non-empty id returns that id and its thread and leaves the map unchanged. Otherwise a new empty thread is filed under the generated id, not the requested one, and the count grows by one when that id is new |
| Threads.ThreadManager.AddMessage | app/services/threads.py:80-84 | appends one message to the named thread and moves its update time. No other thread's messages or update time change, an unknown id changes no thread, no creation time changes, and the map itself is unchanged |
| Threads.ThreadManager.ThreadCount | app/services/threads.py:86-88 | the count is the number of stored threads |

## Left out

- The language models are abstracted: `ChatOpenAI`, `llm.invoke`, the prompt texts and
  `json.loads` of their answers. Each model is a function returning `Outcome`, and a parse
  failure is one more `Fault`.
- The live Tavily call is a parameter (`live` in `Search.DoSearch`), because it is a
  network call. Its "Untitled" and empty-string defaults for missing keys happen inside it.
- `app/models.py` is not part of this model. The records are derived from their field uses,
  and pydantic validation is not modelled: a malformed sub-question is one more planner
  `Fault`, and a `None` report field stays `None` in the response.
- `app/main.py` (HTTP routing, CORS, static files, status codes, rejection of empty
  messages) is not part of this model.
- `asyncio.sleep`, `run_in_executor` and the async generator machinery are left out. The
  stream is modelled as the finished list of events; a subscriber disconnecting is not
  modelled.
- The clock, `uuid.uuid4()` and the JSON encoder are parameters (`now`/`timestamp`,
  `newId`, `encode`). Fresh ids are not assumed distinct from existing ones.
- `print` logging and the singletons `get_search_tool`, `get_streaming_service` and
  `get_thread_manager` are left out. Collaborators are passed in explicitly. Only the
  build-once cache of `get_research_graph` is modelled.
- An exception raised inside `_build_response` or by the graph itself is covered only as
  the `graphFault` and `execute` parameters of the stream.
- Threads.ConversationThread.AddMessage: the source reads the clock twice (once for the
  message, once for `updated_at`). The model uses one `now` for both, so it states that
  they are equal.
- Researcher.Step: the `except` branch is taken only for a search that raises. An exception
  raised after de-duplication has begun (a `Citation` or `ResearchNote` rejecting a malformed
  value, such as a synthesis answer with an explicit `null` list) is not modelled. In the
  source such a sub-question keeps its urls in the seen set without citing them, so a later
  sub-question cannot cite them either. The model's `Analysis` reads an explicit `null` as a
  missing key, which gives an empty list.
- Writer.WriteReport: a key of the writer model's answer that is present with the value
  `null` is read as missing, as `ReportData`'s `Option` fields cannot tell the two apart.
  In the source `.get` returns `None` for it. A `null` `key_takeaways` then makes the `add`
  reducer compute `[] + None`, which raises inside the graph run, so the stream ends with
  `error` after `thread_id` and `planning`. The model gives `[]` instead, and
  `Streaming.StreamOfResearchRun` ends such a run with `done`. A `null` `report`,
  `executive_summary` or `limitations` leaves that field `None` in the source but `""` in
  the model.
- Streaming.ChunkText: requires a positive chunk size. The service always uses 500, and
  Python's `range` raises for 0.
- Streaming.StreamResearch: the report's absence (`None`) is chunked as the empty text,
  as `_chunk_text` does for any falsy text.
- Researcher.RawCountBound: the bound of 9 results per sub-question is proved only for a
  searcher that returns at most `max_results` results (`HonoursMaxResults`). The live
  client is not known to do so.
