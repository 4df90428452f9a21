/** The streaming service: runs the research graph for one query and turns
    the run into a sequence of server-sent events, announcing the thread,
    the planning and writing phases, the report in fixed-size chunks and the
    full response, or a single error event once something raises. */
module Streaming {
  import opened Models
  import opened Text
  import opened State
  import Researcher
  import Workflow

  // ---------------------------------------------------------------------------
  // The response

  datatype Metadata = Metadata(subQuestionCount: nat, sourcesAnalyzed: int, completionTimestamp: string)

  /** The final response. A report field is `None` when the state holds none. */
  datatype ChatResponse = ChatResponse(
    threadId: string,
    query: string,
    executiveSummary: Option<string>,
    report: Option<string>,
    keyTakeaways: seq<string>,
    limitations: Option<string>,
    citations: seq<Citation>,
    metadata: Metadata)

  /** The citations with every url kept once, at its first occurrence, in order. */
  function UniqueByUrl(cs: seq<Citation>): seq<Citation>
  {
    if |cs| == 0 then []
    else
      var front := cs[..|cs| - 1];
      if cs[|cs| - 1].url in Researcher.UrlsOf(front) then UniqueByUrl(front)
      else UniqueByUrl(front) + [cs[|cs| - 1]]
  }

  /** `_build_response`; `timestamp` is the completion time the clock gives. */
  function Respond(s: ResearchState, threadId: string, timestamp: string): ChatResponse
  {
    ChatResponse(threadId, s.query, s.executiveSummary, s.finalReport, s.keyTakeaways, s.limitations,
                 UniqueByUrl(s.citations),
                 Metadata(if s.plan.Some? then |s.plan.value.subQuestions| else 0, s.sourcesAnalyzed, timestamp))
  }

  method BuildResponse(state: ResearchState, threadId: string, timestamp: string) returns (response: ChatResponse)
    ensures response == Respond(state, threadId, timestamp)
  {
    var seenUrls: set<string> := {};
    var uniqueCitations: seq<Citation> := [];
    var cs := state.citations;
    var i := 0;
    while i < |cs|
      invariant 0 <= i <= |cs|
      invariant uniqueCitations == UniqueByUrl(cs[..i])
      invariant seenUrls == Researcher.UrlsOf(cs[..i])
    {
      var citation := cs[i];
      assert cs[..i + 1][..i] == cs[..i];
      assert cs[..i + 1] == cs[..i] + [citation];
      Researcher.UrlsOfSnoc(cs[..i], citation);
      if citation.url !in seenUrls {
        seenUrls := seenUrls + {citation.url};
        uniqueCitations := uniqueCitations + [citation];
      }
      i := i + 1;
    }
    assert cs[..i] == cs;
    var subQuestionCount := 0;
    if state.plan.Some? {
      subQuestionCount := |state.plan.value.subQuestions|;
    }
    var metadata := Metadata(subQuestionCount, state.sourcesAnalyzed, timestamp);
    response := ChatResponse(threadId, state.query, state.executiveSummary, state.finalReport,
                             state.keyTakeaways, state.limitations, uniqueCitations, metadata);
  }

  /** `c` is in `cs`, and no earlier citation of `cs` has its url. */
  predicate FirstWithUrl(cs: seq<Citation>, c: Citation)
  {
    exists i :: 0 <= i < |cs| && cs[i] == c && forall j :: 0 <= j < i ==> cs[j].url != c.url
  }

  /** No url is lost: the kept citations cover exactly the urls of the input. */
  lemma {:induction false} UniqueByUrlUrls(cs: seq<Citation>)
    ensures Researcher.UrlsOf(UniqueByUrl(cs)) == Researcher.UrlsOf(cs)
  {
    if |cs| > 0 {
      var front := cs[..|cs| - 1];
      var c := cs[|cs| - 1];
      UniqueByUrlUrls(front);
      assert cs == front + [c];
      Researcher.UrlsOfSnoc(front, c);
      Researcher.UrlsOfSnoc(UniqueByUrl(front), c);
    }
  }

  /** No url is kept twice. */
  lemma {:induction false} UniqueByUrlDistinct(cs: seq<Citation>)
    ensures Researcher.DistinctUrls(UniqueByUrl(cs))
  {
    if |cs| > 0 {
      var front := cs[..|cs| - 1];
      var c := cs[|cs| - 1];
      UniqueByUrlDistinct(front);
      UniqueByUrlUrls(front);
      var r := UniqueByUrl(front);
      if c.url !in Researcher.UrlsOf(front) {
        forall k | 0 <= k < |r| ensures r[k].url != c.url {
          assert r[k].url in Researcher.UrlsOf(r);
        }
      }
    }
  }

  /** Each kept citation is the first one in the input with its url. */
  lemma {:induction false} UniqueByUrlFirstAt(cs: seq<Citation>, k: nat)
    requires k < |UniqueByUrl(cs)|
    ensures FirstWithUrl(cs, UniqueByUrl(cs)[k])
  {
    var front := cs[..|cs| - 1];
    var c := cs[|cs| - 1];
    var r := UniqueByUrl(front);
    if k < |r| {
      UniqueByUrlFirstAt(front, k);
      assert UniqueByUrl(cs)[k] == r[k];
      var i :| 0 <= i < |front| && front[i] == r[k] && forall j :: 0 <= j < i ==> front[j].url != r[k].url;
      assert cs[i] == front[i];
      assert forall j :: 0 <= j < i ==> cs[j] == front[j];
    } else {
      assert UniqueByUrl(cs)[k] == c;
      assert c.url !in Researcher.UrlsOf(front);
      forall j | 0 <= j < |front| ensures cs[j].url != c.url {
        assert cs[j] == front[j];
        assert front[j].url in Researcher.UrlsOf(front);
      }
    }
  }

  lemma UniqueByUrlFirst(cs: seq<Citation>)
    ensures forall k :: 0 <= k < |UniqueByUrl(cs)| ==> FirstWithUrl(cs, UniqueByUrl(cs)[k])
  {
    forall k | 0 <= k < |UniqueByUrl(cs)| ensures FirstWithUrl(cs, UniqueByUrl(cs)[k]) {
      UniqueByUrlFirstAt(cs, k);
    }
  }

  /** Order is kept: what is kept from a prefix of the input leads what is kept from all of it. */
  lemma {:induction false} UniqueByUrlPrefix(cs: seq<Citation>, m: nat)
    requires m <= |cs|
    ensures UniqueByUrl(cs[..m]) <= UniqueByUrl(cs)
    decreases |cs| - m
  {
    if m < |cs| {
      var front := cs[..|cs| - 1];
      UniqueByUrlPrefix(front, m);
      assert front[..m] == cs[..m];
    } else {
      assert cs[..m] == cs;
    }
  }

  /** A list already free of duplicate urls passes through unchanged. */
  lemma {:induction false} UniqueByUrlIdentity(cs: seq<Citation>)
    requires Researcher.DistinctUrls(cs)
    ensures UniqueByUrl(cs) == cs
  {
    if |cs| > 0 {
      var front := cs[..|cs| - 1];
      var c := cs[|cs| - 1];
      assert Researcher.DistinctUrls(front);
      UniqueByUrlIdentity(front);
      forall j | 0 <= j < |front| ensures front[j].url != c.url {
        assert front[j] == cs[j];
      }
      assert c.url !in Researcher.UrlsOf(front);
      assert front + [c] == cs;
    }
  }

  /** De-duplicating twice is de-duplicating once. */
  lemma UniqueByUrlIdempotent(cs: seq<Citation>)
    ensures UniqueByUrl(UniqueByUrl(cs)) == UniqueByUrl(cs)
  {
    UniqueByUrlDistinct(cs);
    UniqueByUrlIdentity(UniqueByUrl(cs));
  }

  /** The response: the state's fields, its citations de-duplicated, and its counts. */
  lemma RespondFields(s: ResearchState, threadId: string, timestamp: string)
    ensures var r := Respond(s, threadId, timestamp);
            && r.threadId == threadId && r.query == s.query && r.report == s.finalReport
            && Researcher.DistinctUrls(r.citations)
            && Researcher.UrlsOf(r.citations) == Researcher.UrlsOf(s.citations)
            && (s.plan.None? ==> r.metadata.subQuestionCount == 0)
            && (s.plan.Some? ==> r.metadata.subQuestionCount == |s.plan.value.subQuestions|)
            && r.metadata.sourcesAnalyzed == s.sourcesAnalyzed
  {
    UniqueByUrlDistinct(s.citations);
    UniqueByUrlUrls(s.citations);
  }

  // ---------------------------------------------------------------------------
  // `_chunk_text`

  function Min(a: int, b: int): int { if a <= b then a else b }

  /** The text cut into consecutive pieces of `size` characters, the last one shorter. */
  function Chunks(text: string, size: nat): seq<string>
    requires size > 0
    decreases |text|
  {
    if |text| == 0 then []
    else [text[..Min(size, |text|)]] + Chunks(text[Min(size, |text|)..], size)
  }

  method ChunkText(text: string, size: nat) returns (chunks: seq<string>)
    requires size > 0
    ensures chunks == Chunks(text, size)
  {
    if |text| == 0 {
      return [];
    }
    chunks := [];
    var i := 0;
    while i < |text|
      invariant 0 <= i <= |text|
      invariant chunks + Chunks(text[i..], size) == Chunks(text, size)
      decreases |text| - i
    {
      var end := Min(i + size, |text|);
      var rest := text[i..];
      assert rest[..Min(size, |rest|)] == text[i..end];
      assert rest[Min(size, |rest|)..] == text[end..];
      chunks := chunks + [text[i..end]];
      i := end;
    }
    assert text[i..] == [];
  }

  /** Joining the chunks gives back the text. */
  lemma {:induction false} ChunksConcat(text: string, size: nat)
    requires size > 0
    ensures Flatten(Chunks(text, size)) == text
    decreases |text|
  {
    if |text| > 0 {
      var m := Min(size, |text|);
      ChunksConcat(text[m..], size);
      FlattenCons(text[..m], Chunks(text[m..], size));
      assert text[..m] + text[m..] == text;
    }
  }

  /** Every chunk is non-empty and at most `size` long; all but the last are exactly `size`. */
  lemma {:induction false} ChunksSizes(text: string, size: nat)
    requires size > 0
    ensures forall k :: 0 <= k < |Chunks(text, size)| ==> 0 < |Chunks(text, size)[k]| <= size
    ensures forall k :: 0 <= k < |Chunks(text, size)| - 1 ==> |Chunks(text, size)[k]| == size
    decreases |text|
  {
    if |text| > 0 {
      var m := Min(size, |text|);
      ChunksSizes(text[m..], size);
      var cs := Chunks(text, size);
      var rest := Chunks(text[m..], size);
      assert cs == [text[..m]] + rest;
      forall k | 0 <= k < |cs| ensures 0 < |cs[k]| <= size && (k < |cs| - 1 ==> |cs[k]| == size) {
        if k > 0 {
          assert cs[k] == rest[k - 1];
        } else if |rest| > 0 {
          assert |text[m..]| > 0;
        }
      }
    }
  }

  /** The number of chunks is the length divided by `size`, rounded up. */
  lemma {:induction false} ChunksCount(text: string, size: nat)
    requires size > 0
    ensures var n := |Chunks(text, size)|;
            (n - 1) * size < |text| <= n * size
    ensures |Chunks(text, size)| == 0 <==> |text| == 0
    decreases |text|
  {
    if |text| > 0 {
      var m := Min(size, |text|);
      ChunksCount(text[m..], size);
      var n := |Chunks(text[m..], size)|;
      assert (n + 1) * size == n * size + size;
      assert n * size == (n - 1) * size + size;
    }
  }

  // ---------------------------------------------------------------------------
  // `_format_sse_event`

  /** One event in the wire format: the type line, the data line, a blank line. */
  function FormatSseEvent(kind: string, data: string): string
  {
    "event: " + kind + "\ndata: " + data + "\n\n"
  }

  /** The first position at or after `from` holding a newline, or the length. */
  function NewlineFrom(s: string, from: nat): (r: nat)
    requires from <= |s|
    ensures from <= r <= |s|
    ensures forall j :: from <= j < r ==> s[j] != '\n'
    ensures r < |s| ==> s[r] == '\n'
    decreases |s| - from
  {
    if from == |s| then |s| else if s[from] == '\n' then from else NewlineFrom(s, from + 1)
  }

  /** How a client reads one event back: its type and its data. */
  function ParseSseEvent(frame: string): Option<(string, string)>
  {
    if |frame| < 7 || frame[..7] != "event: " then None
    else
      var p := NewlineFrom(frame, 7);
      if p + 9 <= |frame| && frame[p..p + 7] == "\ndata: " && frame[|frame| - 2..] == "\n\n"
      then Some((frame[7..p], frame[p + 7..|frame| - 2]))
      else None
  }

  /** An event whose type has no newline is read back as it was written, whatever its data. */
  lemma SseRoundTrip(kind: string, data: string)
    requires '\n' !in kind
    ensures ParseSseEvent(FormatSseEvent(kind, data)) == Some((kind, data))
  {
    var f := FormatSseEvent(kind, data);
    var p := 7 + |kind|;
    assert f[..7] == "event: ";
    assert f[7..p] == kind;
    assert f[p] == '\n';
    forall j | 7 <= j < p ensures f[j] != '\n' {
      assert f[j] == kind[j - 7];
    }
    assert NewlineFrom(f, 7) == p;
    assert f[p..p + 7] == "\ndata: ";
    assert f[p + 7..|f| - 2] == data;
    assert f[|f| - 2..] == "\n\n";
  }

  /** Whatever a client reads back is the one event that was written. */
  lemma SseParseFormats(frame: string)
    requires ParseSseEvent(frame).Some?
    ensures var (kind, data) := ParseSseEvent(frame).value;
            '\n' !in kind && FormatSseEvent(kind, data) == frame
  {
    var p := NewlineFrom(frame, 7);
    var kind := frame[7..p];
    forall j | 0 <= j < |kind| ensures kind[j] != '\n' {
      assert kind[j] == frame[7 + j];
    }
    assert frame == frame[..7] + frame[7..p] + frame[p..p + 7] + frame[p + 7..|frame| - 2] + frame[|frame| - 2..];
  }

  // ---------------------------------------------------------------------------
  // `stream_research`

  const ChunkSize: nat := 500
  const PlanningStatus := "Analyzing query and creating research plan..."
  const WritingStatus := "Generating final report..."
  const FailureDetail := "Research workflow failed"

  /** The JSON object each event carries. */
  datatype Payload =
    | ThreadIdData(threadId: string)
    | StatusData(status: string)
    | ContentData(content: string)
    | ResponseData(response: ChatResponse)
    | ErrorData(error: string, detail: string, threadId: string)

  datatype Event = Event(kind: string, payload: Payload)

  /** The wire form of an event, given the JSON encoder. */
  function Frame(e: Event, encode: Payload -> string): string
  {
    FormatSseEvent(e.kind, encode(e.payload))
  }

  /** Running the graph on the initial state: the final state, or what raised. */
  type Executor = ResearchState -> Outcome<ResearchState>

  function ErrorEvent(message: string, threadId: string): Event
  {
    Event("error", ErrorData(message, FailureDetail, threadId))
  }

  function MessageEvents(chunks: seq<string>): (r: seq<Event>)
    ensures |r| == |chunks|
    ensures forall i :: 0 <= i < |chunks| ==> r[i] == Event("message", ContentData(chunks[i]))
  {
    seq(|chunks|, i requires 0 <= i < |chunks| => Event("message", ContentData(chunks[i])))
  }

  /** The events of one request. `graphFault` is what building the graph raised, if
      anything; the events yielded before an exception stay sent. */
  function StreamEvents(query: string, threadId: string, graphFault: Option<string>, execute: Executor,
                        timestamp: string): seq<Event>
  {
    var started := [Event("thread_id", ThreadIdData(threadId))];
    if graphFault.Some? then started + [ErrorEvent(graphFault.value, threadId)]
    else
      var planning := started + [Event("planning", StatusData(PlanningStatus))];
      match execute(Initial(query, threadId))
      case Fault(message) => planning + [ErrorEvent(message, threadId)]
      case Ok(final) =>
        var response := Respond(final, threadId, timestamp);
        planning + [Event("writing", StatusData(WritingStatus))]
        + MessageEvents(Chunks(response.report.GetOr(""), ChunkSize))
        + [Event("done", ResponseData(response))]
  }

  method StreamResearch(query: string, threadId: string, graphFault: Option<string>, execute: Executor,
                        timestamp: string) returns (events: seq<Event>)
    ensures events == StreamEvents(query, threadId, graphFault, execute, timestamp)
  {
    events := [Event("thread_id", ThreadIdData(threadId))];
    if graphFault.Some? {
      events := events + [ErrorEvent(graphFault.value, threadId)];
      return;
    }
    events := events + [Event("planning", StatusData(PlanningStatus))];
    var outcome := execute(Initial(query, threadId));
    if outcome.Fault? {
      events := events + [ErrorEvent(outcome.message, threadId)];
      return;
    }
    var response := BuildResponse(outcome.value, threadId, timestamp);
    events := events + [Event("writing", StatusData(WritingStatus))];
    var reportChunks := ChunkText(response.report.GetOr(""), ChunkSize);
    ghost var head := events;
    var i := 0;
    while i < |reportChunks|
      invariant 0 <= i <= |reportChunks|
      invariant events == head + MessageEvents(reportChunks[..i])
    {
      assert MessageEvents(reportChunks[..i + 1]) == MessageEvents(reportChunks[..i]) + [Event("message", ContentData(reportChunks[i]))];
      events := events + [Event("message", ContentData(reportChunks[i]))];
      i := i + 1;
    }
    assert reportChunks[..i] == reportChunks;
    events := events + [Event("done", ResponseData(response))];
  }

  predicate Terminal(e: Event)
  {
    e.kind == "done" || e.kind == "error"
  }

  /** Every request opens with its thread id and ends with exactly one terminal
      event, `done` exactly when nothing raised; an error names the thread. */
  lemma StreamFraming(query: string, threadId: string, graphFault: Option<string>, execute: Executor,
                      timestamp: string)
    ensures var es := StreamEvents(query, threadId, graphFault, execute, timestamp);
            && |es| >= 2
            && es[0] == Event("thread_id", ThreadIdData(threadId))
            && Terminal(es[|es| - 1])
            && (forall i :: 0 <= i < |es| - 1 ==> !Terminal(es[i]))
            && (es[|es| - 1].kind == "done" <==> graphFault.None? && execute(Initial(query, threadId)).Ok?)
            && (es[|es| - 1].kind == "error" ==> es[|es| - 1].payload.threadId == threadId)
  {
  }

  /** The events of a request whose run succeeded, in order. */
  lemma StreamOnSuccess(query: string, threadId: string, execute: Executor, timestamp: string)
    requires execute(Initial(query, threadId)).Ok?
    ensures var response := Respond(execute(Initial(query, threadId)).value, threadId, timestamp);
            StreamEvents(query, threadId, None, execute, timestamp)
            == [Event("thread_id", ThreadIdData(threadId)), Event("planning", StatusData(PlanningStatus)),
                Event("writing", StatusData(WritingStatus))]
               + MessageEvents(Chunks(response.report.GetOr(""), ChunkSize))
               + [Event("done", ResponseData(response))]
  {
  }

  /** What a client reads from the `message` events, in order. */
  function MessageContents(es: seq<Event>): seq<string>
  {
    if |es| == 0 then []
    else
      var e := es[|es| - 1];
      MessageContents(es[..|es| - 1]) + (if e.kind == "message" && e.payload.ContentData? then [e.payload.content] else [])
  }

  lemma {:induction false} MessageContentsAppend(a: seq<Event>, b: seq<Event>)
    ensures MessageContents(a + b) == MessageContents(a) + MessageContents(b)
    decreases |b|
  {
    if |b| == 0 {
      assert a + b == a;
    } else {
      assert (a + b)[..|a + b| - 1] == a + b[..|b| - 1];
      MessageContentsAppend(a, b[..|b| - 1]);
    }
  }

  lemma {:induction false} NoMessages(es: seq<Event>)
    requires forall i :: 0 <= i < |es| ==> es[i].kind != "message"
    ensures MessageContents(es) == []
  {
    if |es| > 0 {
      NoMessages(es[..|es| - 1]);
    }
  }

  lemma {:induction false} MessageContentsOfChunks(cs: seq<string>)
    ensures MessageContents(MessageEvents(cs)) == cs
  {
    if |cs| > 0 {
      var n := |cs| - 1;
      assert MessageEvents(cs)[..n] == MessageEvents(cs[..n]);
      MessageContentsOfChunks(cs[..n]);
      assert cs[..n] + [cs[n]] == cs;
    }
  }

  /** On success the message events, in order, carry the report cut into chunks of
      500 characters, so that a client joining them gets the report back; the final
      event carries the response built from the final state. */
  lemma StreamCarriesReport(query: string, threadId: string, execute: Executor, timestamp: string)
    requires execute(Initial(query, threadId)).Ok?
    ensures var es := StreamEvents(query, threadId, None, execute, timestamp);
            var response := Respond(execute(Initial(query, threadId)).value, threadId, timestamp);
            var text := response.report.GetOr("");
            && MessageContents(es) == Chunks(text, ChunkSize)
            && Flatten(MessageContents(es)) == text
            && |es| == 4 + |Chunks(text, ChunkSize)|
            && es[|es| - 1] == Event("done", ResponseData(response))
  {
    var response := Respond(execute(Initial(query, threadId)).value, threadId, timestamp);
    var text := response.report.GetOr("");
    StreamOnSuccess(query, threadId, execute, timestamp);
    ContentsBetween([Event("thread_id", ThreadIdData(threadId)), Event("planning", StatusData(PlanningStatus)),
                     Event("writing", StatusData(WritingStatus))],
                    Chunks(text, ChunkSize), [Event("done", ResponseData(response))]);
    ChunksConcat(text, ChunkSize);
  }

  /** Message events framed by events of other kinds carry exactly their chunks. */
  lemma ContentsBetween(head: seq<Event>, cs: seq<string>, tail: seq<Event>)
    requires forall i :: 0 <= i < |head| ==> head[i].kind != "message"
    requires forall i :: 0 <= i < |tail| ==> tail[i].kind != "message"
    ensures MessageContents(head + MessageEvents(cs) + tail) == cs
  {
    var ms := MessageEvents(cs);
    NoMessages(head);
    NoMessages(tail);
    calc {
      MessageContents(head + ms + tail);
      { MessageContentsAppend(head + ms, tail); }
      MessageContents(head + ms) + MessageContents(tail);
      MessageContents(head + ms);
      { MessageContentsAppend(head, ms); }
      MessageContents(head) + MessageContents(ms);
      MessageContents(ms);
      { MessageContentsOfChunks(cs); }
      cs;
    }
  }

  /** Every event the service sends reads back, on the client, as its type and its encoded data. */
  lemma StreamFramesParse(query: string, threadId: string, graphFault: Option<string>, execute: Executor,
                          timestamp: string, encode: Payload -> string)
    ensures var es := StreamEvents(query, threadId, graphFault, execute, timestamp);
            forall i :: 0 <= i < |es| ==> ParseSseEvent(Frame(es[i], encode)) == Some((es[i].kind, encode(es[i].payload)))
  {
    var es := StreamEvents(query, threadId, graphFault, execute, timestamp);
    forall i | 0 <= i < |es| ensures ParseSseEvent(Frame(es[i], encode)) == Some((es[i].kind, encode(es[i].payload))) {
      assert es[i].kind in {"thread_id", "planning", "writing", "message", "done", "error"};
      SseRoundTrip(es[i].kind, encode(es[i].payload));
    }
  }

  // ---------------------------------------------------------------------------
  // The service running the research graph

  /** The graph's invocation as the service sees it: it never raises once built. */
  function GraphExecutor(c: Workflow.Collaborators): Executor
  {
    s => Ok(Workflow.Invoke(Workflow.CreateResearchGraph(), s, c))
  }

  /** A request served by the research graph ends in `done`, with the run's report,
      the run's citations unchanged (they are already one per url), one sub-question
      count per plan entry, and the raw result count. */
  lemma StreamOfResearchRun(query: string, threadId: string, c: Workflow.Collaborators, timestamp: string)
    ensures var es := StreamEvents(query, threadId, None, GraphExecutor(c), timestamp);
            var run := Workflow.RunResearch(query, threadId, c);
            var plan := Workflow.PlanUpdate(query, c).plan.value;
            && es[|es| - 1].kind == "done"
            && var response := es[|es| - 1].payload.response;
               && response.report == run.finalReport && response.report.Some?
               && response.citations == run.citations
               && response.metadata.subQuestionCount == |plan.subQuestions|
               && response.metadata.sourcesAnalyzed
                  == Researcher.RawCount(Researcher.SortByPriority(plan.subQuestions), c.search)
  {
    var run := Workflow.RunResearch(query, threadId, c);
    assert GraphExecutor(c)(Initial(query, threadId)) == Ok(run);
    Workflow.RunPlan(query, threadId, c);
    Workflow.RunReport(query, threadId, c);
    Workflow.RunCitations(query, threadId, c);
    Workflow.RunSourcesAnalyzed(query, threadId, c);
    UniqueByUrlIdentity(run.citations);
  }
}
