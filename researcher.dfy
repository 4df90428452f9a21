/** The research stage. Sub-questions are taken in ascending priority (a
    stable sort, so ties keep plan order); each issues its first three search
    queries with three results asked per query, drops results whose url is
    empty or was already seen anywhere in the run, has the model synthesize
    findings from the rest, and yields exactly one note, a placeholder one when
    a search raised. The collaborators (search and synthesis model) are
    parameters that return a value or fail. */
module Researcher {
  import opened Models
  import opened Text
  import opened State

  type Searcher = (string, int) -> Outcome<seq<SearchResult>>

  /** What the synthesis model answers, parsed: each key may be missing. */
  datatype Analysis = Analysis(evidenceBullets: Option<seq<string>>, openQuestions: Option<seq<string>>)

  /** The synthesis model, given the sub-question and the formatted results. */
  type Synthesizer = (string, string) -> Outcome<Analysis>

  const QueriesPerSubQuestion: nat := 3
  const ResultsPerQuery: nat := 3
  const ResultsShownToModel: nat := 10
  const ExcerptedResults: nat := 6
  const ExcerptLength: nat := 200

  const NoPlanMessage := "No research plan available"
  const NoResultsFindings := ["No search results available for this question"]
  const NoResultsQuestions := ["Unable to find relevant information"]
  const UnsynthesizedQuestions := ["Unable to fully synthesize findings"]

  // ---------------------------------------------------------------------------
  // Processing order: Python's `sorted(..., key=priority)`, a stable sort

  function Insert(x: SubQuestion, s: seq<SubQuestion>): (r: seq<SubQuestion>)
    ensures |r| == |s| + 1
  {
    if |s| == 0 || x.priority <= s[0].priority then [x] + s else [s[0]] + Insert(x, s[1..])
  }

  function SortByPriority(qs: seq<SubQuestion>): (r: seq<SubQuestion>)
    ensures |r| == |qs|
  {
    if |qs| == 0 then [] else Insert(qs[0], SortByPriority(qs[1..]))
  }

  predicate SortedByPriority(s: seq<SubQuestion>)
  {
    forall i, j :: 0 <= i < j < |s| ==> s[i].priority <= s[j].priority
  }

  /** The sub-questions of one priority, in the order they occur. */
  function WithPriority(s: seq<SubQuestion>, p: int): seq<SubQuestion>
  {
    if |s| == 0 then [] else (if s[0].priority == p then [s[0]] else []) + WithPriority(s[1..], p)
  }

  lemma {:induction false} WithPriorityAppend(a: seq<SubQuestion>, b: seq<SubQuestion>, p: int)
    ensures WithPriority(a + b, p) == WithPriority(a, p) + WithPriority(b, p)
  {
    if |a| > 0 {
      assert (a + b)[1..] == a[1..] + b;
      WithPriorityAppend(a[1..], b, p);
    } else {
      assert a + b == b;
    }
  }

  lemma {:induction false} InsertElements(x: SubQuestion, s: seq<SubQuestion>)
    ensures multiset(Insert(x, s)) == multiset(s) + multiset{x}
    ensures forall y :: y in Insert(x, s) <==> y == x || y in s
  {
    if |s| > 0 && x.priority > s[0].priority {
      InsertElements(x, s[1..]);
      assert s == [s[0]] + s[1..];
    }
  }

  lemma {:induction false} InsertSorted(x: SubQuestion, s: seq<SubQuestion>)
    requires SortedByPriority(s)
    ensures SortedByPriority(Insert(x, s))
  {
    if |s| > 0 && x.priority > s[0].priority {
      var t := s[1..];
      assert SortedByPriority(t);
      InsertSorted(x, t);
      InsertElements(x, t);
      var r := Insert(x, s);
      assert r == [s[0]] + Insert(x, t);
      forall i, j | 0 <= i < j < |r| ensures r[i].priority <= r[j].priority {
        if i == 0 {
          assert r[j] in Insert(x, t);
          assert r[j] == x || r[j] in t;
          if r[j] != x {
            var k :| 0 <= k < |t| && t[k] == r[j];
            assert s[k + 1] == r[j];
          }
        } else {
          assert r[i] == Insert(x, t)[i - 1];
          assert r[j] == Insert(x, t)[j - 1];
        }
      }
    }
  }

  lemma {:induction false} InsertWithPriority(x: SubQuestion, s: seq<SubQuestion>, p: int)
    ensures WithPriority(Insert(x, s), p) == (if x.priority == p then [x] else []) + WithPriority(s, p)
  {
    var r := Insert(x, s);
    if |s| == 0 || x.priority <= s[0].priority {
      assert r[0] == x && r[1..] == s;
    } else {
      var t := Insert(x, s[1..]);
      InsertWithPriority(x, s[1..], p);
      assert r[0] == s[0] && r[1..] == t;
      assert WithPriority(r, p) == (if s[0].priority == p then [s[0]] else []) + WithPriority(t, p);
      assert WithPriority(s, p) == (if s[0].priority == p then [s[0]] else []) + WithPriority(s[1..], p);
      // the two heads cannot both have priority p, so at most one of them is kept
      if s[0].priority == p {
        assert x.priority != p;
      }
    }
  }

  /** The processing order is sorted by priority, is a permutation of the plan,
      and keeps plan order among sub-questions of equal priority. */
  lemma {:induction false} SortByPriorityCorrect(qs: seq<SubQuestion>)
    ensures SortedByPriority(SortByPriority(qs))
    ensures multiset(SortByPriority(qs)) == multiset(qs)
    ensures forall p :: WithPriority(SortByPriority(qs), p) == WithPriority(qs, p)
  {
    if |qs| > 0 {
      SortByPriorityCorrect(qs[1..]);
      InsertSorted(qs[0], SortByPriority(qs[1..]));
      InsertElements(qs[0], SortByPriority(qs[1..]));
      assert qs == [qs[0]] + qs[1..];
      forall p ensures WithPriority(SortByPriority(qs), p) == WithPriority(qs, p) {
        InsertWithPriority(qs[0], SortByPriority(qs[1..]), p);
        assert WithPriority(qs, p) == (if qs[0].priority == p then [qs[0]] else []) + WithPriority(qs[1..], p);
      }
    }
  }

  // ---------------------------------------------------------------------------
  // Synthesis of findings (`_synthesize_findings`)

  function FormatResult(r: SearchResult): string
  {
    "Source: " + r.title + "\nURL: " + r.url + "\nContent: " + r.content
  }

  /** The text given to the model: at most the first ten results. */
  function ResultsText(results: seq<SearchResult>): string
  {
    var shown := Take(results, ResultsShownToModel);
    Join(seq(|shown|, i requires 0 <= i < |shown| => FormatResult(shown[i])), "\n\n")
  }

  function Excerpt(content: string): string
  {
    Take(content, ExcerptLength) + "..."
  }

  /** Findings and open questions for one sub-question, from its unique results. */
  function Synthesize(question: string, results: seq<SearchResult>, synth: Synthesizer)
    : (r: (seq<string>, seq<string>))
    // no results: fixed answer, the model is not asked
    ensures |results| == 0 ==> r == (NoResultsFindings, NoResultsQuestions)
    // the model answered: its lists, a missing key read as empty
    ensures |results| > 0 && synth(question, ResultsText(results)).Ok? ==>
              var a := synth(question, ResultsText(results)).value;
              r == (a.evidenceBullets.GetOr([]), a.openQuestions.GetOr([]))
    // the model failed: an excerpt of each of the first (at most) six results
    ensures |results| > 0 && synth(question, ResultsText(results)).Fault? ==>
              && |r.0| == (if |results| < ExcerptedResults then |results| else ExcerptedResults)
              && (forall i :: 0 <= i < |r.0| ==> r.0[i] == Take(results[i].content, ExcerptLength) + "...")
              && r.1 == UnsynthesizedQuestions
  {
    if |results| == 0 then (NoResultsFindings, NoResultsQuestions)
    else match synth(question, ResultsText(results))
      case Ok(a) => (a.evidenceBullets.GetOr([]), a.openQuestions.GetOr([]))
      case Fault(_) =>
        var excerpted := Take(results, ExcerptedResults);
        (seq(|excerpted|, i requires 0 <= i < |excerpted| => Excerpt(excerpted[i].content)), UnsynthesizedQuestions)
  }

  /** Results past the tenth are never seen: neither by the model nor by the fallback. */
  lemma SynthesizeSeesFirstTen(question: string, rs1: seq<SearchResult>, rs2: seq<SearchResult>, synth: Synthesizer)
    requires |rs1| > 0 && |rs2| > 0
    requires Take(rs1, ResultsShownToModel) == Take(rs2, ResultsShownToModel)
    ensures Synthesize(question, rs1, synth) == Synthesize(question, rs2, synth)
  {
    assert ResultsText(rs1) == ResultsText(rs2);
    assert Take(rs1, ExcerptedResults) == Take(Take(rs1, ResultsShownToModel), ExcerptedResults);
    assert Take(rs2, ExcerptedResults) == Take(Take(rs2, ResultsShownToModel), ExcerptedResults);
  }

  // ---------------------------------------------------------------------------
  // Specification of the research loop, one sub-question at a time

  /** Results gathered for one sub-question's queries, in order, and the message
      of the search that raised, if one did (later queries are then not issued). */
  datatype Gathered = Gathered(results: seq<SearchResult>, fault: Option<string>)

  function Gather(queries: seq<string>, search: Searcher): Gathered
  {
    if |queries| == 0 then Gathered([], None)
    else
      var g := Gather(queries[..|queries| - 1], search);
      if g.fault.Some? then g
      else match search(queries[|queries| - 1], ResultsPerQuery)
        case Fault(m) => Gathered(g.results, Some(m))
        case Ok(rs) => Gathered(g.results + rs, None)
  }

  /** Once a search has raised, the remaining queries change nothing. */
  lemma {:induction false} GatherStopsAtFault(queries: seq<string>, j: nat, search: Searcher)
    requires j <= |queries|
    requires Gather(queries[..j], search).fault.Some?
    ensures Gather(queries, search) == Gather(queries[..j], search)
    decreases |queries| - j
  {
    if j < |queries| {
      assert queries[..j + 1][..j] == queries[..j];
      GatherStopsAtFault(queries, j + 1, search);
    } else {
      assert queries[..j] == queries;
    }
  }

  /** Results with a new, non-empty url, their citations, and the grown seen set. */
  datatype Deduped = Deduped(unique: seq<SearchResult>, citations: seq<Citation>, seen: set<string>)

  function DedupResults(results: seq<SearchResult>, seen: set<string>): Deduped
  {
    if |results| == 0 then Deduped([], [], seen)
    else
      var d := DedupResults(results[..|results| - 1], seen);
      var r := results[|results| - 1];
      if r.url != "" && r.url !in d.seen
      then Deduped(d.unique + [r], d.citations + [Citation(r.title, r.url)], d.seen + {r.url})
      else d
  }

  /** The state the loop carries from one sub-question to the next. */
  datatype Progress = Progress(
    notes: seq<ResearchNote>,
    citations: seq<Citation>,
    seen: set<string>,
    totalSources: nat,
    errors: seq<string>)

  const Start := Progress([], [], {}, 0, [])

  function PlaceholderNote(id: string): ResearchNote
  {
    ResearchNote(id, ["Research incomplete due to error"], [], ["Unable to complete research for this question"])
  }

  function FailureMessage(question: string, message: string): string
  {
    "Research failed for sub-question '" + question + "': " + message
  }

  /** One iteration of the loop: the body of the `try`, or its `except` branch. */
  function Step(p: Progress, sq: SubQuestion, search: Searcher, synth: Synthesizer): (r: Progress)
    // exactly one note, for this sub-question, after the earlier ones
    ensures |r.notes| == |p.notes| + 1 && r.notes[..|p.notes|] == p.notes
    ensures r.notes[|p.notes|].subQuestionId == sq.id
    // the counter grows by every raw result, duplicates included
    ensures r.totalSources == p.totalSources
              + |Gather(Take(sq.searchQueries, QueriesPerSubQuestion), search).results|
    // a search raised: placeholder note, one error naming the question, no citation, nothing seen
    ensures var g := Gather(Take(sq.searchQueries, QueriesPerSubQuestion), search);
            g.fault.Some? ==>
              && r.notes[|p.notes|] == PlaceholderNote(sq.id)
              && r.errors == p.errors + [FailureMessage(sq.question, g.fault.value)]
              && r.citations == p.citations && r.seen == p.seen
    // otherwise: the note's sources are exactly the citations this step adds
    ensures Gather(Take(sq.searchQueries, QueriesPerSubQuestion), search).fault.None? ==>
              && r.errors == p.errors
              && r.citations == p.citations + r.notes[|p.notes|].sources
    // and the note synthesises only the results whose url is new to the run
    ensures var g := Gather(Take(sq.searchQueries, QueriesPerSubQuestion), search);
            var d := DedupResults(g.results, p.seen);
            var a := Synthesize(sq.question, d.unique, synth);
            g.fault.None? ==>
              && r.notes[|p.notes|] == ResearchNote(sq.id, a.0, d.citations, a.1)
              && r.seen == d.seen
  {
    var g := Gather(Take(sq.searchQueries, QueriesPerSubQuestion), search);
    if g.fault.Some? then
      Progress(p.notes + [PlaceholderNote(sq.id)], p.citations, p.seen,
               p.totalSources + |g.results|, p.errors + [FailureMessage(sq.question, g.fault.value)])
    else
      var d := DedupResults(g.results, p.seen);
      var (bullets, open) := Synthesize(sq.question, d.unique, synth);
      Progress(p.notes + [ResearchNote(sq.id, bullets, d.citations, open)], p.citations + d.citations,
               d.seen, p.totalSources + |g.results|, p.errors)
  }

  /** Results whose urls are all empty or already seen leave nothing to cite. */
  lemma {:induction false} DedupAllSeen(rs: seq<SearchResult>, seen: set<string>)
    requires forall k :: 0 <= k < |rs| ==> rs[k].url == "" || rs[k].url in seen
    ensures DedupResults(rs, seen) == Deduped([], [], seen)
  {
    if |rs| > 0 {
      DedupAllSeen(rs[..|rs| - 1], seen);
    }
  }

  /** A sub-question whose searches all succeed but return only urls the run has already
      seen gets the "no search results" note and no source, although results came back. */
  lemma AllSeenGivesNoResults(p: Progress, sq: SubQuestion, search: Searcher, synth: Synthesizer)
    requires Gather(Take(sq.searchQueries, QueriesPerSubQuestion), search).fault.None?
    requires var rs := Gather(Take(sq.searchQueries, QueriesPerSubQuestion), search).results;
             forall k :: 0 <= k < |rs| ==> rs[k].url == "" || rs[k].url in p.seen
    ensures var note := Step(p, sq, search, synth).notes[|p.notes|];
            && note.evidenceBullets == NoResultsFindings
            && note.openQuestions == NoResultsQuestions
            && note.sources == []
  {
    DedupAllSeen(Gather(Take(sq.searchQueries, QueriesPerSubQuestion), search).results, p.seen);
  }

  /** The loop over sub-questions already in processing order. */
  function ProcessAll(qs: seq<SubQuestion>, search: Searcher, synth: Synthesizer): Progress
  {
    if |qs| == 0 then Start
    else Step(ProcessAll(qs[..|qs| - 1], search, synth), qs[|qs| - 1], search, synth)
  }

  /** `ResearchAgent.research` as a function of the plan and the collaborators. */
  function ResearchSpec(plan: Option<ResearchPlan>, search: Searcher, synth: Synthesizer): (u: Update)
    // no plan: only the error, and no search is made (the result does not depend on `search`)
    ensures plan.None? ==> u == NoUpdate.(errors := Some([NoPlanMessage]))
    // a plan: the four keys the stage returns, and only those
    ensures plan.Some? ==>
              && u.researchNotes.Some? && u.citations.Some? && u.sourcesAnalyzed.Some? && u.errors.Some?
              && u.plan.None? && u.finalReport.None? && u.executiveSummary.None?
              && u.keyTakeaways.None? && u.limitations.None?
  {
    if plan.None? then NoUpdate.(errors := Some([NoPlanMessage]))
    else
      var p := ProcessAll(SortByPriority(plan.value.subQuestions), search, synth);
      NoUpdate.(researchNotes := Some(p.notes), citations := Some(p.citations),
                sourcesAnalyzed := Some(p.totalSources), errors := Some(p.errors))
  }

  // ---------------------------------------------------------------------------
  // The stage as the source runs it: loops over mutable locals

  /** The inner search loop: issue each query in turn, stopping at the first that raises. */
  method SearchQueries(queries: seq<string>, search: Searcher) returns (allResults: seq<SearchResult>, fault: Option<string>)
    ensures Gathered(allResults, fault) == Gather(queries, search)
  {
    allResults := [];
    fault := None;
    var j := 0;
    while j < |queries| && fault.None?
      invariant 0 <= j <= |queries|
      invariant Gather(queries[..j], search) == Gathered(allResults, fault)
    {
      assert queries[..j + 1][..j] == queries[..j];
      var outcome := search(queries[j], ResultsPerQuery);
      if outcome.Fault? {
        fault := Some(outcome.message);
      } else {
        allResults := allResults + outcome.value;
      }
      j := j + 1;
    }
    if fault.Some? {
      GatherStopsAtFault(queries, j, search);
    } else {
      assert queries[..j] == queries;
    }
  }

  /** The inner de-duplication loop against the run-wide set of seen urls. */
  method KeepUnseen(allResults: seq<SearchResult>, seenUrls: set<string>)
    returns (uniqueResults: seq<SearchResult>, citations: seq<Citation>, seenAfter: set<string>)
    ensures Deduped(uniqueResults, citations, seenAfter) == DedupResults(allResults, seenUrls)
  {
    uniqueResults, citations, seenAfter := [], [], seenUrls;
    var k := 0;
    while k < |allResults|
      invariant 0 <= k <= |allResults|
      invariant DedupResults(allResults[..k], seenUrls) == Deduped(uniqueResults, citations, seenAfter)
    {
      assert allResults[..k + 1][..k] == allResults[..k];
      var result := allResults[k];
      var url := result.url;
      if url != "" && url !in seenAfter {
        seenAfter := seenAfter + {url};
        uniqueResults := uniqueResults + [result];
        citations := citations + [Citation(result.title, url)];
      }
      k := k + 1;
    }
    assert allResults[..k] == allResults;
  }

  /** `ResearchAgent.research`. */
  method Research(plan: Option<ResearchPlan>, search: Searcher, synth: Synthesizer) returns (u: Update)
    ensures u == ResearchSpec(plan, search, synth)
  {
    if plan.None? {
      return NoUpdate.(errors := Some([NoPlanMessage]));
    }
    var researchNotes: seq<ResearchNote> := [];
    var allCitations: seq<Citation> := [];
    var seenUrls: set<string> := {};
    var totalSources: nat := 0;
    var errors: seq<string> := [];

    var sortedQuestions := SortByPriority(plan.value.subQuestions);
    var i := 0;
    while i < |sortedQuestions|
      invariant 0 <= i <= |sortedQuestions|
      invariant Progress(researchNotes, allCitations, seenUrls, totalSources, errors)
                == ProcessAll(sortedQuestions[..i], search, synth)
    {
      var subQ := sortedQuestions[i];
      assert sortedQuestions[..i + 1][..i] == sortedQuestions[..i];
      ghost var before := Progress(researchNotes, allCitations, seenUrls, totalSources, errors);
      assert ProcessAll(sortedQuestions[..i + 1], search, synth) == Step(before, subQ, search, synth);
      var allResults, fault := SearchQueries(Take(subQ.searchQueries, QueriesPerSubQuestion), search);
      totalSources := totalSources + |allResults|;
      if fault.Some? {
        errors := errors + [FailureMessage(subQ.question, fault.value)];
        researchNotes := researchNotes + [PlaceholderNote(subQ.id)];
      } else {
        var uniqueResults, subQCitations;
        uniqueResults, subQCitations, seenUrls := KeepUnseen(allResults, seenUrls);
        var (evidenceBullets, openQuestions) := Synthesize(subQ.question, uniqueResults, synth);
        researchNotes := researchNotes + [ResearchNote(subQ.id, evidenceBullets, subQCitations, openQuestions)];
        allCitations := allCitations + subQCitations;
      }
      i := i + 1;
    }
    assert sortedQuestions[..i] == sortedQuestions;
    return NoUpdate.(researchNotes := Some(researchNotes), citations := Some(allCitations),
                     sourcesAnalyzed := Some(totalSources), errors := Some(errors));
  }

  // ---------------------------------------------------------------------------
  // What the stage promises

  /** Every sub-question yields exactly one note, in processing order. */
  lemma {:induction false} OneNotePerSubQuestion(qs: seq<SubQuestion>, search: Searcher, synth: Synthesizer)
    ensures var p := ProcessAll(qs, search, synth);
            |p.notes| == |qs| && forall i :: 0 <= i < |qs| ==> p.notes[i].subQuestionId == qs[i].id
  {
    if |qs| > 0 {
      var n := |qs| - 1;
      var before := ProcessAll(qs[..n], search, synth);
      OneNotePerSubQuestion(qs[..n], search, synth);
      var p := Step(before, qs[n], search, synth);
      assert ProcessAll(qs, search, synth) == p;
      assert p.notes[..n] == before.notes;
      forall i | 0 <= i < n ensures p.notes[i].subQuestionId == qs[i].id {
        assert p.notes[..n][i] == p.notes[i];
        assert qs[..n][i] == qs[i];
      }
    }
  }

  /** The sources of each note, in note order. */
  function SourcesOf(notes: seq<ResearchNote>): (r: seq<seq<Citation>>)
    ensures |r| == |notes| && forall i :: 0 <= i < |notes| ==> r[i] == notes[i].sources
  {
    seq(|notes|, i requires 0 <= i < |notes| => notes[i].sources)
  }

  /** The run's citations are the notes' source lists concatenated in order. */
  lemma {:induction false} CitationsAreNoteSources(qs: seq<SubQuestion>, search: Searcher, synth: Synthesizer)
    ensures var p := ProcessAll(qs, search, synth);
            p.citations == Flatten(SourcesOf(p.notes))
  {
    if |qs| > 0 {
      var before := ProcessAll(qs[..|qs| - 1], search, synth);
      CitationsAreNoteSources(qs[..|qs| - 1], search, synth);
      var p := ProcessAll(qs, search, synth);
      assert SourcesOf(p.notes)[..|before.notes|] == SourcesOf(before.notes);
      if Gather(Take(qs[|qs| - 1].searchQueries, QueriesPerSubQuestion), search).fault.Some? {
        assert p.notes[|before.notes|].sources == [];
      }
    }
  }

  function UrlsOf(cs: seq<Citation>): set<string>
  {
    set i | 0 <= i < |cs| :: cs[i].url
  }

  lemma UrlsOfSnoc(cs: seq<Citation>, c: Citation)
    ensures UrlsOf(cs + [c]) == UrlsOf(cs) + {c.url}
  {
    var t := cs + [c];
    forall u | u in UrlsOf(t) ensures u in UrlsOf(cs) + {c.url} {
      var i :| 0 <= i < |t| && t[i].url == u;
      if i < |cs| { assert t[i] == cs[i]; }
    }
    forall u | u in UrlsOf(cs) ensures u in UrlsOf(t) {
      var i :| 0 <= i < |cs| && cs[i].url == u;
      assert t[i] == cs[i];
    }
    assert t[|cs|] == c;
  }

  function NonEmptyUrls(rs: seq<SearchResult>): set<string>
  {
    set i | 0 <= i < |rs| && rs[i].url != "" :: rs[i].url
  }

  predicate DistinctUrls(cs: seq<Citation>)
  {
    forall i, j :: 0 <= i < j < |cs| ==> cs[i].url != cs[j].url
  }

  /** `c` is the citation of the first result in `rs` that carries its url. */
  predicate FirstOccurrence(rs: seq<SearchResult>, c: Citation)
  {
    exists i :: 0 <= i < |rs| && rs[i].url == c.url && rs[i].title == c.title
                && forall j :: 0 <= j < i ==> rs[j].url != c.url
  }

  lemma NonEmptyUrlsSnoc(rs: seq<SearchResult>)
    requires |rs| > 0
    ensures var r := rs[|rs| - 1];
            NonEmptyUrls(rs) == NonEmptyUrls(rs[..|rs| - 1]) + (if r.url != "" then {r.url} else {})
  {
    var front := rs[..|rs| - 1];
    forall u | u in NonEmptyUrls(rs) ensures u in NonEmptyUrls(front) || u == rs[|rs| - 1].url {
      var i :| 0 <= i < |rs| && rs[i].url != "" && rs[i].url == u;
      if i < |front| { assert front[i] == rs[i]; }
    }
    forall u | u in NonEmptyUrls(front) ensures u in NonEmptyUrls(rs) {
      var i :| 0 <= i < |front| && front[i].url != "" && front[i].url == u;
      assert rs[i] == front[i];
    }
  }

  /** The seen set grows by exactly the non-empty urls, and the urls cited are those not seen before. */
  lemma {:induction false} DedupResultsUrls(rs: seq<SearchResult>, seen: set<string>)
    ensures var d := DedupResults(rs, seen);
            && d.seen == seen + NonEmptyUrls(rs)
            && UrlsOf(d.citations) == NonEmptyUrls(rs) - seen
  {
    if |rs| > 0 {
      var front := rs[..|rs| - 1];
      DedupResultsUrls(front, seen);
      NonEmptyUrlsSnoc(rs);
      var d0 := DedupResults(front, seen);
      var r := rs[|rs| - 1];
      if r.url != "" && r.url !in d0.seen {
        UrlsOfSnoc(d0.citations, Citation(r.title, r.url));
      }
    }
  }

  /** Each url is cited at most once, never the empty one, never one seen before. */
  lemma {:induction false} DedupResultsDistinct(rs: seq<SearchResult>, seen: set<string>)
    ensures var d := DedupResults(rs, seen);
            && DistinctUrls(d.citations)
            && (forall k :: 0 <= k < |d.citations| ==> d.citations[k].url != "" && d.citations[k].url !in seen)
            && UrlsOf(d.citations) <= d.seen
            && |d.citations| <= |rs|
  {
    if |rs| > 0 {
      var front := rs[..|rs| - 1];
      DedupResultsDistinct(front, seen);
      var d0 := DedupResults(front, seen);
      var r := rs[|rs| - 1];
      if r.url != "" && r.url !in d0.seen {
        var c := Citation(r.title, r.url);
        UrlsOfSnoc(d0.citations, c);
        forall k | 0 <= k < |d0.citations| ensures d0.citations[k].url != c.url {
          assert d0.citations[k].url in UrlsOf(d0.citations);
        }
        DedupResultsUrls(front, seen);
      }
    }
  }

  /** Each citation carries the title of the first result with its url. */
  lemma {:induction false} DedupResultsFirstAt(rs: seq<SearchResult>, seen: set<string>, k: nat)
    requires k < |DedupResults(rs, seen).citations|
    ensures FirstOccurrence(rs, DedupResults(rs, seen).citations[k])
  {
    var n := |rs| - 1;
    var front := rs[..n];
    var d0 := DedupResults(front, seen);
    var r := rs[n];
    var c := DedupResults(rs, seen).citations[k];
    if k < |d0.citations| {
      assert c == d0.citations[k];
      DedupResultsFirstAt(front, seen, k);
      var i :| 0 <= i < |front| && front[i].url == c.url && front[i].title == c.title
               && forall j :: 0 <= j < i ==> front[j].url != c.url;
      assert rs[i] == front[i];
      assert forall j :: 0 <= j < i ==> rs[j] == front[j];
    } else {
      assert c == Citation(r.title, r.url) && r.url != "" && r.url !in d0.seen;
      DedupResultsUrls(front, seen);
      forall j | 0 <= j < n ensures rs[j].url != c.url {
        assert front[j] == rs[j];
      }
      assert FirstOccurrence(rs, c);
    }
  }

  lemma DedupResultsFirst(rs: seq<SearchResult>, seen: set<string>)
    ensures var d := DedupResults(rs, seen);
            forall k :: 0 <= k < |d.citations| ==> FirstOccurrence(rs, d.citations[k])
  {
    forall k | 0 <= k < |DedupResults(rs, seen).citations| ensures FirstOccurrence(rs, DedupResults(rs, seen).citations[k]) {
      DedupResultsFirstAt(rs, seen, k);
    }
  }

  /** De-duplication against a seen set: each new non-empty url is cited once, with
      the title of its first occurrence, and the seen set grows by exactly the
      non-empty urls. */
  lemma DedupResultsCorrect(rs: seq<SearchResult>, seen: set<string>)
    ensures var d := DedupResults(rs, seen);
            && d.seen == seen + NonEmptyUrls(rs)
            && UrlsOf(d.citations) == NonEmptyUrls(rs) - seen
            && DistinctUrls(d.citations)
            && (forall k :: 0 <= k < |d.citations| ==> d.citations[k].url != "" && d.citations[k].url !in seen)
            && (forall k :: 0 <= k < |d.citations| ==> FirstOccurrence(rs, d.citations[k]))
            && |d.citations| <= |rs|
  {
    DedupResultsUrls(rs, seen);
    DedupResultsDistinct(rs, seen);
    DedupResultsFirst(rs, seen);
  }

  /** De-duplicating a concatenation is de-duplicating the parts in turn. */
  lemma {:induction false} DedupResultsAppend(a: seq<SearchResult>, b: seq<SearchResult>, seen: set<string>)
    ensures var d1 := DedupResults(a, seen);
            var d2 := DedupResults(b, d1.seen);
            DedupResults(a + b, seen) == Deduped(d1.unique + d2.unique, d1.citations + d2.citations, d2.seen)
    decreases |b|
  {
    if |b| == 0 {
      assert a + b == a;
    } else {
      assert (a + b)[..|a + b| - 1] == a + b[..|b| - 1];
      DedupResultsAppend(a, b[..|b| - 1], seen);
    }
  }

  /** The results that reached de-duplication, in processing order: those of every
      sub-question whose searches all succeeded. */
  function DedupInput(qs: seq<SubQuestion>, search: Searcher): seq<SearchResult>
  {
    if |qs| == 0 then []
    else
      var g := Gather(Take(qs[|qs| - 1].searchQueries, QueriesPerSubQuestion), search);
      DedupInput(qs[..|qs| - 1], search) + (if g.fault.None? then g.results else [])
  }

  /** The per-sub-question de-duplication against the run-wide seen set is one
      de-duplication of everything the run searched successfully. */
  lemma {:induction false} RunIsOneDedup(qs: seq<SubQuestion>, search: Searcher, synth: Synthesizer)
    ensures var p := ProcessAll(qs, search, synth);
            var d := DedupResults(DedupInput(qs, search), {});
            p.citations == d.citations && p.seen == d.seen
  {
    if |qs| > 0 {
      var front := qs[..|qs| - 1];
      RunIsOneDedup(front, search, synth);
      var g := Gather(Take(qs[|qs| - 1].searchQueries, QueriesPerSubQuestion), search);
      DedupResultsAppend(DedupInput(front, search), if g.fault.None? then g.results else [], {});
    }
  }

  /** The citations a run reports: each non-empty url that reached de-duplication
      exactly once, with the title of its first occurrence in processing order,
      and they are the notes' sources concatenated. */
  lemma ResearchCitations(plan: ResearchPlan, search: Searcher, synth: Synthesizer)
    ensures var u := ResearchSpec(Some(plan), search, synth);
            var rs := DedupInput(SortByPriority(plan.subQuestions), search);
            var cs := u.citations.value;
            && DistinctUrls(cs)
            && (forall k :: 0 <= k < |cs| ==> cs[k].url != "")
            && UrlsOf(cs) == NonEmptyUrls(rs)
            && (forall k :: 0 <= k < |cs| ==> FirstOccurrence(rs, cs[k]))
            && cs == Flatten(SourcesOf(u.researchNotes.value))
  {
    var qs := SortByPriority(plan.subQuestions);
    RunIsOneDedup(qs, search, synth);
    DedupResultsCorrect(DedupInput(qs, search), {});
    CitationsAreNoteSources(qs, search, synth);
  }

  /** Every raw result counts, duplicates and results of failed sub-questions included. */
  function RawCount(qs: seq<SubQuestion>, search: Searcher): nat
  {
    if |qs| == 0 then 0
    else RawCount(qs[..|qs| - 1], search)
         + |Gather(Take(qs[|qs| - 1].searchQueries, QueriesPerSubQuestion), search).results|
  }

  lemma {:induction false} CounterIsRawCount(qs: seq<SubQuestion>, search: Searcher, synth: Synthesizer)
    ensures ProcessAll(qs, search, synth).totalSources == RawCount(qs, search)
    ensures |DedupInput(qs, search)| <= RawCount(qs, search)
  {
    if |qs| > 0 {
      CounterIsRawCount(qs[..|qs| - 1], search, synth);
    }
  }

  /** The search collaborator returns no more results than asked for. */
  ghost predicate HonoursMaxResults(search: Searcher)
  {
    forall q, n :: n >= 0 && search(q, n).Ok? ==> |search(q, n).value| <= n
  }

  lemma {:induction false} GatherBound(queries: seq<string>, search: Searcher)
    requires HonoursMaxResults(search)
    ensures |Gather(queries, search).results| <= ResultsPerQuery * |queries|
  {
    if |queries| > 0 {
      GatherBound(queries[..|queries| - 1], search);
    }
  }

  lemma {:induction false} RawCountBound(qs: seq<SubQuestion>, search: Searcher)
    requires HonoursMaxResults(search)
    ensures RawCount(qs, search) <= QueriesPerSubQuestion * ResultsPerQuery * |qs|
  {
    if |qs| > 0 {
      RawCountBound(qs[..|qs| - 1], search);
      GatherBound(Take(qs[|qs| - 1].searchQueries, QueriesPerSubQuestion), search);
    }
  }

  /** `sources_analyzed` counts results before de-duplication: at least as many as
      the citations, and at most 9 per sub-question when search honours its limit. */
  lemma SourcesAnalyzedBounds(plan: ResearchPlan, search: Searcher, synth: Synthesizer)
    ensures var u := ResearchSpec(Some(plan), search, synth);
            && u.sourcesAnalyzed.value == RawCount(SortByPriority(plan.subQuestions), search)
            && |u.citations.value| <= u.sourcesAnalyzed.value
            && (HonoursMaxResults(search) ==> u.sourcesAnalyzed.value <= 9 * |plan.subQuestions|)
  {
    var qs := SortByPriority(plan.subQuestions);
    CounterIsRawCount(qs, search, synth);
    RunIsOneDedup(qs, search, synth);
    DedupResultsCorrect(DedupInput(qs, search), {});
    if HonoursMaxResults(search) {
      RawCountBound(qs, search);
    }
  }

  /** Two searchers that agree on the capped queries (three results each) give the same gathering. */
  lemma {:induction false} GatherDependsOnlyOn(queries: seq<string>, s1: Searcher, s2: Searcher)
    requires forall k :: 0 <= k < |queries| ==> s1(queries[k], ResultsPerQuery) == s2(queries[k], ResultsPerQuery)
    ensures Gather(queries, s1) == Gather(queries, s2)
  {
    if |queries| > 0 {
      GatherDependsOnlyOn(queries[..|queries| - 1], s1, s2);
    }
  }

  /** Only the first three queries of each sub-question are searched, each for three results:
      searchers that agree on those calls give the same stage output. */
  lemma {:induction false} OnlyFirstThreeQueries(qs: seq<SubQuestion>, s1: Searcher, s2: Searcher, synth: Synthesizer)
    requires forall i, k :: 0 <= i < |qs| && 0 <= k < |qs[i].searchQueries| && k < QueriesPerSubQuestion ==>
               s1(qs[i].searchQueries[k], ResultsPerQuery) == s2(qs[i].searchQueries[k], ResultsPerQuery)
    ensures ProcessAll(qs, s1, synth) == ProcessAll(qs, s2, synth)
  {
    if |qs| > 0 {
      var n := |qs| - 1;
      OnlyFirstThreeQueries(qs[..n], s1, s2, synth);
      var queries := Take(qs[n].searchQueries, QueriesPerSubQuestion);
      forall k | 0 <= k < |queries| ensures s1(queries[k], ResultsPerQuery) == s2(queries[k], ResultsPerQuery) {
        assert queries[k] == qs[n].searchQueries[k];
      }
      GatherDependsOnlyOn(queries, s1, s2);
      StepDependsOnlyOnGather(ProcessAll(qs[..n], s1, synth), qs[n], s1, s2, synth);
    }
  }

  /** A step uses its searcher only through the gathering of the capped queries. */
  lemma StepDependsOnlyOnGather(p: Progress, sq: SubQuestion, s1: Searcher, s2: Searcher, synth: Synthesizer)
    requires Gather(Take(sq.searchQueries, QueriesPerSubQuestion), s1)
             == Gather(Take(sq.searchQueries, QueriesPerSubQuestion), s2)
    ensures Step(p, sq, s1, synth) == Step(p, sq, s2, synth)
  {
  }

  /** The number of sub-questions whose searches raised. */
  function FailedCount(qs: seq<SubQuestion>, search: Searcher): nat
  {
    if |qs| == 0 then 0
    else FailedCount(qs[..|qs| - 1], search)
         + (if Gather(Take(qs[|qs| - 1].searchQueries, QueriesPerSubQuestion), search).fault.Some? then 1 else 0)
  }

  /** One error per failed sub-question; none when search never raises. */
  lemma {:induction false} ErrorsCountFailures(qs: seq<SubQuestion>, search: Searcher, synth: Synthesizer)
    ensures |ProcessAll(qs, search, synth).errors| == FailedCount(qs, search)
    ensures (forall q, n :: search(q, n).Ok?) ==> ProcessAll(qs, search, synth).errors == []
  {
    if |qs| > 0 {
      ErrorsCountFailures(qs[..|qs| - 1], search, synth);
      if forall q, n :: search(q, n).Ok? {
        NeverFaults(Take(qs[|qs| - 1].searchQueries, QueriesPerSubQuestion), search);
      }
    }
  }

  lemma {:induction false} NeverFaults(queries: seq<string>, search: Searcher)
    requires forall q, n :: search(q, n).Ok?
    ensures Gather(queries, search).fault.None?
  {
    if |queries| > 0 {
      NeverFaults(queries[..|queries| - 1], search);
    }
  }

  /** The stage over a plan: one note per sub-question, in ascending priority. */
  lemma ResearchNotesFollowPlan(plan: ResearchPlan, search: Searcher, synth: Synthesizer)
    ensures var u := ResearchSpec(Some(plan), search, synth);
            var order := SortByPriority(plan.subQuestions);
            && |u.researchNotes.value| == |plan.subQuestions|
            && (forall i :: 0 <= i < |order| ==> u.researchNotes.value[i].subQuestionId == order[i].id)
            && SortedByPriority(order)
  {
    OneNotePerSubQuestion(SortByPriority(plan.subQuestions), search, synth);
    SortByPriorityCorrect(plan.subQuestions);
  }
}
