/** The writing stage: formats the research notes for the model and asks it
    for a structured report; with no notes it answers with a fixed failure
    report without asking, and when the model fails it assembles a plain
    report from the notes' findings. */
module Writer {
  import opened Models
  import opened Text
  import opened State

  /** What the writer model answers, parsed: each key may be missing. */
  datatype ReportData = ReportData(
    report: Option<string>,
    executiveSummary: Option<string>,
    keyTakeaways: Option<seq<string>>,
    limitations: Option<string>)

  /** The writer model, given the query and the formatted notes. */
  type ReportModel = (string, string) -> Outcome<ReportData>

  const NoNotesError := "No research notes available to write report"
  const NoNotesReport := "Unable to generate report due to lack of research data."
  const NoNotesSummary := "Research could not be completed."
  const NoNotesTakeaways := ["Unable to generate insights"]
  const NoNotesLimitations := "Research process failed to collect sufficient data."

  const FailurePrefix := "Report writer failed: "
  const FallbackSummary := "Report generated with limited synthesis due to processing error."
  const FallbackTakeaways := ["See detailed findings in report"]
  const FallbackLimitations := "Report generation encountered errors; synthesis may be incomplete."

  const OpenQuestionsLine := "\nOpen Questions:"
  const ConclusionText := "Further analysis recommended based on the findings above."

  /** Each bullet rendered as a `- ` line. */
  function Bullets(items: seq<string>): (r: seq<string>)
    ensures |r| == |items| && forall i :: 0 <= i < |items| ==> r[i] == "- " + items[i]
  {
    seq(|items|, i requires 0 <= i < |items| => "- " + items[i])
  }

  lemma BulletsSnoc(items: seq<string>, k: nat)
    requires k < |items|
    ensures Bullets(items[..k + 1]) == Bullets(items[..k]) + ["- " + items[k]]
  {
  }

  // ---------------------------------------------------------------------------
  // `_format_research_notes`

  /** `{sq.id: sq.question for sq in plan.sub_questions}`: a later id overwrites an earlier one. */
  function QuestionMap(sqs: seq<SubQuestion>): map<string, string>
  {
    if |sqs| == 0 then map[]
    else QuestionMap(sqs[..|sqs| - 1])[sqs[|sqs| - 1].id := sqs[|sqs| - 1].question]
  }

  function PlanQuestions(plan: Option<ResearchPlan>): map<string, string>
  {
    if plan.Some? then QuestionMap(plan.value.subQuestions) else map[]
  }

  /** The heading text of a note: the plan's question for its id, else the id itself. */
  function Label(id: string, questions: map<string, string>): string
  {
    if id in questions then questions[id] else id
  }

  function SourcesLine(count: nat): string
  {
    "\nSources: " + NatToString(count) + " sources"
  }

  function SubQuestionLine(heading: string): string
  {
    "\n## Sub-Question: " + heading + "\n"
  }

  const EvidenceLine := "\nEvidence:"

  const SeparatorLine := "\n" + Repeat('-', 80)

  /** The lines one note contributes. */
  function NoteLines(note: ResearchNote, questions: map<string, string>): seq<string>
  {
    [SubQuestionLine(Label(note.subQuestionId, questions)), EvidenceLine]
    + Bullets(note.evidenceBullets)
    + OpenQuestionsBlock(note.openQuestions)
    + [SourcesLine(|note.sources|), SeparatorLine]
  }

  /** The open questions, under their own heading, only when there are any. */
  function OpenQuestionsBlock(questions: seq<string>): seq<string>
  {
    if |questions| > 0 then [OpenQuestionsLine] + Bullets(questions) else []
  }

  function FormatLines(notes: seq<ResearchNote>, questions: map<string, string>): seq<string>
  {
    if |notes| == 0 then []
    else FormatLines(notes[..|notes| - 1], questions) + NoteLines(notes[|notes| - 1], questions)
  }

  /** The notes text the writer model is given. */
  function NotesText(notes: seq<ResearchNote>, plan: Option<ResearchPlan>): string
  {
    Join(FormatLines(notes, PlanQuestions(plan)), "\n")
  }

  /** Appends one `- ` line per item. */
  method AppendBullets(lines: seq<string>, items: seq<string>) returns (r: seq<string>)
    ensures r == lines + Bullets(items)
  {
    r := lines;
    var k := 0;
    while k < |items|
      invariant 0 <= k <= |items|
      invariant r == lines + Bullets(items[..k])
    {
      BulletsSnoc(items, k);
      r := r + ["- " + items[k]];
      k := k + 1;
    }
    assert items[..k] == items;
  }

  /** The body of the loop over notes in `_format_research_notes`. */
  method AppendNote(lines: seq<string>, note: ResearchNote, sqMap: map<string, string>) returns (r: seq<string>)
    ensures r == lines + NoteLines(note, sqMap)
  {
    var subQText := Label(note.subQuestionId, sqMap);
    r := lines + [SubQuestionLine(subQText)];
    r := r + [EvidenceLine];
    r := AppendBullets(r, note.evidenceBullets);
    ghost var afterEvidence := r;
    if |note.openQuestions| > 0 {
      r := r + [OpenQuestionsLine];
      r := AppendBullets(r, note.openQuestions);
    }
    assert r == afterEvidence + OpenQuestionsBlock(note.openQuestions);
    r := r + [SourcesLine(|note.sources|)];
    r := r + [SeparatorLine];
    AppendInOrder(lines, SubQuestionLine(subQText), EvidenceLine, Bullets(note.evidenceBullets),
                  OpenQuestionsBlock(note.openQuestions), SourcesLine(|note.sources|), SeparatorLine);
  }

  /** Appending the parts of a block one by one appends the block. */
  lemma AppendInOrder<T>(lines: seq<T>, x1: T, x2: T, b: seq<T>, o: seq<T>, y1: T, y2: T)
    ensures lines + [x1] + [x2] + b + o + [y1] + [y2] == lines + ([x1, x2] + b + o + [y1, y2])
  {
    assert [x1] + [x2] == [x1, x2];
    assert [y1] + [y2] == [y1, y2];
  }

  lemma FormatLinesSnoc(notes: seq<ResearchNote>, i: nat, questions: map<string, string>)
    requires i < |notes|
    ensures FormatLines(notes[..i + 1], questions) == FormatLines(notes[..i], questions) + NoteLines(notes[i], questions)
  {
    assert notes[..i + 1][..i] == notes[..i];
  }

  /** The note blocks, one after the other. */
  method FormatAll(notes: seq<ResearchNote>, questions: map<string, string>) returns (formatted: seq<string>)
    ensures formatted == FormatLines(notes, questions)
  {
    formatted := [];
    var i := 0;
    while i < |notes|
      invariant 0 <= i <= |notes|
      invariant formatted == FormatLines(notes[..i], questions)
    {
      FormatLinesSnoc(notes, i, questions);
      formatted := AppendNote(formatted, notes[i], questions);
      i := i + 1;
    }
    assert notes[..i] == notes;
  }

  method FormatResearchNotes(notes: seq<ResearchNote>, plan: Option<ResearchPlan>) returns (text: string)
    ensures text == NotesText(notes, plan)
  {
    var sqMap: map<string, string> := map[];
    if plan.Some? {
      sqMap := QuestionMap(plan.value.subQuestions);
    }
    var formatted := FormatAll(notes, sqMap);
    text := Join(formatted, "\n");
  }

  // ---------------------------------------------------------------------------
  // `_generate_fallback_report`

  function HeaderLines(query: string): seq<string>
  {
    ["# Research Report: " + query + "\n",
     "## Overview\n",
     "This report presents findings from web research on the query above.\n",
     "## Findings\n"]
  }

  function FindingHeading(i: nat): string
  {
    "\n### Finding " + NatToString(i) + "\n"
  }

  /** For each note, numbered from 1, its heading and its bullets. */
  function FindingLines(notes: seq<ResearchNote>): seq<string>
  {
    if |notes| == 0 then []
    else FindingLines(notes[..|notes| - 1]) + [FindingHeading(|notes|)] + Bullets(notes[|notes| - 1].evidenceBullets)
  }

  const ConclusionLines := ["\n## Conclusion\n", ConclusionText]

  function FallbackLines(query: string, notes: seq<ResearchNote>): seq<string>
  {
    HeaderLines(query) + FindingLines(notes) + ConclusionLines
  }

  function FallbackReport(query: string, notes: seq<ResearchNote>): string
  {
    Join(FallbackLines(query, notes), "\n")
  }

  lemma FindingLinesSnoc(notes: seq<ResearchNote>, i: nat)
    requires i < |notes|
    ensures FindingLines(notes[..i + 1])
            == FindingLines(notes[..i]) + [FindingHeading(i + 1)] + Bullets(notes[i].evidenceBullets)
  {
    assert notes[..i + 1][..i] == notes[..i];
  }

  /** Appends, for each note, its numbered heading and its bullets. */
  method AppendFindings(lines: seq<string>, notes: seq<ResearchNote>) returns (r: seq<string>)
    ensures r == lines + FindingLines(notes)
  {
    r := lines;
    var i := 0;
    while i < |notes|
      invariant 0 <= i <= |notes|
      invariant r == lines + FindingLines(notes[..i])
    {
      FindingLinesSnoc(notes, i);
      r := r + [FindingHeading(i + 1)];
      r := AppendBullets(r, notes[i].evidenceBullets);
      i := i + 1;
    }
    assert notes[..i] == notes;
  }

  method GenerateFallbackReport(query: string, notes: seq<ResearchNote>) returns (report: string)
    ensures report == FallbackReport(query, notes)
  {
    var reportLines := AppendFindings(HeaderLines(query), notes);
    reportLines := reportLines + ["\n## Conclusion\n"];
    reportLines := reportLines + [ConclusionText];
    AppendPair(HeaderLines(query) + FindingLines(notes), "\n## Conclusion\n", ConclusionText);
    report := Join(reportLines, "\n");
  }

  lemma AppendPair<T>(lines: seq<T>, x: T, y: T)
    ensures lines + [x] + [y] == lines + [x, y]
  {
    assert [x] + [y] == [x, y];
  }

  // ---------------------------------------------------------------------------
  // `write_report`

  /** `ReportWriterAgent.write_report`. `model` is asked only when there are notes. */
  function WriteReport(query: string, notes: seq<ResearchNote>, plan: Option<ResearchPlan>, model: ReportModel)
    : (u: Update)
    // every path sets the four report fields, and none of the research fields
    ensures u.finalReport.Some? && u.executiveSummary.Some? && u.keyTakeaways.Some? && u.limitations.Some?
    ensures u.plan.None? && u.researchNotes.None? && u.citations.None? && u.sourcesAnalyzed.None?
    // no notes: the fixed failure report and one error
    ensures |notes| == 0 ==>
              && u.finalReport == Some(NoNotesReport) && u.executiveSummary == Some(NoNotesSummary)
              && u.keyTakeaways == Some(NoNotesTakeaways) && u.limitations == Some(NoNotesLimitations)
              && u.errors == Some([NoNotesError])
    // the model answered: its fields, a missing key read as empty, and no error
    ensures |notes| > 0 && model(query, NotesText(notes, plan)).Ok? ==>
              var data := model(query, NotesText(notes, plan)).value;
              && u.finalReport == Some(data.report.GetOr(""))
              && u.executiveSummary == Some(data.executiveSummary.GetOr(""))
              && u.keyTakeaways == Some(data.keyTakeaways.GetOr([]))
              && u.limitations == Some(data.limitations.GetOr(""))
              && u.errors.None?
    // the model failed: the assembled fallback report, fixed texts, exactly one error
    ensures |notes| > 0 && model(query, NotesText(notes, plan)).Fault? ==>
              && u.finalReport == Some(FallbackReport(query, notes))
              && u.executiveSummary == Some(FallbackSummary)
              && u.keyTakeaways == Some(FallbackTakeaways)
              && u.limitations == Some(FallbackLimitations)
              && u.errors == Some([FailurePrefix + model(query, NotesText(notes, plan)).message])
  {
    if |notes| == 0 then
      NoUpdate.(errors := Some([NoNotesError]), finalReport := Some(NoNotesReport),
                executiveSummary := Some(NoNotesSummary), keyTakeaways := Some(NoNotesTakeaways),
                limitations := Some(NoNotesLimitations))
    else match model(query, NotesText(notes, plan))
      case Ok(data) =>
        NoUpdate.(finalReport := Some(data.report.GetOr("")), executiveSummary := Some(data.executiveSummary.GetOr("")),
                  keyTakeaways := Some(data.keyTakeaways.GetOr([])), limitations := Some(data.limitations.GetOr("")))
      case Fault(message) =>
        NoUpdate.(finalReport := Some(FallbackReport(query, notes)), executiveSummary := Some(FallbackSummary),
                  keyTakeaways := Some(FallbackTakeaways), limitations := Some(FallbackLimitations),
                  errors := Some([FailurePrefix + message]))
  }

  // ---------------------------------------------------------------------------
  // What the formatting promises

  /** A note's id has a plan question exactly when some sub-question of the plan carries that id. */
  lemma {:induction false} QuestionMapKeys(sqs: seq<SubQuestion>, id: string)
    ensures id in QuestionMap(sqs) <==> exists i :: 0 <= i < |sqs| && sqs[i].id == id
  {
    if |sqs| > 0 {
      var n := |sqs| - 1;
      var front := sqs[..n];
      QuestionMapKeys(front, id);
      if id in QuestionMap(sqs) && sqs[n].id != id {
        var i :| 0 <= i < |front| && front[i].id == id;
        assert sqs[i] == front[i];
      }
      if exists i :: 0 <= i < |sqs| && sqs[i].id == id {
        var i :| 0 <= i < |sqs| && sqs[i].id == id;
        if i < n {
          assert front[i] == sqs[i];
        }
      }
    }
  }

  /** When several sub-questions share an id, the note is headed by the question of the last one. */
  lemma {:induction false} QuestionMapLastWins(sqs: seq<SubQuestion>, i: nat)
    requires i < |sqs|
    requires forall j :: i < j < |sqs| ==> sqs[j].id != sqs[i].id
    ensures sqs[i].id in QuestionMap(sqs)
    ensures QuestionMap(sqs)[sqs[i].id] == sqs[i].question
  {
    var n := |sqs| - 1;
    if i < n {
      var front := sqs[..n];
      assert front[i] == sqs[i];
      forall j | i < j < |front| ensures front[j].id != front[i].id {
        assert front[j] == sqs[j];
      }
      QuestionMapLastWins(front, i);
      assert sqs[n].id != sqs[i].id;
    }
  }

  lemma LabelWithoutPlan(id: string)
    ensures Label(id, PlanQuestions(None)) == id
  {
  }

  /** The "Open Questions" block appears exactly when the note has open questions. */
  lemma OpenQuestionsShown(note: ResearchNote, questions: map<string, string>)
    ensures OpenQuestionsLine in NoteLines(note, questions) <==> |note.openQuestions| > 0
  {
    var lines := NoteLines(note, questions);
    if |note.openQuestions| == 0 {
      var head := [SubQuestionLine(Label(note.subQuestionId, questions)), EvidenceLine];
      var tail := [SourcesLine(|note.sources|), SeparatorLine];
      assert lines == head + Bullets(note.evidenceBullets) + tail;
      forall x | x in lines ensures x != OpenQuestionsLine {
        if x in head {
          assert x[0] == '\n' && x[1] != 'O';
        } else if x in Bullets(note.evidenceBullets) {
          assert x[0] == '-';
        } else {
          assert x in tail;
          assert x[0] == '\n' && x[1] != 'O';
        }
      }
    } else {
      var prefix := [SubQuestionLine(Label(note.subQuestionId, questions)), EvidenceLine]
                    + Bullets(note.evidenceBullets);
      assert lines[|prefix|] == OpenQuestionsLine;
    }
  }

  /** Every note block ends with its source count and an 80-dash separator. */
  lemma NoteBlockEnd(note: ResearchNote, questions: map<string, string>)
    ensures var lines := NoteLines(note, questions);
            && |lines| >= 4
            && lines[|lines| - 2] == "\nSources: " + NatToString(|note.sources|) + " sources"
            && lines[|lines| - 1] == SeparatorLine
            && |SeparatorLine| == 81
            && forall k :: 1 <= k < 81 ==> SeparatorLine[k] == '-'
  {
  }

  /** Where the lines of note `i` start among the findings: its heading line, then
      one line per bullet of each earlier note. */
  function Offset(notes: seq<ResearchNote>, i: nat): nat
    requires i <= |notes|
  {
    if i == 0 then 0 else Offset(notes, i - 1) + 1 + |notes[i - 1].evidenceBullets|
  }

  lemma {:induction false} OffsetPrefix(notes: seq<ResearchNote>, m: nat, i: nat)
    requires i <= m <= |notes|
    ensures Offset(notes[..m], i) == Offset(notes, i)
  {
    if i > 0 {
      OffsetPrefix(notes, m, i - 1);
      assert notes[..m][i - 1] == notes[i - 1];
    }
  }

  lemma {:induction false} OffsetMonotone(notes: seq<ResearchNote>, i: nat, m: nat)
    requires i <= m <= |notes|
    ensures Offset(notes, i) + (m - i) <= Offset(notes, m)
  {
    if i < m {
      OffsetMonotone(notes, i, m - 1);
    }
  }

  lemma {:induction false} FindingLinesLength(notes: seq<ResearchNote>)
    ensures |FindingLines(notes)| == Offset(notes, |notes|)
  {
    if |notes| > 0 {
      var n := |notes| - 1;
      FindingLinesLength(notes[..n]);
      OffsetPrefix(notes, n, n);
    }
  }

  /** The fallback findings: note `i` (counting from 0) gets the heading "Finding i+1"
      followed by its bullets, one `- ` line each, in note order. */
  lemma {:induction false} FindingLinesAt(notes: seq<ResearchNote>, i: nat, k: nat)
    requires i < |notes| && k <= |notes[i].evidenceBullets|
    ensures |FindingLines(notes)| == Offset(notes, |notes|)
    ensures Offset(notes, i) + k < |FindingLines(notes)|
    ensures k == 0 ==> FindingLines(notes)[Offset(notes, i)] == FindingHeading(i + 1)
    ensures k > 0 ==> FindingLines(notes)[Offset(notes, i) + k] == "- " + notes[i].evidenceBullets[k - 1]
  {
    FindingLinesLength(notes);
    var n := |notes| - 1;
    var front := notes[..n];
    var a := FindingLines(front);
    var tail := [FindingHeading(n + 1)] + Bullets(notes[n].evidenceBullets);
    assert FindingLines(notes) == a + tail;
    if i < n {
      FindingLinesAt(front, i, k);
      OffsetPrefix(notes, n, i);
      assert front[i] == notes[i];
      assert (a + tail)[Offset(notes, i) + k] == a[Offset(notes, i) + k];
    } else {
      OffsetPrefix(notes, n, n);
      FindingLinesLength(front);
      assert Offset(notes, i) == |a|;
      assert (a + tail)[|a| + k] == tail[k];
    }
  }

  /** The fallback report opens with the query's title line and closes with the fixed conclusion. */
  lemma FallbackReportShape(query: string, notes: seq<ResearchNote>)
    ensures var report := FallbackReport(query, notes);
            var title := "# Research Report: " + query + "\n";
            && title <= report
            && |ConclusionText| <= |report|
            && report[|report| - |ConclusionText|..] == ConclusionText
  {
    var lines := FallbackLines(query, notes);
    assert lines[0] == "# Research Report: " + query + "\n";
    JoinStartsWith(lines, "\n");
    JoinEndsWith(lines, "\n");
  }
}
