/** The shared record threaded through the three stages, and the per-field
    rule by which a stage's partial update is merged into it: the four list
    fields declared with the `add` reducer are concatenated, every other field
    the update carries is overwritten, and a field the update leaves out keeps
    its value. */
module State {
  import opened Models

  datatype ResearchState = ResearchState(
    query: string,
    threadId: string,
    plan: Option<ResearchPlan>,
    researchNotes: seq<ResearchNote>,
    finalReport: Option<string>,
    executiveSummary: Option<string>,
    keyTakeaways: seq<string>,
    limitations: Option<string>,
    citations: seq<Citation>,
    errors: seq<string>,
    sourcesAnalyzed: int)

  /** A stage's partial update: `None` for a key the returned dict does not hold. */
  datatype Update = Update(
    plan: Option<ResearchPlan>,
    researchNotes: Option<seq<ResearchNote>>,
    finalReport: Option<string>,
    executiveSummary: Option<string>,
    keyTakeaways: Option<seq<string>>,
    limitations: Option<string>,
    citations: Option<seq<Citation>>,
    errors: Option<seq<string>>,
    sourcesAnalyzed: Option<int>)

  const NoUpdate := Update(None, None, None, None, None, None, None, None, None)

  /** The state a run starts from: only the query and the thread id are set. */
  function Initial(query: string, threadId: string): (s: ResearchState)
    ensures s.query == query && s.threadId == threadId
    ensures s.plan.None? && s.finalReport.None? && s.executiveSummary.None? && s.limitations.None?
    ensures s.researchNotes == [] && s.keyTakeaways == [] && s.citations == [] && s.errors == []
    ensures s.sourcesAnalyzed == 0
  {
    ResearchState(query, threadId, None, [], None, None, [], None, [], [], 0)
  }

  /** Overwrite rule for an optional field. */
  function Overwrite<T>(old_: Option<T>, new_: Option<T>): Option<T>
  {
    if new_.Some? then new_ else old_
  }

  /** Reducer `add` for an appendable field: existing ++ update. */
  function Append<T>(old_: seq<T>, new_: Option<seq<T>>): seq<T>
  {
    old_ + new_.GetOr([])
  }

  /** Merges one partial update into the state, field by field. */
  function Merge(s: ResearchState, u: Update): (r: ResearchState)
    // query and thread id are never part of an update
    ensures r.query == s.query && r.threadId == s.threadId
    // appendable fields: existing ++ update, nothing removed, nothing de-duplicated
    ensures r.researchNotes == s.researchNotes + u.researchNotes.GetOr([])
    ensures r.keyTakeaways == s.keyTakeaways + u.keyTakeaways.GetOr([])
    ensures r.citations == s.citations + u.citations.GetOr([])
    ensures r.errors == s.errors + u.errors.GetOr([])
    // overwritten fields: the update's value when present, else the old one
    ensures u.plan.Some? ==> r.plan == u.plan
    ensures u.plan.None? ==> r.plan == s.plan
    ensures u.finalReport.Some? ==> r.finalReport == u.finalReport
    ensures u.finalReport.None? ==> r.finalReport == s.finalReport
    ensures u.executiveSummary.Some? ==> r.executiveSummary == u.executiveSummary
    ensures u.executiveSummary.None? ==> r.executiveSummary == s.executiveSummary
    ensures u.limitations.Some? ==> r.limitations == u.limitations
    ensures u.limitations.None? ==> r.limitations == s.limitations
    // the counter has no reducer: overwritten, not summed
    ensures r.sourcesAnalyzed == u.sourcesAnalyzed.GetOr(s.sourcesAnalyzed)
  {
    ResearchState(
      s.query,
      s.threadId,
      Overwrite(s.plan, u.plan),
      Append(s.researchNotes, u.researchNotes),
      Overwrite(s.finalReport, u.finalReport),
      Overwrite(s.executiveSummary, u.executiveSummary),
      Append(s.keyTakeaways, u.keyTakeaways),
      Overwrite(s.limitations, u.limitations),
      Append(s.citations, u.citations),
      Append(s.errors, u.errors),
      u.sourcesAnalyzed.GetOr(s.sourcesAnalyzed))
  }

  /** An update that carries no key leaves the state as it was. */
  lemma MergeNoUpdate(s: ResearchState)
    ensures Merge(s, NoUpdate) == s
  {
  }

  /** Two updates applied one after the other act as one update that concatenates
      the appendable fields and lets the later value win elsewhere. */
  function Then(u1: Update, u2: Update): (u: Update)
  {
    Update(
      Overwrite(u1.plan, u2.plan),
      ThenList(u1.researchNotes, u2.researchNotes),
      Overwrite(u1.finalReport, u2.finalReport),
      Overwrite(u1.executiveSummary, u2.executiveSummary),
      ThenList(u1.keyTakeaways, u2.keyTakeaways),
      Overwrite(u1.limitations, u2.limitations),
      ThenList(u1.citations, u2.citations),
      ThenList(u1.errors, u2.errors),
      Overwrite(u1.sourcesAnalyzed, u2.sourcesAnalyzed))
  }

  function ThenList<T>(a: Option<seq<T>>, b: Option<seq<T>>): Option<seq<T>>
  {
    if a.None? && b.None? then None else Some(a.GetOr([]) + b.GetOr([]))
  }

  lemma MergeThen(s: ResearchState, u1: Update, u2: Update)
    ensures Merge(Merge(s, u1), u2) == Merge(s, Then(u1, u2))
  {
    assert Append(Append(s.researchNotes, u1.researchNotes), u2.researchNotes)
        == Append(s.researchNotes, ThenList(u1.researchNotes, u2.researchNotes));
    assert Append(Append(s.keyTakeaways, u1.keyTakeaways), u2.keyTakeaways)
        == Append(s.keyTakeaways, ThenList(u1.keyTakeaways, u2.keyTakeaways));
    assert Append(Append(s.citations, u1.citations), u2.citations)
        == Append(s.citations, ThenList(u1.citations, u2.citations));
    assert Append(Append(s.errors, u1.errors), u2.errors)
        == Append(s.errors, ThenList(u1.errors, u2.errors));
  }
}
