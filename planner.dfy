/** The planning stage: one language-model call that decomposes the query into
    sub-questions, with a one-sub-question fallback plan when the call, the
    parse of its output or the validation of its items fails. */
module Planner {
  import opened Models
  import opened State

  const FailurePrefix := "Planner agent failed: "

  /** The plan used when the model's plan cannot be had: the query itself as the
      only sub-question and the only search query. */
  function FallbackPlan(query: string): (p: ResearchPlan)
    ensures |p.subQuestions| == 1
    ensures p.subQuestions[0].id == "sq1"
    ensures p.subQuestions[0].question == query
    ensures p.subQuestions[0].searchQueries == [query]
    ensures p.subQuestions[0].priority == 1
  {
    ResearchPlan([SubQuestion("sq1", query, [query], 1)])
  }

  /** `PlannerAgent.plan`. `reply` is the model's answer for this query, already
      parsed and validated into sub-questions, or the message of what raised. */
  function Plan(query: string, reply: Outcome<seq<SubQuestion>>): (u: Update)
    // both paths set the plan and reset the counter, and touch nothing else
    ensures u.plan.Some? && u.sourcesAnalyzed == Some(0)
    ensures u.researchNotes.None? && u.finalReport.None? && u.executiveSummary.None?
    ensures u.keyTakeaways.None? && u.limitations.None? && u.citations.None?
    // success: the parsed sub-questions, in the order given
    ensures reply.Ok? ==> u.plan.value.subQuestions == reply.value
    // failure: the fallback plan
    ensures reply.Fault? ==> u.plan.value == FallbackPlan(query)
    // errors are reported only on failure, as exactly one message
    ensures u.errors.Some? <==> reply.Fault?
    ensures reply.Fault? ==> u.errors == Some([FailurePrefix + reply.message])
  {
    match reply
    case Ok(subQuestions) =>
      NoUpdate.(plan := Some(ResearchPlan(subQuestions)), sourcesAnalyzed := Some(0))
    case Fault(message) =>
      NoUpdate.(plan := Some(FallbackPlan(query)), errors := Some([FailurePrefix + message]),
                sourcesAnalyzed := Some(0))
  }

  /** Whatever the model does, the plan that comes out of this stage has at least
      one sub-question unless the model itself returned an empty list. */
  lemma PlanNonEmptyUnlessModelEmpty(query: string, reply: Outcome<seq<SubQuestion>>)
    ensures |Plan(query, reply).plan.value.subQuestions| == 0 <==> reply == Ok([])
  {
  }
}
