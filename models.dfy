/** The records the pipeline passes between stages: sub-questions and plans
    produced by the planner, search results, citations and research notes
    produced by the researcher, and the two wrappers used for absent values
    and for collaborator calls that may raise. */
module Models {

  /** A value that may be absent (`None` in Python, or a key missing from a dict). */
  datatype Option<+T> = None | Some(value: T) {
    function GetOr(default: T): T {
      match this
      case Some(v) => v
      case None => default
    }
  }

  /** The outcome of a call into a collaborator (the language model, the search
      service): a parsed value, or the message of the exception it raised. */
  datatype Outcome<+T> = Ok(value: T) | Fault(message: string)

  /** One decomposed sub-question of a research plan. */
  datatype SubQuestion = SubQuestion(id: string, question: string, searchQueries: seq<string>, priority: int)

  datatype ResearchPlan = ResearchPlan(subQuestions: seq<SubQuestion>)

  /** One result of the search tool: every result it returns has all three keys. */
  datatype SearchResult = SearchResult(title: string, url: string, content: string)

  /** A source, identified by its url. */
  datatype Citation = Citation(title: string, url: string)

  /** The evidence collected for one sub-question. */
  datatype ResearchNote = ResearchNote(
    subQuestionId: string,
    evidenceBullets: seq<string>,
    sources: seq<Citation>,
    openQuestions: seq<string>)
}
