/** The research graph: three nodes run in a fixed line, plan, research and
    write_report, each returning a partial update that is merged into the
    shared state; and the process-wide cache that builds the graph once. */
module Workflow {
  import opened Models
  import opened State
  import Planner
  import Researcher
  import Writer

  datatype Node = PlanNode | ResearchNode | WriteReportNode

  /** Where control goes after a node: another node, or the end of the run. */
  datatype Next = Goto(node: Node) | Finish

  datatype Graph = Graph(entry: Node, edges: map<Node, Next>)

  /** How many node runs the graph runtime allows in one invocation. */
  const RecursionLimit: nat := 25

  /** `create_research_graph`: entry `plan`, then `research`, then `write_report`, then the end. */
  function CreateResearchGraph(): Graph
  {
    Graph(PlanNode, map[PlanNode := Goto(ResearchNode), ResearchNode := Goto(WriteReportNode),
                        WriteReportNode := Finish])
  }

  /** The nodes a run visits from `from`, following the edges, at most `fuel` of them. */
  function Walk(g: Graph, from: Node, fuel: nat): seq<Node>
    decreases fuel
  {
    if fuel == 0 then []
    else [from] + (if from in g.edges && g.edges[from].Goto? then Walk(g, g.edges[from].node, fuel - 1) else [])
  }

  /** The research graph visits each of its three nodes once, in line, and then ends,
      well within the runtime's limit. */
  lemma ResearchGraphSchedule(fuel: nat)
    requires fuel >= 3
    ensures Walk(CreateResearchGraph(), CreateResearchGraph().entry, fuel) == [PlanNode, ResearchNode, WriteReportNode]
    ensures CreateResearchGraph().edges[WriteReportNode] == Finish
  {
    var g := CreateResearchGraph();
    assert Walk(g, WriteReportNode, fuel - 2) == [WriteReportNode];
    assert Walk(g, ResearchNode, fuel - 1) == [ResearchNode, WriteReportNode];
  }

  /** The planner model: the query to a parsed list of sub-questions, or what raised. */
  type PlannerModel = string -> Outcome<seq<SubQuestion>>

  /** Everything outside the program a run talks to. */
  datatype Collaborators = Collaborators(
    planner: PlannerModel,
    search: Researcher.Searcher,
    synth: Researcher.Synthesizer,
    writer: Writer.ReportModel)

  /** What a node returns for the state it is given. */
  function NodeUpdate(n: Node, s: ResearchState, c: Collaborators): Update
  {
    match n
    case PlanNode => Planner.Plan(s.query, c.planner(s.query))
    case ResearchNode => Researcher.ResearchSpec(s.plan, c.search, c.synth)
    case WriteReportNode => Writer.WriteReport(s.query, s.researchNotes, s.plan, c.writer)
  }

  /** Runs the nodes in order, each on the state the previous ones left. */
  function RunNodes(nodes: seq<Node>, s: ResearchState, c: Collaborators): ResearchState
  {
    if |nodes| == 0 then s else RunNodes(nodes[1..], Merge(s, NodeUpdate(nodes[0], s, c)), c)
  }

  /** `graph.invoke(state)`. */
  function Invoke(g: Graph, s: ResearchState, c: Collaborators): ResearchState
  {
    RunNodes(Walk(g, g.entry, RecursionLimit), s, c)
  }

  /** A whole run of the research graph from the state the streaming service builds. */
  function RunResearch(query: string, threadId: string, c: Collaborators): ResearchState
  {
    Invoke(CreateResearchGraph(), Initial(query, threadId), c)
  }

  // The three updates of a run, each computed on the state its predecessors left.

  function PlanUpdate(query: string, c: Collaborators): Update
  {
    Planner.Plan(query, c.planner(query))
  }

  function AfterPlan(query: string, threadId: string, c: Collaborators): ResearchState
  {
    Merge(Initial(query, threadId), PlanUpdate(query, c))
  }

  function ResearchUpdate(query: string, threadId: string, c: Collaborators): Update
  {
    Researcher.ResearchSpec(AfterPlan(query, threadId, c).plan, c.search, c.synth)
  }

  function AfterResearch(query: string, threadId: string, c: Collaborators): ResearchState
  {
    Merge(AfterPlan(query, threadId, c), ResearchUpdate(query, threadId, c))
  }

  function WriteUpdate(query: string, threadId: string, c: Collaborators): Update
  {
    var s := AfterResearch(query, threadId, c);
    Writer.WriteReport(s.query, s.researchNotes, s.plan, c.writer)
  }

  /** A run is the three updates merged one after the other into the initial state. */
  lemma RunIsThreeStages(query: string, threadId: string, c: Collaborators)
    ensures RunResearch(query, threadId, c)
            == Merge(AfterResearch(query, threadId, c), WriteUpdate(query, threadId, c))
  {
    ResearchGraphSchedule(RecursionLimit);
    var nodes := [PlanNode, ResearchNode, WriteReportNode];
    var s0 := Initial(query, threadId);
    var s1 := AfterPlan(query, threadId, c);
    var s2 := AfterResearch(query, threadId, c);
    var s3 := Merge(s2, WriteUpdate(query, threadId, c));
    assert nodes[1..] == [ResearchNode, WriteReportNode];
    assert nodes[1..][1..] == [WriteReportNode];
    assert RunNodes(nodes, s0, c) == RunNodes(nodes[1..], s1, c);
    assert RunNodes(nodes[1..], s1, c) == RunNodes(nodes[1..][1..], s2, c);
    assert RunNodes(nodes[1..][1..], s2, c) == RunNodes([], s3, c);
  }

  /** After the planner: its plan, always present, and its errors. */
  lemma AfterPlanFields(query: string, threadId: string, c: Collaborators)
    ensures var s := AfterPlan(query, threadId, c);
            && s.plan == PlanUpdate(query, c).plan && s.plan.Some?
            && s.errors == PlanUpdate(query, c).errors.GetOr([])
            && s.researchNotes == [] && s.citations == []
  {
  }

  /** After the researcher: what it returned for the planner's plan. */
  lemma AfterResearchFields(query: string, threadId: string, c: Collaborators)
    ensures var plan := PlanUpdate(query, c).plan.value;
            var r := Researcher.ResearchSpec(Some(plan), c.search, c.synth);
            var s := AfterResearch(query, threadId, c);
            && ResearchUpdate(query, threadId, c) == r
            && s.plan == Some(plan)
            && s.researchNotes == r.researchNotes.value
            && s.citations == r.citations.value
            && s.sourcesAnalyzed == r.sourcesAnalyzed.value
            && s.errors == PlanUpdate(query, c).errors.GetOr([]) + r.errors.value
  {
    AfterPlanFields(query, threadId, c);
  }

  /** The writer leaves the research fields as the researcher left them. */
  lemma RunKeepsResearch(query: string, threadId: string, c: Collaborators)
    ensures var s := RunResearch(query, threadId, c);
            var t := AfterResearch(query, threadId, c);
            && s.plan == t.plan && s.researchNotes == t.researchNotes
            && s.citations == t.citations && s.sourcesAnalyzed == t.sourcesAnalyzed
            && s.errors == t.errors + WriteUpdate(query, threadId, c).errors.GetOr([])
  {
    RunIsThreeStages(query, threadId, c);
    var w := WriteUpdate(query, threadId, c);
    assert w.plan.None? && w.researchNotes.None? && w.citations.None? && w.sourcesAnalyzed.None?;
  }

  /** The plan the run ends with is the planner's, and it is always there: the
      researcher's no-plan branch is never taken inside a run. */
  lemma RunPlan(query: string, threadId: string, c: Collaborators)
    ensures var s := RunResearch(query, threadId, c);
            && s.plan == PlanUpdate(query, c).plan
            && s.plan.Some?
            && ResearchUpdate(query, threadId, c).researchNotes.Some?
            && (c.planner(query).Ok? ==> s.plan.value.subQuestions == c.planner(query).value)
            && (c.planner(query).Fault? ==> s.plan.value == Planner.FallbackPlan(query))
  {
    RunKeepsResearch(query, threadId, c);
    AfterResearchFields(query, threadId, c);
  }

  /** One note per sub-question of the plan, in ascending priority; so the writer
      gets notes exactly when the plan has sub-questions. */
  lemma RunNotes(query: string, threadId: string, c: Collaborators)
    ensures var s := RunResearch(query, threadId, c);
            var plan := PlanUpdate(query, c).plan.value;
            var order := Researcher.SortByPriority(plan.subQuestions);
            && |s.researchNotes| == |plan.subQuestions|
            && (forall i :: 0 <= i < |order| ==> s.researchNotes[i].subQuestionId == order[i].id)
            && (|AfterResearch(query, threadId, c).researchNotes| == 0 <==> |plan.subQuestions| == 0)
  {
    RunKeepsResearch(query, threadId, c);
    AfterResearchFields(query, threadId, c);
    Researcher.ResearchNotesFollowPlan(PlanUpdate(query, c).plan.value, c.search, c.synth);
  }

  /** Errors accumulate across stages in stage order; nothing is dropped. */
  lemma RunErrors(query: string, threadId: string, c: Collaborators)
    ensures RunResearch(query, threadId, c).errors
            == PlanUpdate(query, c).errors.GetOr([])
               + ResearchUpdate(query, threadId, c).errors.value
               + WriteUpdate(query, threadId, c).errors.GetOr([])
  {
    RunKeepsResearch(query, threadId, c);
    AfterResearchFields(query, threadId, c);
  }

  /** One error for a failed planner call, one per sub-question whose searches
      raised, and one when the writer fell back. */
  lemma RunErrorCount(query: string, threadId: string, c: Collaborators)
    ensures |RunResearch(query, threadId, c).errors|
            == (if c.planner(query).Fault? then 1 else 0)
               + Researcher.FailedCount(Researcher.SortByPriority(PlanUpdate(query, c).plan.value.subQuestions), c.search)
               + (if WriteUpdate(query, threadId, c).errors.Some? then 1 else 0)
  {
    RunErrors(query, threadId, c);
    AfterResearchFields(query, threadId, c);
    var plan := PlanUpdate(query, c).plan.value;
    Researcher.ErrorsCountFailures(Researcher.SortByPriority(plan.subQuestions), c.search, c.synth);
    WriterErrorCount(query, threadId, c);
    var pe := PlanUpdate(query, c).errors.GetOr([]);
    var re := ResearchUpdate(query, threadId, c).errors.value;
    var we := WriteUpdate(query, threadId, c).errors.GetOr([]);
    assert |pe + re + we| == |pe| + |re| + |we|;
  }

  /** The writer reports at most one error. */
  lemma WriterErrorCount(query: string, threadId: string, c: Collaborators)
    ensures |WriteUpdate(query, threadId, c).errors.GetOr([])| == if WriteUpdate(query, threadId, c).errors.Some? then 1 else 0
  {
  }

  /** The counter a run reports is the researcher's raw result count: the planner's
      reset to 0 is overwritten, and the writer leaves it alone. */
  lemma RunSourcesAnalyzed(query: string, threadId: string, c: Collaborators)
    ensures var s := RunResearch(query, threadId, c);
            var plan := PlanUpdate(query, c).plan.value;
            && s.sourcesAnalyzed == Researcher.RawCount(Researcher.SortByPriority(plan.subQuestions), c.search)
            && |s.citations| <= s.sourcesAnalyzed
            && (Researcher.HonoursMaxResults(c.search) ==> s.sourcesAnalyzed <= 9 * |plan.subQuestions|)
  {
    RunKeepsResearch(query, threadId, c);
    AfterResearchFields(query, threadId, c);
    Researcher.SourcesAnalyzedBounds(PlanUpdate(query, c).plan.value, c.search, c.synth);
  }

  /** A run's citations are the researcher's: already one per url, none empty. */
  lemma RunCitations(query: string, threadId: string, c: Collaborators)
    ensures var s := RunResearch(query, threadId, c);
            && s.citations == ResearchUpdate(query, threadId, c).citations.value
            && Researcher.DistinctUrls(s.citations)
            && (forall k :: 0 <= k < |s.citations| ==> s.citations[k].url != "")
  {
    RunKeepsResearch(query, threadId, c);
    AfterResearchFields(query, threadId, c);
    Researcher.ResearchCitations(PlanUpdate(query, c).plan.value, c.search, c.synth);
  }

  /** The report fields of a finished run are all set, by the writer. */
  lemma RunReport(query: string, threadId: string, c: Collaborators)
    ensures var s := RunResearch(query, threadId, c);
            var w := WriteUpdate(query, threadId, c);
            && s.finalReport.Some? && s.executiveSummary.Some? && s.limitations.Some?
            && s.finalReport == w.finalReport && s.executiveSummary == w.executiveSummary
            && s.limitations == w.limitations && s.keyTakeaways == w.keyTakeaways.value
            && s.query == query && s.threadId == threadId
  {
    RunIsThreeStages(query, threadId, c);
    var t := AfterResearch(query, threadId, c);
    var w := WriteUpdate(query, threadId, c);
    assert w.finalReport.Some? && w.executiveSummary.Some? && w.keyTakeaways.Some? && w.limitations.Some?;
    assert t.query == query && t.threadId == threadId;
  }

  /** `get_research_graph`'s cache: empty until the first call, then the one graph built. */
  class GraphCache {
    var graph: Option<Graph>
    /** How many times the graph has been built. */
    ghost var builds: nat

    /** The cached graph is the research graph, and it was built exactly once. */
    ghost predicate Valid()
      reads this
    {
      && (graph.None? || graph.value == CreateResearchGraph())
      && builds == (if graph.Some? then 1 else 0)
    }

    constructor()
      ensures Valid() && graph.None? && builds == 0
    {
      graph := None;
      builds := 0;
    }

    /** Builds the graph on the first call and returns the cached one afterwards. */
    method Get() returns (g: Graph)
      requires Valid()
      modifies this
      ensures Valid()
      ensures g == CreateResearchGraph() && graph == Some(g)
      ensures old(graph).Some? ==> graph == old(graph)
      ensures builds == old(builds) + (if old(graph).None? then 1 else 0)
      ensures builds == 1
    {
      if graph.None? {
        graph := Some(CreateResearchGraph());
        builds := builds + 1;
      }
      g := graph.value;
    }
  }
}
