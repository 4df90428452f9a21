/** The web search tool: a live client used when an API key is configured, and
    a deterministic stub of five fixed results per query otherwise (or when the
    live client raises). The live client itself is a collaborator passed in. */
module Search {
  import opened Models
  import opened Text

  /** The tool's one piece of configuration, fixed when it is constructed. */
  datatype SearchTool = SearchTool(useStub: bool)

  /** `WebSearchTool()`: the stub is used exactly when no (non-empty) API key is set. */
  function NewSearchTool(apiKey: Option<string>): (t: SearchTool)
    ensures t.useStub <==> apiKey.None? || apiKey.value == ""
  {
    SearchTool(apiKey.None? || apiKey.value == "")
  }

  /** The url path segment derived from a query: spaces become `-`, cut to 30 characters. */
  function Slug(query: string): (r: string)
    ensures |r| <= 30
  {
    Take(ReplaceChar(query, ' ', '-'), 30)
  }

  const StubPrefix := "https://example.com/"
  /** The five kinds of stub result, in the order they are returned. */
  const StubKinds: seq<string> := ["research/", "analysis/", "market-report/", "case-study/", "technical/"]

  function StubUrl(kind: string, query: string): string
  {
    StubPrefix + kind + Slug(query)
  }

  /** The body text of each of the five stub results. */
  function ResearchContent(query: string): string
  {
    "This article discusses " + query + ". Key findings include multiple perspectives on the topic, "
    + "recent developments, and expert analysis. The research indicates significant implications "
    + "for stakeholders and suggests areas for further investigation."
  }

  function AnalysisContent(query: string): string
  {
    "Industry experts provide insights into " + query + ". The analysis covers current trends, "
    + "challenges, and opportunities. Data suggests varying outcomes depending on specific "
    + "conditions and implementation strategies."
  }

  function MarketContent(query: string): string
  {
    "Comprehensive market analysis regarding " + query + ". The report examines competitive landscape, "
    + "regulatory considerations, and growth projections. Key metrics indicate both risks and "
    + "potential rewards for stakeholders."
  }

  function CaseStudyContent(query: string): string
  {
    "Real-world case study examining " + query + ". The study presents practical examples, "
    + "lessons learned, and best practices. Results demonstrate the importance of careful "
    + "planning and risk assessment."
  }

  function TechnicalContent(query: string): string
  {
    "Technical documentation and overview of " + query + ". This resource covers implementation "
    + "requirements, infrastructure needs, and technical considerations. The overview includes "
    + "both theoretical foundations and practical applications."
  }

  /** The title of each stub result: a fixed prefix and the query cut to a fixed width. */
  const TitlePrefixes: seq<string> := ["Research Article: ", "Expert Analysis on ", "Market Report: ", "Case Study: ", "Technical Overview: "]
  const TitleWidths: seq<nat> := [50, 40, 45, 50, 45]

  function StubContent(i: nat, query: string): string
    requires i < 5
  {
    if i == 0 then ResearchContent(query)
    else if i == 1 then AnalysisContent(query)
    else if i == 2 then MarketContent(query)
    else if i == 3 then CaseStudyContent(query)
    else TechnicalContent(query)
  }

  /** The `i`-th of the five stub results for a query. */
  function StubResult(i: nat, query: string): (r: SearchResult)
    requires i < 5
  {
    SearchResult(TitlePrefixes[i] + Take(query, TitleWidths[i]), StubUrl(StubKinds[i], query), StubContent(i, query))
  }

  /** The five stub results for a query, in fixed order. */
  function StubResults(query: string): (rs: seq<SearchResult>)
    ensures |rs| == 5
    ensures forall i :: 0 <= i < 5 ==> rs[i] == StubResult(i, query)
  {
    seq(5, i requires 0 <= i < 5 => StubResult(i, query))
  }

  /** `_stub_search`: the fixed list sliced with Python's `[:max_results]`. */
  function StubSearch(query: string, maxResults: int): (rs: seq<SearchResult>)
    ensures rs <= StubResults(query)
    ensures maxResults >= 0 ==> |rs| == if maxResults <= 5 then maxResults else 5
    ensures maxResults < 0 ==> |rs| == if maxResults >= -5 then 5 + maxResults else 0
  {
    Slice(StubResults(query), maxResults)
  }

  /** `search`: the stub when configured so, else the live client's results,
      falling back to the stub when the live client raises. Never raises itself. */
  function DoSearch(tool: SearchTool, live: (string, int) -> Outcome<seq<SearchResult>>,
                    query: string, maxResults: int): (rs: seq<SearchResult>)
    ensures tool.useStub ==> rs == StubSearch(query, maxResults)
    ensures !tool.useStub && live(query, maxResults).Ok? ==> rs == live(query, maxResults).value
    ensures !tool.useStub && live(query, maxResults).Fault? ==> rs == StubSearch(query, maxResults)
  {
    if tool.useStub then StubSearch(query, maxResults)
    else match live(query, maxResults)
      case Ok(results) => results
      case Fault(_) => StubSearch(query, maxResults)
  }

  /** The search tool seen as a collaborator of the researcher: it never fails. */
  function AsCollaborator(tool: SearchTool, live: (string, int) -> Outcome<seq<SearchResult>>)
    : (search: (string, int) -> Outcome<seq<SearchResult>>)
    ensures forall q, n :: search(q, n) == Ok(DoSearch(tool, live, q, n))
  {
    (q, n) => Ok(DoSearch(tool, live, q, n))
  }

  /** The character right after the fixed prefix is the first letter of the kind. */
  lemma StubUrlKindLetter(query: string, i: nat)
    requires i < 5
    ensures |StubPrefix| < |StubResults(query)[i].url|
    ensures StubResults(query)[i].url[|StubPrefix|] == StubKinds[i][0]
  {
    assert StubResults(query)[i] == StubResult(i, query);
    CharAfter(StubPrefix, StubKinds[i], Slug(query));
  }

  lemma CharAfter(a: string, b: string, c: string)
    requires |b| > 0
    ensures |a| < |a + b + c| && (a + b + c)[|a|] == b[0]
  {
  }

  /** The five kinds start with five different letters. */
  lemma KindLettersDistinct(i: nat, j: nat)
    requires i < j < 5
    ensures StubKinds[i][0] != StubKinds[j][0]
  {
    assert StubKinds[0][0] == 'r' && StubKinds[1][0] == 'a' && StubKinds[2][0] == 'm';
    assert StubKinds[3][0] == 'c' && StubKinds[4][0] == 't';
  }

  /** The five stub urls of one query are pairwise distinct, whatever the query. */
  lemma StubUrlsDistinct(query: string)
    ensures forall i, j :: 0 <= i < j < 5 ==> StubResults(query)[i].url != StubResults(query)[j].url
  {
    var rs := StubResults(query);
    forall i, j | 0 <= i < j < 5 ensures rs[i].url != rs[j].url {
      StubUrlKindLetter(query, i);
      StubUrlKindLetter(query, j);
      KindLettersDistinct(i, j);
    }
  }

  /** Each stub url is the fixed prefix, its kind, and at most 30 characters of the query. */
  lemma StubUrlShape(query: string, i: nat)
    requires i < 5
    ensures var u := StubResults(query)[i].url;
            u == StubPrefix + StubKinds[i] + Take(ReplaceChar(query, ' ', '-'), 30)
            && |u| <= |StubPrefix| + |StubKinds[i]| + 30
  {
  }

  /** Queries that agree on their first 30 characters after replacing spaces by `-`
      get the same five urls: the stub collides them. */
  lemma StubUrlsCollide(q1: string, q2: string)
    requires Take(ReplaceChar(q1, ' ', '-'), 30) == Take(ReplaceChar(q2, ' ', '-'), 30)
    ensures forall i :: 0 <= i < 5 ==> StubResults(q1)[i].url == StubResults(q2)[i].url
  {
  }

  /** Each stub title is its kind's fixed prefix and the query cut to that kind's width
      (50, 40, 45, 50 and 45 characters). */
  lemma StubTitle(query: string, i: nat)
    requires i < 5
    ensures StubResults(query)[i].title == TitlePrefixes[i] + Take(query, TitleWidths[i])
  {
    assert StubResults(query)[i] == StubResult(i, query);
  }
}
