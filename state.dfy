/** The record threaded through every step of the research workflow, and the state a
    run starts from. */
module State {
  import opened Wrappers

  /** A reading of the wall clock; only its identity matters to the workflow. */
  type Timestamp = nat

  /** A search-result dict. Each key may be absent (`None`); the web search tool fills in
      the first four, and the relevance filter adds `relevance_score`. */
  datatype SearchResult = SearchResult(
    title: Option<string>,
    url: Option<string>,
    snippet: Option<string>,
    source: Option<string>,
    relevanceScore: Option<int>)

  /** A page returned by the content extractor. */
  datatype Page = Page(url: string, content: string)

  /** One section of the report. */
  datatype Section = Section(heading: string, content: string)

  /** A citation derived from a filtered search result. */
  datatype Citation = Citation(title: string, url: string, source: string, accessedDate: string, snippet: string)

  /** The `ResearchState` record; every key of the TypedDict is a field here. */
  datatype ResearchState = ResearchState(
    // input
    query: string,
    jobId: string,
    userId: Option<string>,
    maxResults: int,
    includeCitations: bool,
    // search results
    rawSearchResults: seq<SearchResult>,
    filteredResults: seq<SearchResult>,
    // content
    extractedContent: seq<Page>,
    synthesizedContent: string,
    // report components
    reportTitle: string,
    executiveSummary: string,
    reportSections: seq<Section>,
    citations: seq<Citation>,
    // final output
    reportMarkdown: string,
    googleDocUrl: Option<string>,
    n8nResponse: Option<map<string, string>>,
    // workflow metadata
    currentStep: string,
    errorMessage: Option<string>,
    retryCount: int,
    startedAt: Timestamp,
    completedAt: Option<Timestamp>,
    // progress tracking
    progressMessages: seq<string>)

  const DefaultMaxResults: int := 10
  const DefaultIncludeCitations: bool := true

  /** `create_initial_state`: the inputs copied verbatim, every derived field empty, and the
      run marked as initialized with no error. `startedAt` is the clock reading taken when
      the record is built. */
  function CreateInitialState(
    startedAt: Timestamp,
    query: string,
    jobId: string,
    userId: Option<string> := None,
    maxResults: int := DefaultMaxResults,
    includeCitations: bool := DefaultIncludeCitations): (s: ResearchState)
    ensures s.query == query && s.jobId == jobId && s.userId == userId
    ensures s.maxResults == maxResults && s.includeCitations == includeCitations
    ensures s.rawSearchResults == [] && s.filteredResults == [] && s.extractedContent == []
    ensures s.reportSections == [] && s.citations == [] && s.progressMessages == []
    ensures s.synthesizedContent == "" && s.reportTitle == "" && s.executiveSummary == ""
    ensures s.reportMarkdown == ""
    ensures s.googleDocUrl == None && s.n8nResponse == None
    ensures s.currentStep == "initialized" && s.errorMessage == None && s.retryCount == 0
    ensures s.startedAt == startedAt && s.completedAt == None
  {
    ResearchState(
      query := query,
      jobId := jobId,
      userId := userId,
      maxResults := maxResults,
      includeCitations := includeCitations,
      rawSearchResults := [],
      filteredResults := [],
      extractedContent := [],
      synthesizedContent := "",
      reportTitle := "",
      executiveSummary := "",
      reportSections := [],
      citations := [],
      reportMarkdown := "",
      googleDocUrl := None,
      n8nResponse := None,
      currentStep := "initialized",
      errorMessage := None,
      retryCount := 0,
      startedAt := startedAt,
      completedAt := None,
      progressMessages := [])
  }
}
