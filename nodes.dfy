/** The eight workflow steps. Each step takes the research state and returns it updated.
    `XEffect`-style functions (`QueryIntake`, `WebSearch`, ...) say what a step does to the
    state as a whole; the `...Node` methods perform the same updates one field at a time,
    as the step functions do, and are proved to agree with them.

    The language model, the web search, the page fetch and the clock readings come from an
    `Env`: each call either returns a value (`Ok`) or fails with the message its exception
    would carry (`Fail`). */
module Nodes {
  import opened Wrappers
  import opened PyStr
  import opened State
  import opened Tools

  /** The outside world one run sees. `search` and `llm` are the search tool and the chat
      model; `fetch` is the extractor's page download and conversion; `accessDate`,
      `generatedAt` and `now` are the clock readings of the citation step, the report step
      and the error step. */
  datatype Env = Env(
    search: (string, int) -> Result<seq<SearchResult>>,
    fetch: Fetcher,
    llm: (string, string) -> Result<string>,
    accessDate: string,
    generatedAt: string,
    now: Timestamp)

  /** The environment in which `search` is the modelled `WebSearchTool.search` over a search
      engine `backend`. */
  function WiredEnv(backend: SearchBackend, fetch: Fetcher, llm: (string, string) -> Result<string>,
                    accessDate: string, generatedAt: string, now: Timestamp): Env {
    Env((q: string, n: int) => Ok(SearchSpec(backend, q, Some(n))), fetch, llm, accessDate, generatedAt, now)
  }

  const MinQueryLength: int := 5
  /** How many filtered results feed the extraction step and the Key Sources section. */
  const TopSources: int := 5
  const ChunkContentLimit: int := 2000
  const SynthesisInputLimit: int := 15000
  const SummaryInputLimit: int := 3000

  const SynthesisSystem: string :=
    "You are a research analyst. Synthesize the provided web content into a comprehensive, \n"
    + "            well-structured analysis that answers the research query. Be objective, factual, and cite key findings."
  const TitleSystem: string := "Generate a concise, professional title for this research report."
  const SummarySystem: string := "Create a brief executive summary (2-3 sentences) of the research findings."
  const ChunkSeparator: string := "\n\n---\n\n"

  /** The two updates every step except the error handler makes first. */
  function Enter(s: ResearchState, step: string, message: string): ResearchState {
    s.(currentStep := step, progressMessages := s.progressMessages + [message])
  }

  /** The fields a run is started with never change. */
  predicate SameInputs(s: ResearchState, r: ResearchState) {
    r.query == s.query && r.jobId == s.jobId && r.userId == s.userId && r.maxResults == s.maxResults
    && r.includeCitations == s.includeCitations && r.startedAt == s.startedAt
  }

  // ------------------------------------------------------------------
  // query_intake
  // ------------------------------------------------------------------

  /** `query_intake_node`: marks the step, logs the query, and flags a query that is empty
      or shorter than five characters. Nothing else changes. */
  function QueryIntake(s: ResearchState): (r: ResearchState)
    ensures r.currentStep == "query_intake"
    ensures r.progressMessages == s.progressMessages + ["Processing query: " + s.query]
    ensures |s.query| < MinQueryLength ==> r.errorMessage == Some("Query too short or empty")
    ensures |s.query| >= MinQueryLength ==> r.errorMessage == s.errorMessage
    ensures r.(currentStep := s.currentStep, progressMessages := s.progressMessages, errorMessage := s.errorMessage) == s
  {
    var t := Enter(s, "query_intake", "Processing query: " + s.query);
    if s.query == "" || |s.query| < MinQueryLength then t.(errorMessage := Some("Query too short or empty")) else t
  }

  method QueryIntakeNode(s: ResearchState) returns (r: ResearchState)
    ensures r == QueryIntake(s)
  {
    r := s.(currentStep := "query_intake");
    r := r.(progressMessages := r.progressMessages + ["Processing query: " + r.query]);
    if r.query == "" || |r.query| < MinQueryLength {
      r := r.(errorMessage := Some("Query too short or empty"));
      return;
    }
  }

  // ------------------------------------------------------------------
  // web_search
  // ------------------------------------------------------------------

  /** `web_search_node`: on success the raw results are the search's and the count is logged;
      on failure the error is recorded and the raw results are emptied. */
  function WebSearch(s: ResearchState, env: Env): (r: ResearchState)
    ensures r.currentStep == "web_search"
    ensures env.search(s.query, s.maxResults).Ok? ==>
      var results := env.search(s.query, s.maxResults).value;
      r.rawSearchResults == results && r.errorMessage == s.errorMessage &&
      r.progressMessages == s.progressMessages + ["Searching the web...", "Found " + NatToString(|results|) + " search results"]
    ensures env.search(s.query, s.maxResults).Fail? ==>
      r.rawSearchResults == [] &&
      r.errorMessage == Some("Search error: " + env.search(s.query, s.maxResults).msg) &&
      r.progressMessages == s.progressMessages + ["Searching the web..."]
    ensures r.(currentStep := s.currentStep, progressMessages := s.progressMessages,
               rawSearchResults := s.rawSearchResults, errorMessage := s.errorMessage) == s
  {
    var t := Enter(s, "web_search", "Searching the web...");
    match env.search(s.query, s.maxResults)
    case Ok(results) =>
      t.(rawSearchResults := results,
         progressMessages := t.progressMessages + ["Found " + NatToString(|results|) + " search results"])
    case Fail(m) =>
      t.(errorMessage := Some("Search error: " + m), rawSearchResults := [])
  }

  method WebSearchNode(s: ResearchState, env: Env) returns (r: ResearchState)
    ensures r == WebSearch(s, env)
  {
    r := s.(currentStep := "web_search");
    r := r.(progressMessages := r.progressMessages + ["Searching the web..."]);
    var response := env.search(r.query, r.maxResults);
    if response.Ok? {
      var results := response.value;
      r := r.(rawSearchResults := results);
      r := r.(progressMessages := r.progressMessages + ["Found " + NatToString(|results|) + " search results"]);
    } else {
      r := r.(errorMessage := Some("Search error: " + response.msg));
      r := r.(rawSearchResults := []);
    }
  }

  /** `WebSearchTool.search` swallows every fault, so with the real tool the search step never
      records an error: it keeps the state's error as it was and stores what the tool's
      normalisation of the backend's answer gives, asked for `max_results` results. */
  lemma WiredSearchNeverFails(s: ResearchState, backend: SearchBackend, fetch: Fetcher,
                              llm: (string, string) -> Result<string>,
                              accessDate: string, generatedAt: string, now: Timestamp)
    ensures var r := WebSearch(s, WiredEnv(backend, fetch, llm, accessDate, generatedAt, now));
      r.errorMessage == s.errorMessage && r.rawSearchResults == SearchSpec(backend, s.query, Some(s.maxResults))
  {
  }

  // ------------------------------------------------------------------
  // content_filter
  // ------------------------------------------------------------------

  /** `content_filter_node`: the raw results receive their scores in place (they are the same
      records the filter rewrites), and the filtered results are the filter's ranking cut to
      `max_results` with Python slice semantics. */
  function ContentFilter(s: ResearchState): (r: ResearchState)
    ensures r.currentStep == "content_filter"
    ensures r.rawSearchResults == Rescored(s.rawSearchResults, QueryTerms(s.query), DefaultMinSnippetLength)
    ensures r.filteredResults == PyPrefix(Filtered(s.rawSearchResults, s.query, DefaultMinSnippetLength), s.maxResults)
    ensures |r.filteredResults| <= |s.rawSearchResults|
    ensures s.maxResults >= 0 ==> |r.filteredResults| <= s.maxResults
    ensures r.progressMessages == s.progressMessages
      + ["Filtering relevant results...", "Filtered to " + NatToString(|r.filteredResults|) + " relevant sources"]
    ensures r.(currentStep := s.currentStep, progressMessages := s.progressMessages,
               rawSearchResults := s.rawSearchResults, filteredResults := s.filteredResults) == s
  {
    var t := Enter(s, "content_filter", "Filtering relevant results...");
    var ranked := Filtered(s.rawSearchResults, s.query, DefaultMinSnippetLength);
    FilteredLength(s.rawSearchResults, s.query, DefaultMinSnippetLength);
    var top := PyPrefix(ranked, s.maxResults);
    t.(rawSearchResults := Rescored(s.rawSearchResults, QueryTerms(s.query), DefaultMinSnippetLength),
       filteredResults := top,
       progressMessages := t.progressMessages + ["Filtered to " + NatToString(|top|) + " relevant sources"])
  }

  /** Every filtered result is a scored survivor of the (rescored) raw results, and the kept
      results are ranked by non-increasing score. */
  lemma ContentFilterKeepsRankedSurvivors(s: ResearchState)
    ensures SortedByScore(ContentFilter(s).filteredResults)
    ensures forall x :: x in ContentFilter(s).filteredResults ==>
      x in ContentFilter(s).rawSearchResults && LongEnough(x, DefaultMinSnippetLength) &&
      x.relevanceScore == Some(RecordScore(x, QueryTerms(s.query)))
  {
    var ranked := Filtered(s.rawSearchResults, s.query, DefaultMinSnippetLength);
    var top := ContentFilter(s).filteredResults;
    FilterResultsContract(s.rawSearchResults, s.query, DefaultMinSnippetLength);
    assert top == ranked[..|top|];
    forall x | x in top
      ensures x in ContentFilter(s).rawSearchResults && LongEnough(x, DefaultMinSnippetLength)
      ensures x.relevanceScore == Some(RecordScore(x, QueryTerms(s.query)))
    {
      assert x in ranked;
      FilteredElements(s.rawSearchResults, s.query, DefaultMinSnippetLength, x);
    }
  }

  method ContentFilterNode(s: ResearchState) returns (r: ResearchState)
    ensures r == ContentFilter(s)
  {
    r := s.(currentStep := "content_filter");
    r := r.(progressMessages := r.progressMessages + ["Filtering relevant results..."]);
    var raw := r.rawSearchResults;
    var results := new SearchResult[|raw|](i requires 0 <= i < |raw| => raw[i]);
    assert results[..] == raw;
    var filtered := FilterResults(results, r.query);
    r := r.(rawSearchResults := results[..]);
    r := r.(filteredResults := PyPrefix(filtered, r.maxResults));
    r := r.(progressMessages := r.progressMessages + ["Filtered to " + NatToString(|r.filteredResults|) + " relevant sources"]);
  }

  // ------------------------------------------------------------------
  // content_extraction
  // ------------------------------------------------------------------

  /** `[r["url"] for r in rs]`: a `KeyError` (message `'url'`) if some result has no url. */
  function Urls(rs: seq<SearchResult>): (r: Result<seq<string>>)
    ensures r.Ok? <==> forall i :: 0 <= i < |rs| ==> rs[i].url.Some?
    ensures r.Ok? ==> |r.value| == |rs| && forall i :: 0 <= i < |rs| ==> r.value[i] == rs[i].url.value
    ensures r.Fail? ==> r.msg == "'url'"
    decreases |rs|
  {
    if rs == [] then Ok([])
    else
      var init := rs[..|rs| - 1];
      var last := rs[|rs| - 1];
      assert forall i :: 0 <= i < |init| ==> init[i] == rs[i];
      match Urls(init)
      case Fail(m) => Fail(m)
      case Ok(us) => if last.url.None? then Fail("'url'") else Ok(us + [last.url.value])
  }

  /** `content_extraction_node`: extracts the urls of the first five filtered results, whatever
      `max_results` is; a result without a url is an extraction error that empties the
      extracted content. */
  function ContentExtraction(s: ResearchState, env: Env): (r: ResearchState)
    ensures r.currentStep == "content_extraction"
    ensures |r.extractedContent| <= TopSources && |r.extractedContent| <= |s.filteredResults|
    ensures Urls(PyPrefix(s.filteredResults, TopSources)).Fail? ==>
      r.extractedContent == [] && r.errorMessage == Some("Extraction error: 'url'") &&
      r.progressMessages == s.progressMessages + ["Extracting content from sources..."]
    ensures Urls(PyPrefix(s.filteredResults, TopSources)).Ok? ==>
      r.extractedContent == Successes(env.fetch, Urls(PyPrefix(s.filteredResults, TopSources)).value, MaxContentLength) &&
      r.errorMessage == s.errorMessage &&
      r.progressMessages == s.progressMessages
        + ["Extracting content from sources...", "Extracted content from " + NatToString(|r.extractedContent|) + " sources"]
    ensures r.(currentStep := s.currentStep, progressMessages := s.progressMessages,
               extractedContent := s.extractedContent, errorMessage := s.errorMessage) == s
  {
    var t := Enter(s, "content_extraction", "Extracting content from sources...");
    var top := PyPrefix(s.filteredResults, TopSources);
    match Urls(top)
    case Fail(m) =>
      assert "Extraction error: " + m == "Extraction error: 'url'";
      t.(errorMessage := Some("Extraction error: " + m), extractedContent := [])
    case Ok(urls) =>
      var pages := Successes(env.fetch, urls, MaxContentLength);
      PresentPlusMissing(Outcomes(env.fetch, urls, MaxContentLength));
      t.(extractedContent := pages,
         progressMessages := t.progressMessages + ["Extracted content from " + NatToString(|pages|) + " sources"])
  }

  /** Every extracted page belongs to one of the first five filtered results and is exactly
      what extracting that result's url gives. */
  lemma ContentExtractionPagesFromTopResults(s: ResearchState, env: Env)
    ensures forall p :: p in ContentExtraction(s, env).extractedContent ==>
      exists i :: (0 <= i < |s.filteredResults| && i < TopSources && s.filteredResults[i].url == Some(p.url) &&
                   Extract(env.fetch, p.url, MaxContentLength) == Some(p))
  {
    var top := PyPrefix(s.filteredResults, TopSources);
    if Urls(top).Ok? {
      var urls := Urls(top).value;
      var pages := Successes(env.fetch, urls, MaxContentLength);
      var idx := BatchExtractKeepsSuccessesInOrder(env.fetch, urls, MaxContentLength);
      forall p | p in pages
        ensures exists i :: (0 <= i < |s.filteredResults| && i < TopSources && s.filteredResults[i].url == Some(p.url) &&
                             Extract(env.fetch, p.url, MaxContentLength) == Some(p))
      {
        var k :| 0 <= k < |pages| && pages[k] == p;
        var i := idx[k];
        ExtractContract(env.fetch, urls[i], MaxContentLength);
        assert top[i] == s.filteredResults[i];
      }
    }
  }

  method ContentExtractionNode(s: ResearchState, env: Env) returns (r: ResearchState)
    ensures r == ContentExtraction(s, env)
  {
    r := s.(currentStep := "content_extraction");
    r := r.(progressMessages := r.progressMessages + ["Extracting content from sources..."]);
    var urls := Urls(PyPrefix(r.filteredResults, TopSources));
    if urls.Fail? {
      r := r.(errorMessage := Some("Extraction error: " + urls.msg));
      r := r.(extractedContent := []);
      return;
    }
    var extracted := BatchExtract(env.fetch, urls.value, MaxContentLength);
    r := r.(extractedContent := extracted);
    r := r.(progressMessages := r.progressMessages + ["Extracted content from " + NatToString(|extracted|) + " sources"]);
  }

  // ------------------------------------------------------------------
  // synthesizer
  // ------------------------------------------------------------------

  /** The chunk of one page in the synthesis input: its url and the first 2000 characters
      of its content. */
  function Chunk(p: Page): (c: string)
    ensures IsPrefixOf("Source: " + p.url + "\n", c)
    ensures |c| <= |"Source: " + p.url + "\n"| + ChunkContentLimit
    ensures c == "Source: " + p.url + "\n"
      + p.content[..if |p.content| < ChunkContentLimit then |p.content| else ChunkContentLimit]
  {
    "Source: " + p.url + "\n" + PyPrefix(p.content, ChunkContentLimit)
  }

  /** The chunks of `content_chunks`, one per page, in page order. */
  function Chunks(pages: seq<Page>): (cs: seq<string>)
    ensures |cs| == |pages|
    ensures forall i :: 0 <= i < |pages| ==> cs[i] == Chunk(pages[i])
    decreases |pages|
  {
    if pages == [] then []
    else
      var init := pages[..|pages| - 1];
      assert forall i :: 0 <= i < |init| ==> init[i] == pages[i];
      Chunks(init) + [Chunk(pages[|pages| - 1])]
  }

  /** What the synthesis prompt receives as `{content}`: the chunks joined by the separator
      and cut to 15000 characters. */
  function SynthesisContent(pages: seq<Page>): (c: string)
    ensures |c| <= SynthesisInputLimit
    ensures IsPrefixOf(c, Join(Chunks(pages), ChunkSeparator))
    ensures |Join(Chunks(pages), ChunkSeparator)| <= SynthesisInputLimit ==> c == Join(Chunks(pages), ChunkSeparator)
    ensures |c| == if |Join(Chunks(pages), ChunkSeparator)| < SynthesisInputLimit
      then |Join(Chunks(pages), ChunkSeparator)| else SynthesisInputLimit
  {
    PyPrefix(Join(Chunks(pages), ChunkSeparator), SynthesisInputLimit)
  }

  /** Below the length cap, every page's chunk reaches the language model. */
  lemma SynthesisContentHasEveryChunk(pages: seq<Page>, i: int)
    requires 0 <= i < |pages|
    requires |Join(Chunks(pages), ChunkSeparator)| <= SynthesisInputLimit
    ensures Contains(SynthesisContent(pages), Chunk(pages[i]))
  {
    JoinContainsEach(Chunks(pages), ChunkSeparator, i);
  }

  /** The user message of the synthesis prompt: the query, then the cut content. */
  function SynthesisMessage(query: string, pages: seq<Page>): (m: string)
    ensures IsPrefixOf("Research Query: " + query + "\n\nWeb Content:\n" + SynthesisContent(pages), m)
    ensures Contains(m, SynthesisContent(pages))
  {
    ContainsMiddle("Research Query: " + query + "\n\nWeb Content:\n", SynthesisContent(pages),
                   "\n\nProvide a comprehensive synthesis.");
    "Research Query: " + query + "\n\nWeb Content:\n" + SynthesisContent(pages) + "\n\nProvide a comprehensive synthesis."
  }

  /** `synthesizer_node`: asks the language model for a synthesis of the extracted pages; on
      failure the error is recorded and the synthesis is a fixed placeholder. */
  function Synthesizer(s: ResearchState, env: Env): (r: ResearchState)
    ensures r.currentStep == "synthesizer"
    ensures var reply := env.llm(SynthesisSystem, SynthesisMessage(s.query, s.extractedContent));
      (reply.Ok? ==>
        r.synthesizedContent == reply.value && r.errorMessage == s.errorMessage &&
        r.progressMessages == s.progressMessages + ["Synthesizing findings...", "Synthesized research findings"]) &&
      (reply.Fail? ==>
        r.synthesizedContent == "Error synthesizing content" &&
        r.errorMessage == Some("Synthesis error: " + reply.msg) &&
        r.progressMessages == s.progressMessages + ["Synthesizing findings..."])
    ensures r.(currentStep := s.currentStep, progressMessages := s.progressMessages,
               synthesizedContent := s.synthesizedContent, errorMessage := s.errorMessage) == s
  {
    var t := Enter(s, "synthesizer", "Synthesizing findings...");
    match env.llm(SynthesisSystem, SynthesisMessage(s.query, s.extractedContent))
    case Ok(text) =>
      t.(synthesizedContent := text, progressMessages := t.progressMessages + ["Synthesized research findings"])
    case Fail(m) =>
      t.(errorMessage := Some("Synthesis error: " + m), synthesizedContent := "Error synthesizing content")
  }

  /** The chunk loop of the synthesizer: one chunk per page, in page order. */
  method CollectChunks(items: seq<Page>) returns (contentChunks: seq<string>)
    ensures contentChunks == Chunks(items)
  {
    contentChunks := [];
    for i := 0 to |items|
      invariant contentChunks == Chunks(items[..i])
    {
      assert items[..i + 1][..i] == items[..i];
      contentChunks := contentChunks + ["Source: " + items[i].url + "\n" + PyPrefix(items[i].content, ChunkContentLimit)];
    }
    assert items[..|items|] == items;
  }

  method SynthesizerNode(s: ResearchState, env: Env) returns (r: ResearchState)
    ensures r == Synthesizer(s, env)
  {
    r := s.(currentStep := "synthesizer");
    r := r.(progressMessages := r.progressMessages + ["Synthesizing findings..."]);
    var items := r.extractedContent;
    var contentChunks := CollectChunks(items);
    var combined := Join(contentChunks, ChunkSeparator);
    var message := "Research Query: " + r.query + "\n\nWeb Content:\n" + PyPrefix(combined, SynthesisInputLimit)
      + "\n\nProvide a comprehensive synthesis.";
    assert message == SynthesisMessage(s.query, s.extractedContent);
    var response := env.llm(SynthesisSystem, message);
    if response.Ok? {
      r := r.(synthesizedContent := response.value);
      r := r.(progressMessages := r.progressMessages + ["Synthesized research findings"]);
    } else {
      r := r.(errorMessage := Some("Synthesis error: " + response.msg));
      r := r.(synthesizedContent := "Error synthesizing content");
    }
  }

  // ------------------------------------------------------------------
  // citation_handler
  // ------------------------------------------------------------------

  /** The citation of one filtered result; a missing title reads `Unknown`, the other
      missing keys read as empty. */
  function CitationOf(r: SearchResult, accessedDate: string): Citation {
    Citation(r.title.GetOr("Unknown"), r.url.GetOr(""), r.source.GetOr(""), accessedDate, r.snippet.GetOr(""))
  }

  /** One citation per result, in result order, all with the same access date. */
  function CitationsOf(rs: seq<SearchResult>, accessedDate: string): (cs: seq<Citation>)
    ensures |cs| == |rs|
    ensures forall i :: 0 <= i < |rs| ==> cs[i] == CitationOf(rs[i], accessedDate)
    ensures forall i :: 0 <= i < |rs| ==>
      cs[i].accessedDate == accessedDate && cs[i].url == rs[i].url.GetOr("") &&
      (rs[i].title.None? ==> cs[i].title == "Unknown")
    decreases |rs|
  {
    if rs == [] then []
    else
      var init := rs[..|rs| - 1];
      assert forall i :: 0 <= i < |init| ==> init[i] == rs[i];
      CitationsOf(init, accessedDate) + [CitationOf(rs[|rs| - 1], accessedDate)]
  }

  /** `citation_handler_node`: one citation per filtered result, stamped with the access date. */
  function CitationHandler(s: ResearchState, env: Env): (r: ResearchState)
    ensures r.currentStep == "citation_handler"
    ensures r.citations == CitationsOf(s.filteredResults, env.accessDate)
    ensures |r.citations| == |s.filteredResults|
    ensures r.progressMessages == s.progressMessages
      + ["Generating citations...", "Generated " + NatToString(|s.filteredResults|) + " citations"]
    ensures r.(currentStep := s.currentStep, progressMessages := s.progressMessages, citations := s.citations) == s
  {
    var t := Enter(s, "citation_handler", "Generating citations...");
    var cites := CitationsOf(s.filteredResults, env.accessDate);
    t.(citations := cites, progressMessages := t.progressMessages + ["Generated " + NatToString(|cites|) + " citations"])
  }

  method CitationHandlerNode(s: ResearchState, env: Env) returns (r: ResearchState)
    ensures r == CitationHandler(s, env)
  {
    r := s.(currentStep := "citation_handler");
    r := r.(progressMessages := r.progressMessages + ["Generating citations..."]);
    var results := r.filteredResults;
    var citations: seq<Citation> := [];
    var accessedDate := env.accessDate;
    for i := 0 to |results|
      invariant citations == CitationsOf(results[..i], accessedDate)
    {
      assert results[..i + 1][..i] == results[..i];
      var result := results[i];
      var citation := Citation(
        result.title.GetOr("Unknown"), result.url.GetOr(""), result.source.GetOr(""),
        accessedDate, result.snippet.GetOr(""));
      citations := citations + [citation];
    }
    assert results[..|results|] == results;
    r := r.(citations := citations);
    r := r.(progressMessages := r.progressMessages + ["Generated " + NatToString(|citations|) + " citations"]);
  }

  // ------------------------------------------------------------------
  // report_generator
  // ------------------------------------------------------------------

  /** One Key Sources line, `- title: url`; a missing key is a `KeyError` naming it, the title
      being looked up first. */
  function KeySourceLine(r: SearchResult): (line: Result<string>)
    ensures line.Ok? <==> r.title.Some? && r.url.Some?
    ensures line.Ok? ==> line.value == "- " + r.title.value + ": " + r.url.value
    ensures line.Fail? ==> line.msg == if r.title.None? then "'title'" else "'url'"
  {
    if r.title.None? then Fail("'title'")
    else if r.url.None? then Fail("'url'")
    else Ok("- " + r.title.value + ": " + r.url.value)
  }

  /** The Key Sources lines, in order; the first result with a missing key raises. */
  function KeySourceLines(rs: seq<SearchResult>): (lines: Result<seq<string>>)
    ensures lines.Ok? <==> forall i :: 0 <= i < |rs| ==> KeySourceLine(rs[i]).Ok?
    ensures lines.Ok? ==>
      |lines.value| == |rs| && forall i :: 0 <= i < |rs| ==> lines.value[i] == KeySourceLine(rs[i]).value
    decreases |rs|
  {
    if rs == [] then Ok([])
    else
      var init := rs[..|rs| - 1];
      assert forall i :: 0 <= i < |init| ==> init[i] == rs[i];
      match KeySourceLines(init)
      case Fail(m) => Fail(m)
      case Ok(ls) =>
        match KeySourceLine(rs[|rs| - 1])
        case Fail(m) => Fail(m)
        case Ok(l) => Ok(ls + [l])
  }

  /** The three report sections, in their fixed order. */
  function Sections(summary: string, findings: string, keySources: string): seq<Section> {
    [Section("Executive Summary", summary), Section("Research Findings", findings), Section("Key Sources", keySources)]
  }

  /** The markdown block of one section. */
  function SectionBlock(sec: Section): string {
    "## " + sec.heading + "\n\n" + sec.content + "\n\n"
  }

  /** The section blocks, appended in order. */
  function SectionsText(secs: seq<Section>): string
    decreases |secs|
  {
    if secs == [] then "" else SectionsText(secs[..|secs| - 1]) + SectionBlock(secs[|secs| - 1])
  }

  /** One numbered reference line. */
  function ReferenceLine(number: nat, c: Citation): string {
    NatToString(number) + ". " + c.title + ". Retrieved " + c.accessedDate + " from " + c.url + "\n"
  }

  /** The reference lines, numbered from 1 in citation order. */
  function ReferenceLines(cs: seq<Citation>): (lines: seq<string>)
    ensures |lines| == |cs|
    ensures forall i :: 0 <= i < |cs| ==> lines[i] == ReferenceLine(i + 1, cs[i])
    decreases |cs|
  {
    if cs == [] then []
    else
      var init := cs[..|cs| - 1];
      assert forall i :: 0 <= i < |init| ==> init[i] == cs[i];
      ReferenceLines(init) + [ReferenceLine(|cs|, cs[|cs| - 1])]
  }

  /** The References block: present exactly when citations are enabled and there is at least
      one, in which case it is the heading followed by the numbered lines. */
  function ReferencesBlock(includeCitations: bool, cs: seq<Citation>): (block: string)
    ensures block == "" <==> !(includeCitations && cs != [])
    ensures block != "" ==> block == "## References\n\n" + Concat(ReferenceLines(cs))
  {
    if includeCitations && cs != [] then "## References\n\n" + Concat(ReferenceLines(cs)) else ""
  }

  /** The report header: title, query, generation time and a rule. */
  function ReportHeader(title: string, query: string, generatedAt: string): string {
    "# " + title + "\n\n" + "**Research Query:** " + query + "\n\n" + "**Generated:** " + generatedAt + "\n\n" + "---\n\n"
  }

  /** The whole report: header, the section blocks in order, then the References block. */
  function ReportMarkdown(title: string, query: string, generatedAt: string, secs: seq<Section>,
                          includeCitations: bool, cs: seq<Citation>): (md: string)
    ensures IsPrefixOf("# " + title + "\n\n", md)
  {
    var header := ReportHeader(title, query, generatedAt);
    var md := header + SectionsText(secs) + ReferencesBlock(includeCitations, cs);
    assert md[..|"# " + title + "\n\n"|] == header[..|"# " + title + "\n\n"|];
    md
  }

  /** The state after a fault in the report step: partial updates stay, the error is recorded
      and the markdown is the error page. */
  function ReportFailed(t: ResearchState, m: string): ResearchState {
    t.(errorMessage := Some("Report generation error: " + m), reportMarkdown := "# Error Generating Report\n\n" + m)
  }

  /** The user message of the title prompt. */
  function TitleMessage(query: string): (m: string)
    ensures IsPrefixOf("Research Query: ", m) && m[|"Research Query: "|..] == query
  {
    "Research Query: " + query
  }

  /** The user message of the summary prompt: the query and the first 3000 characters of the
      synthesis. */
  function SummaryMessage(query: string, synthesis: string): (m: string)
    ensures m == "Research Query: " + query + "\n\nFindings: "
      + synthesis[..if |synthesis| < SummaryInputLimit then |synthesis| else SummaryInputLimit]
  {
    "Research Query: " + query + "\n\nFindings: " + PyPrefix(synthesis, SummaryInputLimit)
  }

  /** `report_generator_node`: title, then summary, then the sections, then the markdown; a
      fault at any stage keeps the updates already made and records the error. */
  function ReportGenerator(s: ResearchState, env: Env): ResearchState {
    var t := Enter(s, "report_generator", "Generating final report...");
    match env.llm(TitleSystem, TitleMessage(s.query))
    case Fail(m) => ReportFailed(t, m)
    case Ok(rawTitle) =>
      var t1 := t.(reportTitle := StripChar(rawTitle, '"'));
      match env.llm(SummarySystem, SummaryMessage(s.query, s.synthesizedContent))
      case Fail(m) => ReportFailed(t1, m)
      case Ok(summary) =>
        var t2 := t1.(executiveSummary := summary);
        match KeySourceLines(PyPrefix(s.filteredResults, TopSources))
        case Fail(m) => ReportFailed(t2, m)
        case Ok(lines) =>
          var secs := Sections(summary, s.synthesizedContent, Join(lines, "\n"));
          var t3 := t2.(reportSections := secs);
          t3.(reportMarkdown := ReportMarkdown(t3.reportTitle, s.query, env.generatedAt, secs, s.includeCitations, s.citations),
              progressMessages := t3.progressMessages + ["Report generated successfully"])
  }

  /** The three fallible stages of the report step all succeed: the title call, the summary
      call, and the Key Sources lines. */
  predicate ReportSucceeds(s: ResearchState, env: Env) {
    env.llm(TitleSystem, TitleMessage(s.query)).Ok?
    && env.llm(SummarySystem, SummaryMessage(s.query, s.synthesizedContent)).Ok?
    && KeySourceLines(PyPrefix(s.filteredResults, TopSources)).Ok?
  }

  /** Whatever its outcome, the report step records its name and never touches the inputs,
      the results, the synthesis, the citations or the completion time. */
  lemma ReportGeneratorFrame(s: ResearchState, env: Env)
    ensures var r := ReportGenerator(s, env);
      r.currentStep == "report_generator" && SameInputs(s, r) &&
      r.filteredResults == s.filteredResults && r.citations == s.citations &&
      r.synthesizedContent == s.synthesizedContent && r.completedAt == s.completedAt &&
      r.(currentStep := s.currentStep, progressMessages := s.progressMessages, reportTitle := s.reportTitle,
         executiveSummary := s.executiveSummary, reportSections := s.reportSections,
         reportMarkdown := s.reportMarkdown, errorMessage := s.errorMessage) == s
  {
    var t := Enter(s, "report_generator", "Generating final report...");
    assert SameInputs(s, t);
    if !ReportSucceeds(s, env) {
      var r := ReportGenerator(s, env);
      assert r.(reportTitle := t.reportTitle, executiveSummary := t.executiveSummary,
                errorMessage := t.errorMessage, reportMarkdown := t.reportMarkdown) == t;
    }
  }

  /** On success: a title without surrounding quotes, exactly three sections in the fixed
      order with at most five Key Sources lines, the markdown opening with the title and
      ending with the References block exactly when citations are enabled and present. */
  lemma ReportGeneratorSuccess(s: ResearchState, env: Env)
    requires ReportSucceeds(s, env)
    ensures var r := ReportGenerator(s, env);
      var title := env.llm(TitleSystem, TitleMessage(s.query)).value;
      var summary := env.llm(SummarySystem, SummaryMessage(s.query, s.synthesizedContent)).value;
      var lines := KeySourceLines(PyPrefix(s.filteredResults, TopSources)).value;
      |lines| <= TopSources
      && r.errorMessage == s.errorMessage
      && r.reportTitle == StripChar(title, '"')
      && (r.reportTitle != [] ==> r.reportTitle[0] != '"' && r.reportTitle[|r.reportTitle| - 1] != '"')
      && r.executiveSummary == summary
      && r.reportSections == Sections(summary, s.synthesizedContent, Join(lines, "\n"))
      && IsPrefixOf("# " + r.reportTitle + "\n\n", r.reportMarkdown)
      && r.reportMarkdown == ReportHeader(r.reportTitle, s.query, env.generatedAt)
           + SectionsText(r.reportSections) + ReferencesBlock(s.includeCitations, s.citations)
      && r.progressMessages == s.progressMessages + ["Generating final report...", "Report generated successfully"]
  {
  }

  /** On a fault at any of the three stages: the error is recorded and the markdown is the
      error page, and the success message is not logged. The stages done before the fault
      keep their updates: the stripped title once the title call succeeded, the summary once
      the summary call did too; the sections are never written. */
  lemma ReportGeneratorFailure(s: ResearchState, env: Env)
    requires !ReportSucceeds(s, env)
    ensures var r := ReportGenerator(s, env);
      r.errorMessage.Some? && IsPrefixOf("Report generation error: ", r.errorMessage.value) &&
      IsPrefixOf("# Error Generating Report", r.reportMarkdown) &&
      r.progressMessages == s.progressMessages + ["Generating final report..."] &&
      r.reportSections == s.reportSections &&
      r.reportTitle == (match env.llm(TitleSystem, TitleMessage(s.query))
                        case Ok(title) => StripChar(title, '"')
                        case Fail(_) => s.reportTitle) &&
      r.executiveSummary == (if env.llm(TitleSystem, TitleMessage(s.query)).Ok?
                                && env.llm(SummarySystem, SummaryMessage(s.query, s.synthesizedContent)).Ok?
                             then env.llm(SummarySystem, SummaryMessage(s.query, s.synthesizedContent)).value
                             else s.executiveSummary)
  {
    var r := ReportGenerator(s, env);
    var m := r.errorMessage.value[|"Report generation error: "|..];
    assert r.errorMessage.value == "Report generation error: " + m;
    assert r.reportMarkdown == "# Error Generating Report\n\n" + m;
  }

  /** Whatever its outcome, the report step leaves a non-empty page. */
  lemma ReportGeneratorWritesMarkdown(s: ResearchState, env: Env)
    ensures ReportGenerator(s, env).reportMarkdown != ""
  {
    if ReportSucceeds(s, env) {
      ReportGeneratorSuccess(s, env);
    } else {
      ReportGeneratorFailure(s, env);
    }
  }

  /** The markdown the report step assembles with `+=`: header, one block per section, and
      the numbered references when enabled. */
  method AssembleMarkdown(title: string, query: string, generatedAt: string, sections: seq<Section>,
                          includeCitations: bool, citations: seq<Citation>) returns (markdown: string)
    ensures markdown == ReportMarkdown(title, query, generatedAt, sections, includeCitations, citations)
  {
    markdown := "# " + title + "\n\n";
    markdown := markdown + "**Research Query:** " + query + "\n\n";
    markdown := markdown + "**Generated:** " + generatedAt + "\n\n";
    markdown := markdown + "---\n\n";
    markdown := AppendSections(markdown, sections);
    if includeCitations && citations != [] {
      markdown := markdown + "## References\n\n";
      markdown := AppendReferences(markdown, citations);
    }
  }

  /** The section loop: one `## heading` block per section, in order. */
  method AppendSections(start: string, sections: seq<Section>) returns (markdown: string)
    ensures markdown == start + SectionsText(sections)
  {
    markdown := start;
    for i := 0 to |sections|
      invariant markdown == start + SectionsText(sections[..i])
    {
      assert sections[..i + 1][..i] == sections[..i];
      assert SectionsText(sections[..i + 1]) == SectionsText(sections[..i]) + SectionBlock(sections[i]);
      markdown := markdown + "## " + sections[i].heading + "\n\n" + sections[i].content + "\n\n";
    }
    assert sections[..|sections|] == sections;
  }

  /** One turn of the reference loop appends the next numbered line. */
  lemma AppendReferenceStep(start: string, citations: seq<Citation>, i: nat)
    requires i < |citations|
    ensures start + Concat(ReferenceLines(citations[..i])) + ReferenceLine(i + 1, citations[i])
         == start + Concat(ReferenceLines(citations[..i + 1]))
  {
    var init := citations[..i];
    assert citations[..i + 1] == init + [citations[i]];
    assert (init + [citations[i]])[..i] == init;
    var lines := ReferenceLines(init);
    assert ReferenceLines(citations[..i + 1]) == lines + [ReferenceLine(i + 1, citations[i])];
    ConcatSnoc(lines, ReferenceLine(i + 1, citations[i]));
  }

  /** The reference loop: the citations numbered from 1, one line each. */
  method AppendReferences(start: string, citations: seq<Citation>) returns (markdown: string)
    ensures markdown == start + Concat(ReferenceLines(citations))
  {
    markdown := start;
    for i := 0 to |citations|
      invariant markdown == start + Concat(ReferenceLines(citations[..i]))
    {
      var line := NatToString(i + 1) + ". " + citations[i].title + ". Retrieved " + citations[i].accessedDate
        + " from " + citations[i].url + "\n";
      assert line == ReferenceLine(i + 1, citations[i]);
      AppendReferenceStep(start, citations, i);
      markdown := markdown + line;
    }
    assert citations[..|citations|] == citations;
  }

  method ReportGeneratorNode(s: ResearchState, env: Env) returns (r: ResearchState)
    ensures r == ReportGenerator(s, env)
  {
    r := s.(currentStep := "report_generator");
    r := r.(progressMessages := r.progressMessages + ["Generating final report..."]);
    var titleResponse := env.llm(TitleSystem, TitleMessage(r.query));
    if titleResponse.Fail? {
      r := r.(errorMessage := Some("Report generation error: " + titleResponse.msg));
      r := r.(reportMarkdown := "# Error Generating Report\n\n" + titleResponse.msg);
      return;
    }
    r := r.(reportTitle := StripChar(titleResponse.value, '"'));
    var summaryResponse := env.llm(SummarySystem, SummaryMessage(r.query, r.synthesizedContent));
    if summaryResponse.Fail? {
      r := r.(errorMessage := Some("Report generation error: " + summaryResponse.msg));
      r := r.(reportMarkdown := "# Error Generating Report\n\n" + summaryResponse.msg);
      return;
    }
    r := r.(executiveSummary := summaryResponse.value);
    var lines := KeySourceLines(PyPrefix(r.filteredResults, TopSources));
    if lines.Fail? {
      r := r.(errorMessage := Some("Report generation error: " + lines.msg));
      r := r.(reportMarkdown := "# Error Generating Report\n\n" + lines.msg);
      return;
    }
    var sections := [
      Section("Executive Summary", r.executiveSummary),
      Section("Research Findings", r.synthesizedContent),
      Section("Key Sources", Join(lines.value, "\n"))];
    r := r.(reportSections := sections);

    var markdown := AssembleMarkdown(r.reportTitle, r.query, env.generatedAt, sections, r.includeCitations, r.citations);
    r := r.(reportMarkdown := markdown);
    r := r.(progressMessages := r.progressMessages + ["Report generated successfully"]);
  }

  // ------------------------------------------------------------------
  // error_handler
  // ------------------------------------------------------------------

  /** How an f-string renders the error field: the message, or `None` when there is none. */
  function ErrorText(e: Option<string>): string {
    match e case Some(m) => m case None => "None"
  }

  const ErrorHeading: string := "# Research Report - Error"
  const ErrorClosing: string := "Please try again or contact support if the issue persists."

  /** The error page. */
  function ErrorReport(query: string, error: Option<string>, step: string): string {
    ErrorHeading + "\n\n" + "**Query:** " + query + "\n\n" + "**Error:** " + ErrorText(error) + "\n\n"
    + "**Step Failed:** " + step + "\n\n" + ErrorClosing
  }

  /** `error_handler_node`: the step is recorded first, so the page's Step Failed line names
      the error handler itself; the page shows the query and the error; the run is stamped
      complete; the error stays set and no progress message is added. */
  function ErrorHandler(s: ResearchState, env: Env): (r: ResearchState)
    ensures r.currentStep == "error_handler"
    ensures r.reportMarkdown == ErrorReport(s.query, s.errorMessage, "error_handler")
    ensures r.completedAt == Some(env.now)
    ensures r.(currentStep := s.currentStep, reportMarkdown := s.reportMarkdown, completedAt := s.completedAt) == s
  {
    var t := s.(currentStep := "error_handler");
    t.(reportMarkdown := ErrorReport(t.query, t.errorMessage, t.currentStep), completedAt := Some(env.now))
  }

  /** The error page opens with its heading. */
  lemma ErrorReportHeading(query: string, error: Option<string>)
    ensures IsPrefixOf(ErrorHeading, ErrorReport(query, error, "error_handler"))
  {
    var page := ErrorReport(query, error, "error_handler");
    assert page[..|ErrorHeading|] == ErrorHeading;
  }

  /** The error handler always leaves a non-empty page. */
  lemma ErrorHandlerWritesMarkdown(s: ResearchState, env: Env)
    ensures ErrorHandler(s, env).reportMarkdown != ""
  {
    ErrorReportHeading(s.query, s.errorMessage);
  }

  /** The error page shows the query. */
  lemma ErrorReportShowsQuery(query: string, error: Option<string>)
    ensures Contains(ErrorReport(query, error, "error_handler"), query)
  {
    var x := ErrorHeading + "\n\n" + "**Query:** " + query;
    ContainsSuffix(ErrorHeading + "\n\n" + "**Query:** ", query);
    var pieces := ["\n\n", "**Error:** ", ErrorText(error), "\n\n", "**Step Failed:** ", "error_handler", "\n\n", ErrorClosing];
    ContainsExtend(x, pieces[0], query);
    ContainsExtend(x + pieces[0], pieces[1], query);
    ContainsExtend(x + pieces[0] + pieces[1], pieces[2], query);
    ContainsExtend(x + pieces[0] + pieces[1] + pieces[2], pieces[3], query);
    ContainsExtend(x + pieces[0] + pieces[1] + pieces[2] + pieces[3], pieces[4], query);
    ContainsExtend(x + pieces[0] + pieces[1] + pieces[2] + pieces[3] + pieces[4], pieces[5], query);
    ContainsExtend(x + pieces[0] + pieces[1] + pieces[2] + pieces[3] + pieces[4] + pieces[5], pieces[6], query);
    ContainsExtend(x + pieces[0] + pieces[1] + pieces[2] + pieces[3] + pieces[4] + pieces[5] + pieces[6], pieces[7], query);
  }

  /** The error page shows the error message. */
  lemma ErrorReportShowsError(query: string, error: Option<string>)
    ensures Contains(ErrorReport(query, error, "error_handler"), ErrorText(error))
  {
    var e := ErrorText(error);
    var x := ErrorHeading + "\n\n" + "**Query:** " + query + "\n\n" + "**Error:** " + e;
    ContainsSuffix(ErrorHeading + "\n\n" + "**Query:** " + query + "\n\n" + "**Error:** ", e);
    var pieces := ["\n\n", "**Step Failed:** ", "error_handler", "\n\n", ErrorClosing];
    ContainsExtend(x, pieces[0], e);
    ContainsExtend(x + pieces[0], pieces[1], e);
    ContainsExtend(x + pieces[0] + pieces[1], pieces[2], e);
    ContainsExtend(x + pieces[0] + pieces[1] + pieces[2], pieces[3], e);
    ContainsExtend(x + pieces[0] + pieces[1] + pieces[2] + pieces[3], pieces[4], e);
  }

  /** The Step Failed line names the error handler. */
  lemma ErrorReportNamesErrorHandler(query: string, error: Option<string>)
    ensures Contains(ErrorReport(query, error, "error_handler"), "**Step Failed:** error_handler")
  {
    var page := ErrorReport(query, error, "error_handler");
    var before := ErrorHeading + "\n\n" + "**Query:** " + query + "\n\n" + "**Error:** " + ErrorText(error) + "\n\n";
    var after := "\n\n" + ErrorClosing;
    assert page == before + "**Step Failed:** error_handler" + after;
    ContainsMiddle(before, "**Step Failed:** error_handler", after);
  }

  method ErrorHandlerNode(s: ResearchState, env: Env) returns (r: ResearchState)
    ensures r == ErrorHandler(s, env)
  {
    r := s.(currentStep := "error_handler");
    var errorReport := ErrorHeading + "\n\n";
    errorReport := errorReport + "**Query:** " + r.query + "\n\n";
    errorReport := errorReport + "**Error:** " + ErrorText(r.errorMessage) + "\n\n";
    errorReport := errorReport + "**Step Failed:** " + r.currentStep + "\n\n";
    errorReport := errorReport + ErrorClosing;
    r := r.(reportMarkdown := errorReport);
    r := r.(completedAt := Some(env.now));
  }
}
