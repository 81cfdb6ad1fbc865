/** The three tools the workflow steps call: web search with record normalisation, content
    extraction with truncation, and relevance filtering with a stable ranking.
    The search engine client and the HTTP fetch with its HTML-to-text conversion are
    parameters: functions that either return a value or fail with a message. */
module Tools {
  import opened Wrappers
  import opened PyStr
  import opened State

  /** `settings.max_search_results`. */
  const MaxSearchResults: int := 10
  /** `settings.max_content_length`. */
  const MaxContentLength: nat := 50000
  /** The default `min_snippet_length` of `filter_results`. */
  const DefaultMinSnippetLength: int := 50

  // ------------------------------------------------------------------
  // WebSearchTool
  // ------------------------------------------------------------------

  /** A record as the search engine returns it; each key may be absent. */
  datatype RawRecord = RawRecord(title: Option<string>, href: Option<string>, body: Option<string>)

  /** The search engine's `text(query, max_results=n)`: the records, or the fault it raised. */
  type SearchBackend = (string, int) -> Result<seq<RawRecord>>

  /** `max_results or self.max_results`: a missing or zero limit falls back to the setting. */
  function ResultsLimit(maxResults: Option<int>): int {
    if maxResults == None || maxResults == Some(0) then MaxSearchResults else maxResults.value
  }

  /** The `source` of a record: `href.split('/')[2]` when `href` is non-empty (an `IndexError`
      when it has fewer than three segments), `""` otherwise. */
  function SourceOf(href: string): Result<string> {
    if href == "" then Ok("")
    else
      var parts := SplitOn(href, '/');
      if |parts| > 2 then Ok(parts[2]) else Fail("list index out of range")
  }

  /** For a URL `scheme://host` or `scheme://host/path` the source is the host. */
  lemma SourceOfUrlIsHost(scheme: string, host: string, path: string)
    requires forall i :: 0 <= i < |scheme| ==> scheme[i] != '/'
    requires forall i :: 0 <= i < |host| ==> host[i] != '/'
    ensures SourceOf(scheme + "//" + host) == Ok(host)
    ensures SourceOf(scheme + "//" + host + "/" + path) == Ok(host)
  {
    HostIsThirdSegment(scheme, host);
    HostIsThirdSegmentWithPath(scheme, host, path);
  }

  /** One record normalised to the four keys title, url, snippet and source. */
  function Normalize(r: RawRecord): Result<SearchResult> {
    var href := r.href.GetOr("");
    match SourceOf(href)
    case Fail(m) => Fail(m)
    case Ok(source) =>
      Ok(SearchResult(Some(r.title.GetOr("")), Some(href), Some(r.body.GetOr("")), Some(source), None))
  }

  /** The append loop over the records: it stops at the first record that raises. */
  function NormalizeAll(records: seq<RawRecord>): Result<seq<SearchResult>>
    decreases |records|
  {
    if records == [] then Ok([])
    else
      match NormalizeAll(records[..|records| - 1])
      case Fail(m) => Fail(m)
      case Ok(rs) =>
        match Normalize(records[|records| - 1])
        case Fail(m) => Fail(m)
        case Ok(r) => Ok(rs + [r])
  }

  /** What `WebSearchTool.search` returns: the normalised records, or `[]` on any fault. */
  function SearchSpec(backend: SearchBackend, query: string, maxResults: Option<int>): seq<SearchResult> {
    match backend(query, ResultsLimit(maxResults))
    case Fail(_) => []
    case Ok(records) =>
      match NormalizeAll(records)
      case Fail(_) => []
      case Ok(rs) => rs
  }

  /** Once a prefix of the records fails to normalise, the whole batch does. */
  lemma {:induction false} NormalizeAllFailsOnward(records: seq<RawRecord>, j: nat)
    requires j <= |records| && NormalizeAll(records[..j]).Fail?
    ensures NormalizeAll(records).Fail?
    decreases |records| - j
  {
    if j < |records| {
      assert records[..j + 1][..j] == records[..j];
      NormalizeAllFailsOnward(records, j + 1);
    } else {
      assert records[..j] == records;
    }
  }

  /** `WebSearchTool.search`: query the engine with the resolved limit, append one normalised
      record per result, and return `[]` if anything raises. */
  method Search(backend: SearchBackend, query: string, maxResults: Option<int> := None)
    returns (results: seq<SearchResult>)
    ensures results == SearchSpec(backend, query, maxResults)
  {
    var limit := ResultsLimit(maxResults);
    var response := backend(query, limit);
    if response.Fail? {
      return [];
    }
    var records := response.value;
    results := [];
    var i := 0;
    while i < |records|
      invariant 0 <= i <= |records|
      invariant NormalizeAll(records[..i]) == Ok(results)
    {
      assert records[..i + 1][..i] == records[..i];
      var normalized := Normalize(records[i]);
      if normalized.Fail? {
        NormalizeAllFailsOnward(records, i + 1);
        return [];
      }
      results := results + [normalized.value];
      i := i + 1;
    }
    assert records[..i] == records;
  }

  /** Normalisation succeeds record by record, keeps the count and the order, and fails
      exactly when some record has a non-empty `href` with fewer than three segments. */
  lemma {:induction false} NormalizeAllShape(records: seq<RawRecord>)
    ensures NormalizeAll(records).Ok? <==> forall i :: 0 <= i < |records| ==> Normalize(records[i]).Ok?
    ensures NormalizeAll(records).Ok? ==>
      |NormalizeAll(records).value| == |records| &&
      forall i :: 0 <= i < |records| ==> NormalizeAll(records).value[i] == Normalize(records[i]).value
    decreases |records|
  {
    if records != [] {
      var init := records[..|records| - 1];
      NormalizeAllShape(init);
      assert forall i :: 0 <= i < |init| ==> init[i] == records[i];
    }
  }

  /** The contract of `search`: it never raises; on an engine fault or a malformed `href` it
      returns `[]`; otherwise one record per engine result, in order, each with all four keys,
      the `""` defaults, and `source` the third `/`-segment of `href`. */
  lemma SearchNormalises(backend: SearchBackend, query: string, maxResults: Option<int>)
    ensures backend(query, ResultsLimit(maxResults)).Fail? ==> SearchSpec(backend, query, maxResults) == []
    ensures forall r :: r in SearchSpec(backend, query, maxResults) ==>
      r.title.Some? && r.url.Some? && r.snippet.Some? && r.source.Some? && r.relevanceScore.None?
    ensures backend(query, ResultsLimit(maxResults)).Ok? ==>
      var records := backend(query, ResultsLimit(maxResults)).value;
      var results := SearchSpec(backend, query, maxResults);
      if forall i :: 0 <= i < |records| ==> SourceOf(records[i].href.GetOr("")).Ok? then
        |results| == |records| &&
        forall i :: 0 <= i < |records| ==>
          results[i].title == Some(records[i].title.GetOr("")) &&
          results[i].url == Some(records[i].href.GetOr("")) &&
          results[i].snippet == Some(records[i].body.GetOr("")) &&
          results[i].source == Some(if records[i].href.GetOr("") == "" then ""
                                    else SplitOn(records[i].href.GetOr(""), '/')[2])
      else results == []
  {
    var response := backend(query, ResultsLimit(maxResults));
    if response.Ok? {
      NormalizeAllShape(response.value);
    }
  }

  // ------------------------------------------------------------------
  // ContentExtractor
  // ------------------------------------------------------------------

  /** `requests.get(url)` with `raise_for_status()`, the markup clean-up and the HTML-to-text
      conversion: the page text, or the fault raised on the way. */
  type Fetcher = string -> Result<string>

  /** The truncation policy: text longer than the cap is cut to it and marked with `...`. */
  function Truncated(text: string, maxContentLength: nat): string {
    if |text| > maxContentLength then text[..maxContentLength] + "..." else text
  }

  /** `ContentExtractor.extract`: `None` on any fault; otherwise the url and the truncated
      text, stripped of surrounding whitespace. */
  function Extract(fetch: Fetcher, url: string, maxContentLength: nat): Option<Page> {
    match fetch(url)
    case Fail(_) => None
    case Ok(text) => Some(Page(url, Strip(Truncated(text, maxContentLength))))
  }

  /** `extract` never raises: it yields nothing exactly when fetching fails; otherwise a page
      for the same url whose content is at most the cap plus the three-character marker, is
      free of surrounding whitespace, occurs in the (truncated) text, and is the whole text
      stripped when the text is within the cap. */
  lemma ExtractContract(fetch: Fetcher, url: string, maxContentLength: nat)
    ensures Extract(fetch, url, maxContentLength).None? <==> fetch(url).Fail?
    ensures Extract(fetch, url, maxContentLength).Some? ==>
      var page := Extract(fetch, url, maxContentLength).value;
      var text := fetch(url).value;
      page.url == url &&
      |page.content| <= maxContentLength + 3 &&
      (page.content != [] ==> !IsSpace(page.content[0]) && !IsSpace(page.content[|page.content| - 1])) &&
      Contains(Truncated(text, maxContentLength), page.content) &&
      (|text| <= maxContentLength ==> page.content == Strip(text)) &&
      (|text| > maxContentLength ==> page.content == Strip(text[..maxContentLength] + "..."))
  {
  }

  /** The values present in a list of outcomes, in order. */
  function Present<T>(os: seq<Option<T>>): seq<T>
    decreases |os|
  {
    if os == [] then []
    else Present(os[..|os| - 1]) + (if os[|os| - 1].Some? then [os[|os| - 1].value] else [])
  }

  /** The number of missing outcomes. */
  function Missing<T>(os: seq<Option<T>>): nat
    decreases |os|
  {
    if os == [] then 0 else Missing(os[..|os| - 1]) + (if os[|os| - 1].None? then 1 else 0)
  }

  lemma PresentSnoc<T>(os: seq<Option<T>>, o: Option<T>)
    ensures Present(os + [o]) == Present(os) + (if o.Some? then [o.value] else [])
    ensures Missing(os + [o]) == Missing(os) + (if o.None? then 1 else 0)
  {
    assert (os + [o])[..|os|] == os;
  }

  /** Every outcome is either present or missing. */
  lemma {:induction false} PresentPlusMissing<T>(os: seq<Option<T>>)
    ensures |Present(os)| + Missing(os) == |os|
    decreases |os|
  {
    if os != [] {
      PresentPlusMissing(os[..|os| - 1]);
    }
  }

  /** `idx` locates `Present(os)` in `os`: value k is the outcome at position idx[k], the
      positions strictly increase, and every present outcome is among them. */
  ghost predicate Locates<T>(os: seq<Option<T>>, idx: seq<nat>) {
    |idx| == |Present(os)|
    && (forall k :: 0 <= k < |idx| ==> idx[k] < |os| && os[idx[k]] == Some(Present(os)[k]))
    && (forall k, l :: 0 <= k < l < |idx| ==> idx[k] < idx[l])
    && (forall i :: 0 <= i < |os| && os[i].Some? ==> i in idx)
  }

  /** Appending a missing outcome keeps the positions. */
  lemma LocatesSnocMissing<T>(init: seq<Option<T>>, prev: seq<nat>)
    requires Locates(init, prev)
    ensures Locates(init + [None], prev)
  {
    var os := init + [None];
    PresentSnoc(init, None);
    assert Present(os) == Present(init);
    forall k | 0 <= k < |prev| ensures prev[k] < |os| && os[prev[k]] == Some(Present(os)[k]) {
      assert os[prev[k]] == init[prev[k]];
    }
    forall i | 0 <= i < |os| && os[i].Some? ensures i in prev {
      assert i < |init| && init[i] == os[i];
    }
  }

  /** Appending a present outcome adds its position. */
  lemma LocatesSnocPresent<T>(init: seq<Option<T>>, v: T, prev: seq<nat>)
    requires Locates(init, prev)
    ensures Locates(init + [Some(v)], prev + [|init|])
  {
    var os := init + [Some(v)];
    var n := |init|;
    var idx := prev + [n];
    PresentSnoc(init, Some(v));
    assert Present(os) == Present(init) + [v];
    forall k | 0 <= k < |idx| ensures idx[k] < |os| && os[idx[k]] == Some(Present(os)[k]) {
      if k < |prev| {
        assert idx[k] == prev[k] && Present(os)[k] == Present(init)[k];
        assert os[prev[k]] == init[prev[k]];
      }
    }
    forall k, l | 0 <= k < l < |idx| ensures idx[k] < idx[l] {
      assert idx[k] == prev[k];
    }
    forall i | 0 <= i < |os| && os[i].Some? ensures i in idx {
      if i < n {
        assert init[i] == os[i];
        assert i in prev;
      } else {
        assert idx[|prev|] == i;
      }
    }
  }

  /** The positions of the present outcomes, in order. */
  lemma {:induction false} PresentInOrder<T>(os: seq<Option<T>>) returns (idx: seq<nat>)
    ensures Locates(os, idx)
    decreases |os|
  {
    if os == [] {
      idx := [];
    } else {
      var n := |os| - 1;
      var init := os[..n];
      var prev := PresentInOrder(init);
      assert os == init + [os[n]];
      if os[n].Some? {
        LocatesSnocPresent(init, os[n].value, prev);
        idx := prev + [n];
      } else {
        LocatesSnocMissing(init, prev);
        idx := prev;
      }
    }
  }

  /** The extraction outcome of each url, position by position. */
  function Outcomes(fetch: Fetcher, urls: seq<string>, maxContentLength: nat): (os: seq<Option<Page>>)
    ensures |os| == |urls|
    ensures forall i :: 0 <= i < |urls| ==> os[i] == Extract(fetch, urls[i], maxContentLength)
  {
    seq(|urls|, i requires 0 <= i < |urls| => Extract(fetch, urls[i], maxContentLength))
  }

  /** The pages that `batch_extract` keeps: the successful extractions, in url order. */
  function Successes(fetch: Fetcher, urls: seq<string>, maxContentLength: nat): seq<Page> {
    Present(Outcomes(fetch, urls, maxContentLength))
  }

  /** `ContentExtractor.batch_extract`: extract each url in turn and keep the pages that came back. */
  method BatchExtract(fetch: Fetcher, urls: seq<string>, maxContentLength: nat) returns (pages: seq<Page>)
    ensures pages == Successes(fetch, urls, maxContentLength)
  {
    ghost var os := Outcomes(fetch, urls, maxContentLength);
    pages := [];
    for i := 0 to |urls|
      invariant pages == Present(os[..i])
    {
      assert os[..i + 1][..i] == os[..i];
      var content := Extract(fetch, urls[i], maxContentLength);
      assert os[..i + 1][i] == content;
      if content.Some? {
        pages := pages + [content.value];
      }
    }
    assert os[..|urls|] == os;
  }

  /** With N urls of which M fail, `batch_extract` returns N - M pages; page k comes from the
      url at position idx[k], whose extraction gave exactly that page; the positions strictly
      increase (input order, each url used at most once), and every url whose extraction
      succeeds is among them. */
  lemma BatchExtractKeepsSuccessesInOrder(fetch: Fetcher, urls: seq<string>, maxContentLength: nat)
    returns (idx: seq<nat>)
    ensures |Successes(fetch, urls, maxContentLength)| + Missing(Outcomes(fetch, urls, maxContentLength)) == |urls|
    ensures |idx| == |Successes(fetch, urls, maxContentLength)|
    ensures forall k :: 0 <= k < |idx| ==>
      idx[k] < |urls| && Extract(fetch, urls[idx[k]], maxContentLength) == Some(Successes(fetch, urls, maxContentLength)[k])
    ensures forall k, l :: 0 <= k < l < |idx| ==> idx[k] < idx[l]
    ensures forall i :: 0 <= i < |urls| && fetch(urls[i]).Ok? ==> i in idx
  {
    PresentPlusMissing(Outcomes(fetch, urls, maxContentLength));
    idx := PresentInOrder(Outcomes(fetch, urls, maxContentLength));
  }

  // ------------------------------------------------------------------
  // RelevanceFilter
  // ------------------------------------------------------------------

  /** `query.lower().split()`. */
  function QueryTerms(query: string): seq<string> {
    Words(Lower(query))
  }

  /** `term in snippet_lower or term in title_lower`. */
  predicate Matches(term: string, snippetLower: string, titleLower: string) {
    Contains(snippetLower, term) || Contains(titleLower, term)
  }

  /** `sum(1 for term in query_terms if ...)`: how many of the terms (each occurrence counted)
      match the snippet or the title. */
  function Score(terms: seq<string>, snippetLower: string, titleLower: string): (n: nat)
    ensures n <= |terms|
    ensures n == 0 <==> forall k :: 0 <= k < |terms| ==> !Matches(terms[k], snippetLower, titleLower)
    ensures n == |terms| <==> forall k :: 0 <= k < |terms| ==> Matches(terms[k], snippetLower, titleLower)
    decreases |terms|
  {
    if terms == [] then 0
    else
      var rest := Score(terms[1..], snippetLower, titleLower);
      assert forall k :: 1 <= k < |terms| ==> terms[1..][k - 1] == terms[k];
      (if Matches(terms[0], snippetLower, titleLower) then 1 else 0) + rest
  }

  /** Scores add up over concatenated term lists, so a repeated term counts each time. */
  lemma {:induction false} ScoreAppend(a: seq<string>, b: seq<string>, snippetLower: string, titleLower: string)
    ensures Score(a + b, snippetLower, titleLower) == Score(a, snippetLower, titleLower) + Score(b, snippetLower, titleLower)
    decreases |a|
  {
    if a != [] {
      assert (a + b)[1..] == a[1..] + b;
      ScoreAppend(a[1..], b, snippetLower, titleLower);
    } else {
      assert a + b == b;
    }
  }

  /** The score `filter_results` computes for one result. */
  function RecordScore(r: SearchResult, terms: seq<string>): nat {
    Score(terms, Lower(r.snippet.GetOr("")), Lower(r.title.GetOr("")))
  }

  /** The result survives: its snippet is at least `minSnippetLength` long. */
  predicate LongEnough(r: SearchResult, minSnippetLength: int) {
    |r.snippet.GetOr("")| >= minSnippetLength
  }

  /** The in-place write `result["relevance_score"] = score`, done only to survivors. */
  function Rescore(r: SearchResult, terms: seq<string>, minSnippetLength: int): SearchResult {
    if LongEnough(r, minSnippetLength) then r.(relevanceScore := Some(RecordScore(r, terms))) else r
  }

  /** The input list after `filter_results`: same records in the same order, survivors scored. */
  function Rescored(rs: seq<SearchResult>, terms: seq<string>, minSnippetLength: int): seq<SearchResult>
    decreases |rs|
  {
    if rs == [] then []
    else Rescored(rs[..|rs| - 1], terms, minSnippetLength) + [Rescore(rs[|rs| - 1], terms, minSnippetLength)]
  }

  /** The results whose snippet is long enough, in order. */
  function Kept(rs: seq<SearchResult>, minSnippetLength: int): seq<SearchResult>
    decreases |rs|
  {
    if rs == [] then []
    else
      Kept(rs[..|rs| - 1], minSnippetLength)
      + (if LongEnough(rs[|rs| - 1], minSnippetLength) then [rs[|rs| - 1]] else [])
  }

  /** The sort key `x.get("relevance_score", 0)`. */
  function Key(r: SearchResult): int {
    r.relevanceScore.GetOr(0)
  }

  /** Non-increasing by score. */
  predicate SortedByScore(rs: seq<SearchResult>) {
    forall i, j :: 0 <= i < j < |rs| ==> Key(rs[i]) >= Key(rs[j])
  }

  /** The results with score `v`, in order. */
  function WithScore(rs: seq<SearchResult>, v: int): seq<SearchResult>
    decreases |rs|
  {
    if rs == [] then []
    else WithScore(rs[..|rs| - 1], v) + (if Key(rs[|rs| - 1]) == v then [rs[|rs| - 1]] else [])
  }

  /** Puts `x` after every element whose score is at least its own. */
  function Insert(sorted: seq<SearchResult>, x: SearchResult): seq<SearchResult>
    decreases |sorted|
  {
    if sorted == [] then [x]
    else if Key(sorted[|sorted| - 1]) < Key(x) then Insert(sorted[..|sorted| - 1], x) + [sorted[|sorted| - 1]]
    else sorted + [x]
  }

  /** `list.sort(key=..., reverse=True)`: a stable sort by non-increasing score. */
  function SortByScore(rs: seq<SearchResult>): seq<SearchResult>
    decreases |rs|
  {
    if rs == [] then [] else Insert(SortByScore(rs[..|rs| - 1]), rs[|rs| - 1])
  }

  /** What `filter_results` returns for the input records `rs`. */
  function Filtered(rs: seq<SearchResult>, query: string, minSnippetLength: int): seq<SearchResult> {
    var terms := QueryTerms(query);
    SortByScore(Kept(Rescored(rs, terms, minSnippetLength), minSnippetLength))
  }

  lemma RescoredSnoc(rs: seq<SearchResult>, x: SearchResult, terms: seq<string>, minSnippetLength: int)
    ensures Rescored(rs + [x], terms, minSnippetLength) == Rescored(rs, terms, minSnippetLength) + [Rescore(x, terms, minSnippetLength)]
  {
    assert (rs + [x])[..|rs|] == rs;
  }

  lemma KeptSnoc(rs: seq<SearchResult>, x: SearchResult, minSnippetLength: int)
    ensures Kept(rs + [x], minSnippetLength) == Kept(rs, minSnippetLength) + (if LongEnough(x, minSnippetLength) then [x] else [])
  {
    assert (rs + [x])[..|rs|] == rs;
  }

  lemma RescoredLength(rs: seq<SearchResult>, terms: seq<string>, minSnippetLength: int)
    ensures |Rescored(rs, terms, minSnippetLength)| == |rs|
  {
    RescoredPointwise(rs, terms, minSnippetLength);
  }

  lemma RescoredAt(rs: seq<SearchResult>, i: nat, terms: seq<string>, minSnippetLength: int)
    requires i < |rs|
    ensures |Rescored(rs, terms, minSnippetLength)| == |rs|
    ensures Rescored(rs, terms, minSnippetLength)[i] == Rescore(rs[i], terms, minSnippetLength)
  {
    RescoredPointwise(rs, terms, minSnippetLength);
  }

  /** One turn of the filter loop: the next record is kept, scored, exactly when its snippet
      is long enough. */
  lemma FilterStep(input: seq<SearchResult>, i: nat, terms: seq<string>, minSnippetLength: int)
    requires i < |input|
    ensures Kept(Rescored(input[..i + 1], terms, minSnippetLength), minSnippetLength)
      == Kept(Rescored(input[..i], terms, minSnippetLength), minSnippetLength)
         + (if LongEnough(input[i], minSnippetLength) then [Rescore(input[i], terms, minSnippetLength)] else [])
  {
    assert input[..i + 1] == input[..i] + [input[i]];
    RescoredSnoc(input[..i], input[i], terms, minSnippetLength);
    KeptSnoc(Rescored(input[..i], terms, minSnippetLength), Rescore(input[i], terms, minSnippetLength), minSnippetLength);
  }

  /** The scoring loop of `filter_results`: writes each long-enough record's score into the
      caller's list and collects those records, in order. */
  method ScoreAndCollect(results: array<SearchResult>, terms: seq<string>, minSnippetLength: int)
    returns (kept: seq<SearchResult>)
    modifies results
    ensures results[..] == Rescored(old(results[..]), terms, minSnippetLength)
    ensures kept == Kept(Rescored(old(results[..]), terms, minSnippetLength), minSnippetLength)
  {
    ghost var input := results[..];
    ghost var target := Rescored(input, terms, minSnippetLength);
    RescoredLength(input, terms, minSnippetLength);
    kept := [];
    var i := 0;
    while i < results.Length
      invariant 0 <= i <= results.Length
      invariant forall j :: 0 <= j < i ==> results[j] == target[j]
      invariant forall j :: i <= j < results.Length ==> results[j] == input[j]
      invariant kept == Kept(Rescored(input[..i], terms, minSnippetLength), minSnippetLength)
    {
      var result := results[i];
      FilterStep(input, i, terms, minSnippetLength);
      RescoredAt(input, i, terms, minSnippetLength);
      if |result.snippet.GetOr("")| < minSnippetLength {
        assert result == input[i] && !LongEnough(input[i], minSnippetLength);
        assert target[i] == result;
        assert forall j :: 0 <= j < i + 1 ==> results[j] == target[j];
        i := i + 1;
        continue;
      }
      var snippetLower := Lower(result.snippet.GetOr(""));
      var titleLower := Lower(result.title.GetOr(""));
      var score := Score(terms, snippetLower, titleLower);
      var scored := result.(relevanceScore := Some(score));
      assert result == input[i];
      assert score == RecordScore(input[i], terms);
      assert scored == Rescore(input[i], terms, minSnippetLength);
      assert scored == target[i];
      results[i] := scored;
      assert forall j :: 0 <= j < i + 1 ==> results[j] == target[j];
      kept := kept + [scored];
      i := i + 1;
    }
    assert results[..] == target;
    assert input[..i] == input;
  }

  /** `RelevanceFilter.filter_results`: score and collect the results with a long enough snippet,
      writing each score into the caller's record, then sort the collected results. */
  method FilterResults(results: array<SearchResult>, query: string, minSnippetLength: int := DefaultMinSnippetLength)
    returns (filtered: seq<SearchResult>)
    modifies results
    ensures results[..] == Rescored(old(results[..]), QueryTerms(query), minSnippetLength)
    ensures filtered == Filtered(old(results[..]), query, minSnippetLength)
  {
    var terms := QueryTerms(query);
    filtered := ScoreAndCollect(results, terms, minSnippetLength);
    filtered := SortByScore(filtered);
  }

  /** The in-place write leaves the list's length and order alone and changes at most the
      score key: survivors get their score, the others keep whatever they had. */
  lemma {:induction false} RescoredPointwise(rs: seq<SearchResult>, terms: seq<string>, minSnippetLength: int)
    ensures |Rescored(rs, terms, minSnippetLength)| == |rs|
    ensures forall i :: 0 <= i < |rs| ==> Rescored(rs, terms, minSnippetLength)[i] == Rescore(rs[i], terms, minSnippetLength)
    decreases |rs|
  {
    if rs != [] {
      var init := rs[..|rs| - 1];
      RescoredPointwise(init, terms, minSnippetLength);
      assert forall i :: 0 <= i < |init| ==> init[i] == rs[i];
    }
  }

  /** `Kept` drops exactly the results with a short snippet and keeps the others in order. */
  lemma {:induction false} KeptExactly(rs: seq<SearchResult>, minSnippetLength: int)
    ensures |Kept(rs, minSnippetLength)| <= |rs|
    ensures forall x :: x in Kept(rs, minSnippetLength) <==> x in rs && LongEnough(x, minSnippetLength)
    ensures (forall x :: x in rs ==> LongEnough(x, minSnippetLength)) ==> Kept(rs, minSnippetLength) == rs
    decreases |rs|
  {
    if rs != [] {
      var init := rs[..|rs| - 1];
      KeptExactly(init, minSnippetLength);
      assert rs == init + [rs[|rs| - 1]];
    }
  }

  lemma {:induction false} InsertPermutes(sorted: seq<SearchResult>, x: SearchResult)
    ensures multiset(Insert(sorted, x)) == multiset(sorted) + multiset{x}
    decreases |sorted|
  {
    if sorted != [] {
      var init := sorted[..|sorted| - 1];
      InsertPermutes(init, x);
      assert sorted == init + [sorted[|sorted| - 1]];
    }
  }

  lemma {:induction false} InsertSorted(sorted: seq<SearchResult>, x: SearchResult)
    requires SortedByScore(sorted)
    ensures SortedByScore(Insert(sorted, x))
    decreases |sorted|
  {
    if sorted != [] {
      var n := |sorted| - 1;
      var init := sorted[..n];
      var last := sorted[n];
      if Key(last) < Key(x) {
        InsertSorted(init, x);
        InsertPermutes(init, x);
        var front := Insert(init, x);
        forall i | 0 <= i < |front| ensures Key(front[i]) >= Key(last) {
          assert front[i] in multiset(init) + multiset{x};
          if front[i] in init {
            var j :| 0 <= j < |init| && init[j] == front[i];
            assert sorted[j] == init[j];
          }
        }
      }
    }
  }

  lemma {:induction false} InsertStable(sorted: seq<SearchResult>, x: SearchResult, v: int)
    ensures WithScore(Insert(sorted, x), v) == WithScore(sorted, v) + (if Key(x) == v then [x] else [])
    decreases |sorted|
  {
    if sorted == [] {
      assert WithScore([x], v) == WithScore([x][..0], v) + (if Key(x) == v then [x] else []);
    } else {
      var n := |sorted| - 1;
      var init := sorted[..n];
      var last := sorted[n];
      if Key(last) < Key(x) {
        InsertStable(init, x, v);
        var front := Insert(init, x);
        assert (front + [last])[..|front + [last]| - 1] == front;
      } else {
        assert (sorted + [x])[..|sorted + [x]| - 1] == sorted;
      }
    }
  }

  /** The ranking is a stable sort: non-increasing by score, a permutation of its input, and
      for every score the results with that score appear in their input order. */
  lemma {:induction false} SortByScoreIsStableSort(rs: seq<SearchResult>)
    ensures SortedByScore(SortByScore(rs))
    ensures multiset(SortByScore(rs)) == multiset(rs)
    ensures forall v :: WithScore(SortByScore(rs), v) == WithScore(rs, v)
    decreases |rs|
  {
    if rs != [] {
      var n := |rs| - 1;
      var init := rs[..n];
      SortByScoreIsStableSort(init);
      InsertSorted(SortByScore(init), rs[n]);
      InsertPermutes(SortByScore(init), rs[n]);
      assert rs == init + [rs[n]];
      forall v ensures WithScore(SortByScore(rs), v) == WithScore(rs, v) {
        InsertStable(SortByScore(init), rs[n], v);
      }
    }
  }

  /** Sorting an already ranked list changes nothing. */
  lemma {:induction false} SortByScoreOfSorted(rs: seq<SearchResult>)
    requires SortedByScore(rs)
    ensures SortByScore(rs) == rs
    decreases |rs|
  {
    if rs != [] {
      var n := |rs| - 1;
      var init := rs[..n];
      assert SortedByScore(init) by {
        forall i, j | 0 <= i < j < |init| ensures Key(init[i]) >= Key(init[j]) {
          assert init[i] == rs[i] && init[j] == rs[j];
        }
      }
      SortByScoreOfSorted(init);
      if init != [] {
        assert Key(init[n - 1]) >= Key(rs[n]) by { assert init[n - 1] == rs[n - 1]; }
      }
      assert rs == init + [rs[n]];
    }
  }

  /** Every record `filter_results` returns is a scored survivor from the rewritten input. */
  lemma FilteredElements(rs: seq<SearchResult>, query: string, minSnippetLength: int, x: SearchResult)
    requires x in Filtered(rs, query, minSnippetLength)
    ensures x in Rescored(rs, QueryTerms(query), minSnippetLength)
    ensures LongEnough(x, minSnippetLength)
    ensures x.relevanceScore == Some(RecordScore(x, QueryTerms(query)))
    ensures Rescore(x, QueryTerms(query), minSnippetLength) == x
  {
    var terms := QueryTerms(query);
    var scored := Rescored(rs, terms, minSnippetLength);
    var survivors := Kept(scored, minSnippetLength);
    assert x in survivors by {
      SortByScoreIsStableSort(survivors);
      assert x in multiset(SortByScore(survivors));
    }
    assert x in scored && LongEnough(x, minSnippetLength) by {
      KeptExactly(scored, minSnippetLength);
    }
    RescoredPointwise(rs, terms, minSnippetLength);
    var i :| 0 <= i < |scored| && scored[i] == x;
    var r := rs[i];
    assert x == Rescore(r, terms, minSnippetLength);
    assert LongEnough(r, minSnippetLength);
    assert x == r.(relevanceScore := Some(RecordScore(r, terms)));
    assert RecordScore(x, terms) == RecordScore(r, terms);
  }

  /** The contract of `filter_results`: it keeps exactly the results whose snippet is long
      enough, each carrying its score (between 0 and the number of query terms), ranked by
      non-increasing score, ties in input order. */
  lemma FilterResultsContract(rs: seq<SearchResult>, query: string, minSnippetLength: int)
    ensures var survivors := Kept(Rescored(rs, QueryTerms(query), minSnippetLength), minSnippetLength);
      var out := Filtered(rs, query, minSnippetLength);
      |out| == |survivors| <= |rs| &&
      multiset(out) == multiset(survivors) &&
      SortedByScore(out) &&
      (forall v :: WithScore(out, v) == WithScore(survivors, v)) &&
      (forall x :: x in out ==>
        LongEnough(x, minSnippetLength) && x.relevanceScore == Some(RecordScore(x, QueryTerms(query))) &&
        0 <= Key(x) <= |QueryTerms(query)|)
  {
    var terms := QueryTerms(query);
    var scored := Rescored(rs, terms, minSnippetLength);
    var survivors := Kept(scored, minSnippetLength);
    SortByScoreIsStableSort(survivors);
    assert |Filtered(rs, query, minSnippetLength)| == |multiset(survivors)|;
    KeptExactly(scored, minSnippetLength);
    RescoredPointwise(rs, terms, minSnippetLength);
    forall x | x in Filtered(rs, query, minSnippetLength)
      ensures LongEnough(x, minSnippetLength) && x.relevanceScore == Some(RecordScore(x, terms))
    {
      FilteredElements(rs, query, minSnippetLength, x);
    }
  }

  /** The filter never returns more results than it was given. */
  lemma FilteredLength(rs: seq<SearchResult>, query: string, minSnippetLength: int)
    ensures |Filtered(rs, query, minSnippetLength)| <= |rs|
  {
    FilterResultsContract(rs, query, minSnippetLength);
  }

  /** With no query terms every score is 0, so the survivors keep their input order. */
  lemma EmptyQueryKeepsInputOrder(rs: seq<SearchResult>, query: string, minSnippetLength: int)
    requires QueryTerms(query) == []
    ensures Filtered(rs, query, minSnippetLength) == Kept(Rescored(rs, [], minSnippetLength), minSnippetLength)
  {
    var survivors := Kept(Rescored(rs, [], minSnippetLength), minSnippetLength);
    forall x | x in survivors ensures Key(x) == 0 {
      KeptExactly(Rescored(rs, [], minSnippetLength), minSnippetLength);
      RescoredPointwise(rs, [], minSnippetLength);
      var i :| 0 <= i < |rs| && Rescore(rs[i], [], minSnippetLength) == x;
    }
    assert SortedByScore(survivors) by {
      forall i, j | 0 <= i < j < |survivors| ensures Key(survivors[i]) >= Key(survivors[j]) {
        assert survivors[i] in survivors && survivors[j] in survivors;
      }
    }
    SortByScoreOfSorted(survivors);
  }

  /** A rewrite that fixes every record fixes the list. */
  lemma {:induction false} RescoredOfFixed(xs: seq<SearchResult>, terms: seq<string>, minSnippetLength: int)
    requires forall x :: x in xs ==> Rescore(x, terms, minSnippetLength) == x
    ensures Rescored(xs, terms, minSnippetLength) == xs
    decreases |xs|
  {
    if xs != [] {
      var init := xs[..|xs| - 1];
      assert forall x :: x in init ==> x in xs;
      RescoredOfFixed(init, terms, minSnippetLength);
      assert xs == init + [xs[|xs| - 1]];
    }
  }

  /** Filtering the filter's own output with the same query and minimum gives it back unchanged,
      scores included. */
  lemma FilterIdempotent(rs: seq<SearchResult>, query: string, minSnippetLength: int)
    ensures Filtered(Filtered(rs, query, minSnippetLength), query, minSnippetLength) == Filtered(rs, query, minSnippetLength)
  {
    var terms := QueryTerms(query);
    var out := Filtered(rs, query, minSnippetLength);
    forall x | x in out ensures Rescore(x, terms, minSnippetLength) == x && LongEnough(x, minSnippetLength) {
      FilteredElements(rs, query, minSnippetLength, x);
    }
    RescoredOfFixed(out, terms, minSnippetLength);
    KeptExactly(out, minSnippetLength);
    FilterResultsContract(rs, query, minSnippetLength);
    SortByScoreOfSorted(out);
  }
}
