# Research pipeline: a Dafny model

This project models the core of a research agent. The agent takes a natural-language query
and runs a fixed pipeline of eight steps over one shared research state:

- `query_intake` validates the query;
- `web_search` asks the search tool for results;
- `content_filter` keeps and ranks the relevant results;
- `content_extraction` downloads the top five pages;
- `synthesizer` asks a language model to condense the pages;
- `citation_handler` turns the kept results into citations;
- `report_generator` asks for a title and an executive summary, then writes a markdown report;
- `error_handler` writes an error page and stamps the run complete.

After each of the first six steps a router reads `error_message`. If it is set, the run goes
to the error handler; otherwise it goes to the next step. When the graph library is missing,
a fallback executor runs the seven main steps in order and never consults the router.

The model has six files:

- `wrappers.dfy`: `Option` and `Result`.
- `pystr.dfy`: the Python string operations the code relies on: `lower`, `strip`,
  `split()`, `split('/')`, `in` on strings, slicing with Python semantics, `join`, and
  integer formatting.
- `state.dfy`: the `ResearchState` record and `create_initial_state`.
- `tools.dfy`: the web search tool with its record normalisation, the content extractor with
  its truncation policy, and the relevance filter.
  - The filter works in place on an `array` of result records. It writes each survivor's
    score into the caller's record, as the Python code does to the shared dicts.
  - Its ranking is proved to be a stable sort by non-increasing score.
- `nodes.dfy`: the eight steps. Each step is a function from state to state that says what
  the step does. Each step is also a `...Node` method that performs the same updates one at a
  time, as the Python function does, and is proved to agree with the function. The language
  model, the search, the page fetch and the clock are parameters gathered in an `Env`. Each
  call returns a value or fails with the message its exception would carry.
- `graph.dfy`: the router, the conditional-edge table, the run the compiled graph performs,
  and the fallback executor `MinimalGraph.invoke` as a method with a loop.

The model follows the code where the code and the design description disagree:

- **Error-page step name.** The error handler records its own step name before it writes the
  page. So the page's "Step Failed" line always reads `error_handler`, and the final
  `current_step` of a failed run is `error_handler`, not the step that failed
  (`Nodes.ErrorHandler`, `Nodes.ErrorReportNamesErrorHandler`, `Graph.ShortQueryRun`).
- **Fallback executor.** The fallback never checks `error_message`. After a failed step it
  runs every later step up to the report step. It never runs the error handler and never
  stamps completion (`Graph.FallbackIgnoresErrors`, `Graph.ShortQueryFallback`).
- **Repeated query terms.** The relevance score counts every query term that matches, so a
  term repeated in the query counts once per repetition, not once (`Tools.ScoreAppend`).
- **Citations when disabled.** `citation_handler` builds one citation per filtered result
  whatever `include_citations` is; the flag only decides whether the report gets its
  References block (`Nodes.CitationHandler`, `Nodes.ReferencesBlock`).
- **Malformed `href`.** A non-empty `href` with fewer than three `/`-separated segments does
  not default the record's `source` to the empty string: `split('/')[2]` raises
  `IndexError`, and the whole search returns `[]` (`Tools.SourceOf`, `Tools.SearchNormalises`).

## Model

| member | source | states |
|---|---|---|
| State.CreateInitialState | app/research_agent/state.py:50-106 | the inputs are copied unchanged; every derived list and string is empty; the step is `initialized`; there is no error, the retry count is 0, the start stamp is the clock reading, and there is no completion stamp |
| PyStr.Lower | app/research_agent/tools.py:154-163 | lowercasing keeps the length and maps each character on its own: an ASCII capital to its small letter, every other character to itself (see Left out) |
| PyStr.Words | app/research_agent/tools.py:154 | `split()` yields only non-empty words free of whitespace; `PyStr.WordsOfWord`, `PyStr.WordsSplitAtSpace` and `PyStr.WordsEmptyIff` pin down which words |
| PyStr.WordsOfWord | app/research_agent/tools.py:154 | a single run of non-whitespace splits into itself |
| PyStr.WordsLeadingSpace | app/research_agent/tools.py:154 | leading whitespace does not change the words |
| PyStr.WordsOfWordThen | app/research_agent/tools.py:154 | a word followed by whitespace or by the end of the text is the first word |
| PyStr.WordsSplitAtSpace | app/research_agent/tools.py:154 | splitting `a + sp + b` at a whitespace character `sp` gives the words of `a` followed by the words of `b` |
| PyStr.WordsEmptyIff | app/research_agent/tools.py:154 | `split()` gives no terms exactly when the text is all whitespace |
| PyStr.SplitOn | app/research_agent/tools.py:43 | `split('/')` gives one more part than there are separators, and no part contains the separator |
| PyStr.SplitOnAppend | app/research_agent/tools.py:43 | splitting `a + '/' + b` gives the parts of `a` followed by the parts of `b` |
| PyStr.Strip | app/research_agent/tools.py:101 | `strip()` returns the slice of its input that neither starts nor ends with whitespace and outside which every character is whitespace; it is empty exactly when the input is all whitespace |
| PyStr.TrimmedUnique | app/research_agent/tools.py:101 | there is only one such slice, so the contracts of `Strip` and `StripChar` determine their results |
| PyStr.StripChar | app/research_agent/nodes.py:263 | `strip('"')` returns the slice of the title that neither starts nor ends with a quote and outside which every character is a quote; a quote-free title is unchanged |
| PyStr.PyPrefix | app/research_agent/nodes.py:102 | a Python slice `xs[:n]` is a prefix of `xs`: length `n` capped by the length for `n >= 0`, and the length plus `n` (at least 0) for negative `n` |
| PyStr.JoinContainsEach | app/research_agent/nodes.py:169 | every joined chunk occurs in the joined text |
| PyStr.NatToString | app/research_agent/nodes.py:72 | a count renders as a non-empty string of decimal digits whose decimal value is the count; it starts with `0` only when it is `"0"`, so there is no leading zero |
| Tools.SourceOf | app/research_agent/tools.py:43 | the record's `source`; `Tools.SourceOfUrlIsHost` states that it is the host of `scheme://host[/path]`, and `Tools.SearchNormalises` that a short `href` makes the search return `[]` |
| Tools.Normalize | app/research_agent/tools.py:39-44 | one record's four keys; `Tools.NormalizeAllShape` and `Tools.SearchNormalises` state the defaults, the order and the failure on a short `href` |
| Tools.SearchSpec | app/research_agent/tools.py:31-51 | what search returns; `Tools.Search` is proved to compute it and `Tools.SearchNormalises` states its shape |
| Tools.SourceOfUrlIsHost | app/research_agent/tools.py:43 | for `scheme://host` and `scheme://host/path` the record's source is the host |
| Tools.NormalizeAllFailsOnward | app/research_agent/tools.py:38-51 | once a record raises during the append loop, the whole search fails |
| Tools.Search | app/research_agent/tools.py:20-51 | the append loop returns exactly the normalised records, or `[]` when the engine or any record raises |
| Tools.NormalizeAllShape | app/research_agent/tools.py:38-44 | normalisation succeeds exactly when every record does; it then keeps the count and the order, record by record |
| Tools.SearchNormalises | app/research_agent/tools.py:31-51 | search never raises: on an engine fault or a malformed `href` it returns `[]`; otherwise it returns one record per engine result, in order, with all four keys, the `""` defaults, and `source` the third `/`-segment of `href` |
| Tools.Extract | app/research_agent/tools.py:64-112 | one page extraction; `Tools.ExtractContract` states what it returns |
| Tools.ExtractContract | app/research_agent/tools.py:64-112 | extract returns nothing exactly when the fetch fails; otherwise the page has the same url, content at most the cap plus 3 characters, no surrounding whitespace, taken from the truncated text, and the full stripped text when within the cap |
| Tools.BatchExtract | app/research_agent/tools.py:114-130 | the loop returns the successful extractions in url order |
| Tools.BatchExtractKeepsSuccessesInOrder | app/research_agent/tools.py:124-130 | pages plus failures equal the number of urls; page k is exactly the extraction of the url at a position idx[k]; the positions strictly increase; every url that fetches successfully is among them |
| Tools.Score | app/research_agent/tools.py:165 | the score is at most the number of terms; it is 0 exactly when no term matches and full exactly when every term matches |
| Tools.ScoreAppend | app/research_agent/tools.py:165 | scores add up over concatenated terms, so a repeated query term counts twice |
| Tools.ScoreAndCollect | app/research_agent/tools.py:153-168 | the loop writes each long-enough record's score into the caller's array, leaves the others untouched, and collects the scored records in order |
| Tools.FilterResults | app/research_agent/tools.py:136-174 | the array is rescored in place and the result is the ranked survivors |
| Tools.RescoredPointwise | app/research_agent/tools.py:166 | the in-place write keeps the list's length and order and changes at most the score of each survivor |
| Tools.KeptExactly | app/research_agent/tools.py:157-159 | exactly the records with a long enough snippet survive; with no short snippet, all survive in order |
| Tools.SortByScore | app/research_agent/tools.py:171 | the ranking; `Tools.SortByScoreIsStableSort` and `Tools.SortByScoreOfSorted` state its properties |
| Tools.Filtered | app/research_agent/tools.py:153-171 | what the filter returns; `Tools.FilterResults` is proved to compute it, and `Tools.FilterResultsContract`, `Tools.FilteredElements`, `Tools.FilteredLength`, `Tools.EmptyQueryKeepsInputOrder` and `Tools.FilterIdempotent` state its properties |
| Tools.SortByScoreIsStableSort | app/research_agent/tools.py:171 | the ranking is non-increasing by score and a permutation of its input, and records with equal scores keep their input order |
| Tools.SortByScoreOfSorted | app/research_agent/tools.py:171 | sorting an already ranked list changes nothing |
| Tools.FilteredElements | app/research_agent/tools.py:153-174 | every returned record is a scored survivor of the rewritten input, and its score is its own score for the query |
| Tools.FilterResultsContract | app/research_agent/tools.py:136-174 | the filter returns a stable non-increasing ranking of exactly the survivors, each scored between 0 and the number of terms |
| Tools.FilteredLength | app/research_agent/tools.py:153-174 | the filter never returns more records than it was given |
| Tools.EmptyQueryKeepsInputOrder | app/research_agent/tools.py:154-171 | with no query terms every score is 0 and the survivors keep their input order |
| Tools.FilterIdempotent | app/research_agent/tools.py:136-174 | filtering the filter's output with the same query and minimum returns it unchanged, scores included |
| Nodes.WiredSearchNeverFails | app/research_agent/nodes.py:66-77 | with the real search tool, which swallows every fault, the search step keeps the state's error as it was and stores the tool's normalised results for the query and `max_results` |
| Nodes.QueryIntake | app/research_agent/nodes.py:27-48 | the step is recorded and the query logged; an empty query or one under five characters sets the validation error; nothing else changes |
| Nodes.QueryIntakeNode | app/research_agent/nodes.py:27-48 | the step-by-step updates give the state `QueryIntake` describes |
| Nodes.WebSearch | app/research_agent/nodes.py:51-79 | on success the raw results are the search's, with the count logged; on failure the error is recorded and the raw results are emptied; nothing else changes |
| Nodes.WebSearchNode | app/research_agent/nodes.py:51-79 | the step-by-step updates give the state `WebSearch` describes |
| Nodes.ContentFilter | app/research_agent/nodes.py:82-112 | the raw results carry their scores; the filtered results are the ranking cut to `max_results`, never more than the raw results; the count is logged; nothing else changes |
| Nodes.ContentFilterKeepsRankedSurvivors | app/research_agent/nodes.py:97-105 | the kept results are ranked by non-increasing score, and each is a scored survivor of the raw results |
| Nodes.ContentFilterNode | app/research_agent/nodes.py:82-112 | the node, filtering a copy of the raw results in place, gives the state `ContentFilter` describes |
| Nodes.Urls | app/research_agent/nodes.py:132 | the url list succeeds exactly when every result has a url, and then lists them in order; otherwise it is a `KeyError` on `'url'` |
| Nodes.ContentExtraction | app/research_agent/nodes.py:115-145 | at most five pages, and no more than the filtered results; a missing url records an extraction error and empties the pages; otherwise the pages are the successful extractions of the first five urls and the count is logged |
| Nodes.ContentExtractionPagesFromTopResults | app/research_agent/nodes.py:130-135 | every extracted page comes from one of the first five filtered results and is exactly what extracting that url gives |
| Nodes.ContentExtractionNode | app/research_agent/nodes.py:115-145 | the step-by-step updates give the state `ContentExtraction` describes |
| Nodes.Chunk | app/research_agent/nodes.py:167 | a chunk is `Source: url`, a newline, and the first 2000 characters of the page content (all of it when shorter) |
| Nodes.Chunks | app/research_agent/nodes.py:165-167 | one chunk per page, in page order |
| Nodes.CollectChunks | app/research_agent/nodes.py:165-167 | the chunk loop builds exactly those chunks |
| Nodes.SynthesisContent | app/research_agent/nodes.py:169-181 | the model's content input is the prefix of the joined chunks of length 15000, or the whole join when it is shorter |
| Nodes.SynthesisMessage | app/research_agent/nodes.py:175-181 | the synthesis prompt's user message opens with the query and then the cut content, which occurs in it |
| Nodes.TitleMessage | app/research_agent/nodes.py:258 | the title prompt's user message is the query after the `Research Query: ` label |
| Nodes.SummaryMessage | app/research_agent/nodes.py:268-274 | the summary prompt's user message carries the query and the first 3000 characters of the synthesis (all of it when shorter) |
| Nodes.SynthesisContentHasEveryChunk | app/research_agent/nodes.py:169-181 | within the cap, every page's chunk reaches the language model |
| Nodes.Synthesizer | app/research_agent/nodes.py:148-194 | the model's reply becomes the synthesis; on failure the error is recorded and the synthesis is the fixed placeholder; nothing else changes |
| Nodes.SynthesizerNode | app/research_agent/nodes.py:148-194 | the step-by-step updates give the state `Synthesizer` describes |
| Nodes.CitationsOf | app/research_agent/nodes.py:213-224 | one citation per result, in order, all with the same access date, the result's url, and `Unknown` for a missing title |
| Nodes.CitationHandler | app/research_agent/nodes.py:197-236 | the citations are those of the filtered results, one each, and the count is logged; nothing else changes |
| Nodes.CitationHandlerNode | app/research_agent/nodes.py:197-236 | the citation loop gives the state `CitationHandler` describes |
| Nodes.KeySourceLine | app/research_agent/nodes.py:290 | a line `- title: url` exists exactly when both keys are present; otherwise a `KeyError` on the title first, then the url |
| Nodes.KeySourceLines | app/research_agent/nodes.py:290 | the lines exist exactly when each result's line does, one per result, in order |
| Nodes.ReferenceLines | app/research_agent/nodes.py:307-308 | one reference line per citation, numbered from 1 in citation order |
| Nodes.ReferencesBlock | app/research_agent/nodes.py:305-308 | the References block is present exactly when citations are enabled and there is at least one |
| Nodes.ReportMarkdown | app/research_agent/nodes.py:296-308 | the report opens with the title heading |
| Nodes.ReportGenerator | app/research_agent/nodes.py:239-320 | the report step; `Nodes.ReportGeneratorFrame` states which fields it may change and that all others stay, `Nodes.ReportGeneratorSuccess` the result of a clean run, `Nodes.ReportGeneratorFailure` what a fault leaves, including the partial updates it keeps, and `Nodes.ReportGeneratorWritesMarkdown` that the page is never empty |
| Nodes.ReportGeneratorFrame | app/research_agent/nodes.py:239-320 | whatever the outcome, the report step records its name and changes only the step, the progress log, the title, the summary, the sections, the markdown and the error; every other field, the results, extracted content, citations, synthesis and completion stamp among them, stays as it was |
| Nodes.ReportGeneratorSuccess | app/research_agent/nodes.py:254-313 | when both model calls and the Key Sources lines succeed: the error is unchanged; the title is stripped of quotes; the summary is the model's; there are three sections in fixed order with at most five Key Sources lines; the markdown is header, sections and References block; the success message is logged |
| Nodes.ReportGeneratorFailure | app/research_agent/nodes.py:254-318 | after a fault at any stage the error is a report-generation error, the markdown is the error page, and no success message is logged; the sections are unchanged, the title is the stripped reply once the title call succeeded, and the summary is the reply once both calls succeeded, otherwise each keeps its previous value |
| Nodes.ReportGeneratorWritesMarkdown | app/research_agent/nodes.py:296-318 | whatever its outcome, the report step leaves a non-empty page |
| Nodes.AssembleMarkdown | app/research_agent/nodes.py:296-308 | the `+=` assembly produces exactly the report markdown |
| Nodes.AppendSections | app/research_agent/nodes.py:301-302 | the section loop appends one block per section, in order |
| Nodes.AppendReferences | app/research_agent/nodes.py:307-308 | the reference loop appends the numbered lines, in order |
| Nodes.ReportGeneratorNode | app/research_agent/nodes.py:239-320 | the step-by-step updates, with their three early exits, give the state `ReportGenerator` describes |
| Nodes.ErrorHandler | app/research_agent/nodes.py:323-347 | the step becomes `error_handler`; the markdown is the error page for the query and the current error; completion is stamped; nothing else changes |
| Nodes.ErrorReport | app/research_agent/nodes.py:338-342 | the error page; `Nodes.ErrorReportHeading`, `Nodes.ErrorReportShowsQuery`, `Nodes.ErrorReportShowsError` and `Nodes.ErrorReportNamesErrorHandler` state what it shows |
| Nodes.ErrorHandlerWritesMarkdown | app/research_agent/nodes.py:338-344 | the error handler always leaves a non-empty page |
| Nodes.ErrorReportHeading | app/research_agent/nodes.py:338 | the error page opens with its heading |
| Nodes.ErrorReportShowsQuery | app/research_agent/nodes.py:339 | the error page shows the query |
| Nodes.ErrorReportShowsError | app/research_agent/nodes.py:340 | the error page shows the error message |
| Nodes.ErrorReportNamesErrorHandler | app/research_agent/nodes.py:335-341 | the Step Failed line names the error handler itself |
| Nodes.ErrorHandlerNode | app/research_agent/nodes.py:323-347 | the step-by-step updates give the state `ErrorHandler` describes |
| Graph.ShouldContinue | app/research_agent/graph.py:37-49 | the route is `error_handler` exactly when the error is present and non-empty, and `continue` otherwise |
| Graph.Successor | app/research_agent/graph.py:85-141 | the run ends exactly after the report step or the error handler; every edge goes strictly forward |
| Graph.SuccessorInChain | app/research_agent/graph.py:85-138 | after each of the six routed steps the run goes to the next step of the chain, or to the error handler when the state carries an error |
| Graph.EdgeTableShape | app/research_agent/graph.py:85-138 | each routed step has exactly the two routes, leading to the next chain step and the error handler |
| Graph.ApplyContract | app/research_agent/nodes.py:27-347 | every step records its own name and keeps the run's inputs; only the error handler stamps completion; an error once set stays set |
| Graph.RunFrom | app/research_agent/graph.py:83-141 | the compiled graph's execution; `Graph.RunFromChain`, `Graph.RunShape` and `Graph.RunEndsInOneTerminal` state its trace and final state |
| Graph.GraphRun | app/research_agent/graph.py:83-141 | the compiled graph's run from intake; `Graph.ReportNeverEmpty`, `Graph.DriversAgreeWithoutErrors` and the runs below state its outcome |
| Graph.RunFromChain | app/research_agent/graph.py:83-141 | from any chain step, the run follows the chain up to the first error and then the error handler, or runs to the end of the chain |
| Graph.RunShape | app/research_agent/graph.py:83-141 | the compiled graph runs the chain up to the first routed error, then the error handler on the state that error left; or the whole chain |
| Graph.FirstErrorEscapesToHandler | app/research_agent/graph.py:85-141 | if step k is the first to leave an error, exactly steps 1..k run and then the error handler |
| Graph.NoErrorRunsWholeChain | app/research_agent/graph.py:83-141 | with no routed error the whole chain runs and the error handler never does |
| Graph.ErroredRunShape | app/research_agent/graph.py:85-141 | a run with an error starts at intake, ends with the error handler run once, and never runs the report step |
| Graph.CleanRunShape | app/research_agent/graph.py:83-141 | a run without an error is exactly the chain, ending with the report step run once |
| Graph.RunEndsInOneTerminal | app/research_agent/graph.py:83-141 | every run starts at intake and ends in exactly one terminal step: the report step exactly when no routed step errs, the error handler exactly when one does |
| Graph.Sequential | app/research_agent/graph.py:168-176 | the fallback's chain of steps; `Graph.MinimalInvoke` is proved to compute it, and `Graph.SequentialKeepsInputs`, `Graph.SequentialOnward`, `Graph.SequentialLast` and `Graph.FallbackIgnoresErrors` state its properties |
| Graph.SequentialLast | app/research_agent/graph.py:159-166 | the last step of the chain is the report step |
| Graph.Project | app/research_agent/graph.py:184-193 | the record the fallback returns; `Graph.MinimalInvoke` and `Graph.ReportNeverEmpty` state what it holds |
| Graph.RunNode | app/research_agent/graph.py:170-172 | calling a step's node method gives that step's state |
| Graph.MinimalInvoke | app/research_agent/graph.py:168-193 | the fallback loop runs the seven chain nodes in order and returns the projection of the final state |
| Graph.SequentialKeepsInputs | app/research_agent/graph.py:170-175 | running any prefix of the chain keeps the inputs, never stamps completion, and leaves the last step's name |
| Graph.SequentialOnward | app/research_agent/graph.py:170-175 | along the chain, an error once set stays set |
| Graph.FallbackIgnoresErrors | app/research_agent/graph.py:168-193 | after an error the fallback still ends with the report step, with the error set and the completion stamp left as it was |
| Graph.RunsEndWithReport | app/research_agent/graph.py:83-193 | when both terminal steps always leave a page, so does every run of either executor |
| Graph.ReportNeverEmpty | app/research_agent/graph.py:83-193 | every run of the compiled graph and every call of the fallback yields a non-empty report page |
| Graph.DriversAgreeWithoutErrors | app/research_agent/graph.py:156-193 | when no routed step errs, the compiled graph and the fallback reach the same final state |
| Graph.InitialStateContinues | app/research_agent/state.py:97-99 | a freshly created state routes onward |
| Graph.ShortQueryRun | app/research_agent/nodes.py:43-45 | a query under five characters runs intake and then the error handler; the final state carries the validation error, the step `error_handler`, a completion stamp, and an error page showing the query and the error |
| Graph.ShortQueryFallback | app/research_agent/graph.py:168-183 | on the same query the fallback ends at the report step with the error set and the completion stamp left as it was |
| Graph.SearchFailureRun | app/research_agent/nodes.py:74-77 | a failing search routes to the error handler right after the search, with no raw results and the search error recorded |

## Left out

- Logging: the log calls have no effect on the state.
- Lone surrogates: strings are sequences of Unicode scalar values, so the surrogate code points a Python `str` can hold are not modelled.
- PyStr.Lower: lowercases ASCII letters only; Python's full Unicode case mapping is not modelled.
- HTML handling: the HTTP request, its headers and its 10-second timeout, `raise_for_status`, the BeautifulSoup clean-up and the html2text conversion are one `fetch` parameter. It returns the converted text or the fault.
- The search engine client, the chat model and its temperature are parameters. The prompt templates are modelled as the system text and the filled-in user message passed to the model.
- Clock readings are parameters: the citation access date, the report's generation time as a formatted string, the completion stamp, and the start stamp. Date formatting is not modelled.
- Dead `except` branches: the fallback executor's `except` that calls the error handler and breaks, the catch-alls of `content_filter` and `citation_handler`, and `search`'s catch-all around the normalisation are not modelled as separate paths. On the modelled values no statement inside those `try` blocks can raise, except the `IndexError` of `split('/')[2]`, which is modelled.
- The choice between the graph library and the fallback executor, which depends on what is installed, is not modelled; both executors are.
- `MinimalGraph.invoke`'s `.get` defaults (`"Research Report"`, `""`, `[]`): every key is always present, so they never apply.
- `state.update(result)`: every node returns the dict it received, so the update changes nothing.
- Aliasing: the Python state is one mutable dict whose result dicts are shared between `raw_search_results` and `filtered_results`. The model passes state values. The in-place score write is modelled by writing the rescored records back into `rawSearchResults`.
- `retry_count`, `google_doc_url` and `n8n_response` are carried in the state but no core step reads or writes them.
- The HTTP routes, services, schemas, configuration loading and the front end are outside the core. Of the settings, only `max_search_results` (10) and `max_content_length` (50000) are used.
