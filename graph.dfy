/** The workflow graph: the router consulted after each step, the conditional-edge table,
    the run it induces from `query_intake`, and the sequential fallback executor that is used
    when the graph library is unavailable. */
module Graph {
  import opened Wrappers
  import opened PyStr
  import opened State
  import Nodes

  /** The eight steps of the workflow. */
  datatype Step =
    | QueryIntake | WebSearch | ContentFilter | ContentExtraction
    | Synthesizer | CitationHandler | ReportGenerator | ErrorHandler

  /** The node names the graph registers. */
  function StepName(n: Step): string {
    match n
    case QueryIntake => "query_intake"
    case WebSearch => "web_search"
    case ContentFilter => "content_filter"
    case ContentExtraction => "content_extraction"
    case Synthesizer => "synthesizer"
    case CitationHandler => "citation_handler"
    case ReportGenerator => "report_generator"
    case ErrorHandler => "error_handler"
  }

  /** The fixed chain of steps; the fallback executor's node list is this chain. */
  const Chain: seq<Step> :=
    [QueryIntake, WebSearch, ContentFilter, ContentExtraction, Synthesizer, CitationHandler, ReportGenerator]

  /** The entry point of the graph. */
  const Entry: Step := QueryIntake

  /** `should_continue`: route to the error handler exactly when `error_message` is truthy,
      that is, present and non-empty. */
  function ShouldContinue(s: ResearchState): (route: string)
    ensures route == "error_handler" <==> s.errorMessage.Some? && s.errorMessage.value != ""
    ensures route != "error_handler" ==> route == "continue"
  {
    if s.errorMessage.Some? && s.errorMessage.value != "" then "error_handler" else "continue"
  }

  predicate Errored(s: ResearchState) {
    ShouldContinue(s) == "error_handler"
  }

  /** The route maps given to `add_conditional_edges`; the two terminal steps have a plain
      edge to END instead. */
  function ConditionalEdges(n: Step): Option<map<string, Step>> {
    match n
    case QueryIntake => Some(map["continue" := WebSearch, "error_handler" := ErrorHandler])
    case WebSearch => Some(map["continue" := ContentFilter, "error_handler" := ErrorHandler])
    case ContentFilter => Some(map["continue" := ContentExtraction, "error_handler" := ErrorHandler])
    case ContentExtraction => Some(map["continue" := Synthesizer, "error_handler" := ErrorHandler])
    case Synthesizer => Some(map["continue" := CitationHandler, "error_handler" := ErrorHandler])
    case CitationHandler => Some(map["continue" := ReportGenerator, "error_handler" := ErrorHandler])
    case ReportGenerator => None
    case ErrorHandler => None
  }

  /** Where the run goes after a step. */
  datatype Target = Goto(step: Step) | End

  /** A measure that every edge decreases: the steps left in the chain. */
  function Rank(n: Step): nat {
    match n
    case QueryIntake => 7
    case WebSearch => 6
    case ContentFilter => 5
    case ContentExtraction => 4
    case Synthesizer => 3
    case CitationHandler => 2
    case ReportGenerator => 1
    case ErrorHandler => 0
  }

  /** The successor of step `n` once it has produced state `s`: the terminal steps end the
      run, every other step goes to the next step of the chain or, if `s` carries an error,
      to the error handler. */
  function Successor(n: Step, s: ResearchState): (t: Target)
    ensures t == End <==> n == ReportGenerator || n == ErrorHandler
    ensures t.Goto? ==> Rank(t.step) < Rank(n)
  {
    match ConditionalEdges(n)
    case None => End
    case Some(edges) => Goto(edges[ShouldContinue(s)])
  }

  /** After chain step i (0 <= i < 6) the run goes on to step i + 1, or to the error handler
      when the state carries an error. */
  lemma SuccessorInChain(i: nat, s: ResearchState)
    requires i < |Chain| - 1
    ensures Successor(Chain[i], s) == Goto(if Errored(s) then ErrorHandler else Chain[i + 1])
  {
  }

  /** Each of the six non-terminal steps has exactly two successors, the next step of the
      chain and the error handler, chosen by the router's two routes. */
  lemma EdgeTableShape(i: int)
    requires 0 <= i < |Chain| - 1
    ensures ConditionalEdges(Chain[i]).Some?
    ensures ConditionalEdges(Chain[i]).value.Keys == {"continue", "error_handler"}
    ensures ConditionalEdges(Chain[i]).value.Values == {Chain[i + 1], ErrorHandler}
    ensures Chain[i + 1] != ErrorHandler
  {
    var edges := ConditionalEdges(Chain[i]).value;
    assert edges == map["continue" := Chain[i + 1], "error_handler" := ErrorHandler];
    assert edges["continue"] in edges.Values && edges["error_handler"] in edges.Values;
  }

  /** One step applied to the state. */
  function Apply(n: Step, s: ResearchState, env: Nodes.Env): ResearchState {
    match n
    case QueryIntake => Nodes.QueryIntake(s)
    case WebSearch => Nodes.WebSearch(s, env)
    case ContentFilter => Nodes.ContentFilter(s)
    case ContentExtraction => Nodes.ContentExtraction(s, env)
    case Synthesizer => Nodes.Synthesizer(s, env)
    case CitationHandler => Nodes.CitationHandler(s, env)
    case ReportGenerator => Nodes.ReportGenerator(s, env)
    case ErrorHandler => Nodes.ErrorHandler(s, env)
  }

  /** What every step guarantees, whatever its outcome: it records its own name, leaves the
      run's inputs alone, only the error handler stamps completion, and an error once set
      stays set. */
  ghost predicate StepContract(n: Step, s: ResearchState, r: ResearchState) {
    r.currentStep == StepName(n) && Nodes.SameInputs(s, r) &&
    (n != ErrorHandler ==> r.completedAt == s.completedAt) &&
    (Errored(s) ==> Errored(r))
  }

  lemma QueryIntakeContract(s: ResearchState)
    ensures StepContract(QueryIntake, s, Nodes.QueryIntake(s))
  {
  }

  lemma WebSearchContract(s: ResearchState, env: Nodes.Env)
    ensures StepContract(WebSearch, s, Nodes.WebSearch(s, env))
  {
  }

  lemma ContentFilterContract(s: ResearchState)
    ensures StepContract(ContentFilter, s, Nodes.ContentFilter(s))
  {
  }

  lemma ContentExtractionContract(s: ResearchState, env: Nodes.Env)
    ensures StepContract(ContentExtraction, s, Nodes.ContentExtraction(s, env))
  {
  }

  lemma SynthesizerContract(s: ResearchState, env: Nodes.Env)
    ensures StepContract(Synthesizer, s, Nodes.Synthesizer(s, env))
  {
  }

  lemma CitationHandlerContract(s: ResearchState, env: Nodes.Env)
    ensures StepContract(CitationHandler, s, Nodes.CitationHandler(s, env))
  {
  }

  lemma ReportGeneratorStepContract(s: ResearchState, env: Nodes.Env)
    ensures StepContract(ReportGenerator, s, Nodes.ReportGenerator(s, env))
  {
    Nodes.ReportGeneratorFrame(s, env);
    if Nodes.ReportSucceeds(s, env) {
      Nodes.ReportGeneratorSuccess(s, env);
    } else {
      Nodes.ReportGeneratorFailure(s, env);
    }
  }

  lemma ErrorHandlerContract(s: ResearchState, env: Nodes.Env)
    ensures StepContract(ErrorHandler, s, Nodes.ErrorHandler(s, env))
  {
  }

  /** Every step keeps the step contract. */
  lemma ApplyContract(n: Step, s: ResearchState, env: Nodes.Env)
    ensures StepContract(n, s, Apply(n, s, env))
  {
    match n
    case QueryIntake => QueryIntakeContract(s);
    case WebSearch => WebSearchContract(s, env);
    case ContentFilter => ContentFilterContract(s);
    case ContentExtraction => ContentExtractionContract(s, env);
    case Synthesizer => SynthesizerContract(s, env);
    case CitationHandler => CitationHandlerContract(s, env);
    case ReportGenerator => ReportGeneratorStepContract(s, env);
    case ErrorHandler => ErrorHandlerContract(s, env);
  }

  /** How each step transforms the state; `Steps(env)` is the one the step functions give. */
  type StepFunction = (Step, ResearchState) -> ResearchState

  function Steps(env: Nodes.Env): StepFunction {
    (n: Step, s: ResearchState) => Apply(n, s, env)
  }

  /** A run: the steps executed, in order, and the final state. */
  datatype Run = Run(trace: seq<Step>, final: ResearchState)

  /** The compiled graph's execution from step `n` on state `s`: run the step, consult the
      router, follow the edge. */
  function RunFrom(step: StepFunction, n: Step, s: ResearchState): Run
    decreases Rank(n)
  {
    var s1 := step(n, s);
    match Successor(n, s1)
    case End => Run([n], s1)
    case Goto(m) =>
      var rest := RunFrom(step, m, s1);
      Run([n] + rest.trace, rest.final)
  }

  /** `research_graph.invoke(initial_state)` with the compiled graph. */
  function GraphRun(s0: ResearchState, env: Nodes.Env): Run {
    RunFrom(Steps(env), Entry, s0)
  }

  /** The state after the first `k` steps of the chain, run one after the other regardless
      of errors. */
  function Sequential(step: StepFunction, s0: ResearchState, k: nat): ResearchState
    requires k <= |Chain|
    decreases k
  {
    if k == 0 then s0 else step(Chain[k - 1], Sequential(step, s0, k - 1))
  }

  /** The first step, from the `k`-th on and among the six that can route to the error
      handler, after which the state carries an error; 7 when there is none. */
  function FirstErrorFrom(step: StepFunction, s0: ResearchState, k: nat): (j: nat)
    requires 1 <= k <= |Chain|
    ensures k <= j <= |Chain|
    ensures forall i :: k <= i < j ==> !Errored(Sequential(step, s0, i))
    ensures j < |Chain| ==> Errored(Sequential(step, s0, j))
    decreases |Chain| - k
  {
    if k == |Chain| then |Chain|
    else if Errored(Sequential(step, s0, k)) then k
    else FirstErrorFrom(step, s0, k + 1)
  }

  /** The first error of a run started on `s0`; 7 when none of the six routed steps errs. */
  function FirstError(step: StepFunction, s0: ResearchState): nat {
    FirstErrorFrom(step, s0, 1)
  }

  /** The result `RunFromChain` states for chain step i. */
  ghost predicate RunFromChainShape(step: StepFunction, s0: ResearchState, i: nat)
    requires i < |Chain|
  {
    var k := FirstErrorFrom(step, s0, i + 1);
    var r := RunFrom(step, Chain[i], Sequential(step, s0, i));
    r.trace == Chain[i..k] + (if k < |Chain| then [ErrorHandler] else []) &&
    r.final == if k < |Chain| then step(ErrorHandler, Sequential(step, s0, k)) else Sequential(step, s0, |Chain|)
  }

  /** The report step ends the run. */
  lemma RunFromLast(step: StepFunction, s0: ResearchState)
    ensures RunFromChainShape(step, s0, |Chain| - 1)
  {
    var i := |Chain| - 1;
    assert step(Chain[i], Sequential(step, s0, i)) == Sequential(step, s0, i + 1);
    assert Chain[i..|Chain|] == [ReportGenerator];
  }

  /** A step that leaves an error hands over to the error handler, which ends the run. */
  lemma RunFromError(step: StepFunction, s0: ResearchState, i: nat)
    requires i < |Chain| - 1 && Errored(Sequential(step, s0, i + 1))
    ensures RunFromChainShape(step, s0, i)
  {
    var s1 := Sequential(step, s0, i + 1);
    assert step(Chain[i], Sequential(step, s0, i)) == s1;
    SuccessorInChain(i, s1);
    assert FirstErrorFrom(step, s0, i + 1) == i + 1;
    assert Chain[i..i + 1] == [Chain[i]];
  }

  /** A step that leaves no error hands over to the next step of the chain: the trace. */
  lemma RunFromNextTrace(step: StepFunction, s0: ResearchState, i: nat, k: nat)
    requires i < |Chain| - 1 && !Errored(Sequential(step, s0, i + 1))
    requires k == FirstErrorFrom(step, s0, i + 1)
    requires RunFrom(step, Chain[i + 1], Sequential(step, s0, i + 1)).trace ==
      Chain[i + 1..k] + (if k < |Chain| then [ErrorHandler] else [])
    ensures RunFrom(step, Chain[i], Sequential(step, s0, i)).trace ==
      Chain[i..k] + (if k < |Chain| then [ErrorHandler] else [])
  {
    var s1 := Sequential(step, s0, i + 1);
    assert step(Chain[i], Sequential(step, s0, i)) == s1;
    SuccessorInChain(i, s1);
    var tail: seq<Step> := if k < |Chain| then [ErrorHandler] else [];
    assert Chain[i..k] + tail == [Chain[i]] + (Chain[i + 1..k] + tail);
  }

  /** A step that leaves no error hands over to the next step of the chain: the final state. */
  lemma RunFromNextFinal(step: StepFunction, s0: ResearchState, i: nat)
    requires i < |Chain| - 1 && !Errored(Sequential(step, s0, i + 1))
    ensures RunFrom(step, Chain[i], Sequential(step, s0, i)).final ==
      RunFrom(step, Chain[i + 1], Sequential(step, s0, i + 1)).final
  {
    var s1 := Sequential(step, s0, i + 1);
    assert step(Chain[i], Sequential(step, s0, i)) == s1;
    SuccessorInChain(i, s1);
  }

  lemma RunFromNext(step: StepFunction, s0: ResearchState, i: nat)
    requires i < |Chain| - 1 && !Errored(Sequential(step, s0, i + 1))
    requires RunFromChainShape(step, s0, i + 1)
    ensures RunFromChainShape(step, s0, i)
  {
    var k := FirstErrorFrom(step, s0, i + 1);
    assert k == FirstErrorFrom(step, s0, i + 2);
    RunFromNextTrace(step, s0, i, k);
    RunFromNextFinal(step, s0, i);
  }

  /** From chain step i on, the run follows the chain up to the first error, then the error
      handler; or the rest of the chain when no later routed step errs. */
  lemma {:induction false} RunFromChain(step: StepFunction, s0: ResearchState, i: nat)
    requires i < |Chain|
    ensures RunFromChainShape(step, s0, i)
    decreases |Chain| - i
  {
    if i == |Chain| - 1 {
      RunFromLast(step, s0);
    } else if Errored(Sequential(step, s0, i + 1)) {
      RunFromError(step, s0, i);
    } else {
      RunFromChain(step, s0, i + 1);
      RunFromNext(step, s0, i);
    }
  }

  /** The run of the graph: the chain up to the first error, then the error handler on the
      state that error left; or the whole chain when no routed step errs. */
  lemma RunShape(step: StepFunction, s0: ResearchState)
    ensures var k := FirstError(step, s0);
      RunFrom(step, Entry, s0).trace == Chain[..k] + (if k < |Chain| then [ErrorHandler] else []) &&
      RunFrom(step, Entry, s0).final ==
        if k < |Chain| then step(ErrorHandler, Sequential(step, s0, k)) else Sequential(step, s0, |Chain|)
  {
    RunFromChain(step, s0, 0);
    assert RunFromChainShape(step, s0, 0);
    assert Chain[0..FirstError(step, s0)] == Chain[..FirstError(step, s0)];
  }

  /** If step k (1 <= k <= 6) is the first to leave an error, exactly steps 1..k run and then
      the error handler, which reports on the state step k left. */
  lemma FirstErrorEscapesToHandler(step: StepFunction, s0: ResearchState, k: nat)
    requires 1 <= k < |Chain|
    requires forall j :: 1 <= j < k ==> !Errored(Sequential(step, s0, j))
    requires Errored(Sequential(step, s0, k))
    ensures RunFrom(step, Entry, s0).trace == Chain[..k] + [ErrorHandler]
    ensures RunFrom(step, Entry, s0).final == step(ErrorHandler, Sequential(step, s0, k))
  {
    RunShape(step, s0);
  }

  /** When no routed step errs, the whole chain runs and the error handler never does. */
  lemma NoErrorRunsWholeChain(step: StepFunction, s0: ResearchState)
    requires forall j :: 1 <= j < |Chain| ==> !Errored(Sequential(step, s0, j))
    ensures RunFrom(step, Entry, s0).trace == Chain
    ensures RunFrom(step, Entry, s0).final == Sequential(step, s0, |Chain|)
  {
    RunShape(step, s0);
  }

  /** No step among the six that can route to the error handler leaves an error. */
  ghost predicate NoRoutedError(step: StepFunction, s0: ResearchState) {
    forall j :: 1 <= j < |Chain| ==> !Errored(Sequential(step, s0, j))
  }

  lemma NoRoutedErrorIff(step: StepFunction, s0: ResearchState)
    ensures NoRoutedError(step, s0) <==> FirstError(step, s0) == |Chain|
  {
  }

  /** Only the last step of the chain is the report step, and none is the error handler. */
  lemma ChainPosition(j: nat)
    requires j < |Chain|
    ensures Chain[j] == ReportGenerator <==> j == |Chain| - 1
    ensures Chain[j] != ErrorHandler
  {
  }

  /** The trace of a run with an error at step k: the handler once, last, and no report step. */
  lemma ErroredTrace(k: nat)
    requires 1 <= k < |Chain|
    ensures var t := Chain[..k] + [ErrorHandler];
      |t| >= 2 && t[0] == QueryIntake && t[|t| - 1] == ErrorHandler &&
      ReportGenerator !in t &&
      (forall i :: 0 <= i < |t| - 1 ==> t[i] != ErrorHandler)
  {
    var t := Chain[..k] + [ErrorHandler];
    forall i | 0 <= i < |t| ensures t[i] != ReportGenerator && (i < |t| - 1 ==> t[i] != ErrorHandler) {
      if i < k {
        assert t[i] == Chain[i];
        ChainPosition(i);
      }
    }
  }

  /** The trace of a run without an error: the report step once, last, and no handler. */
  lemma CleanTrace()
    ensures |Chain| >= 1 && Chain[0] == QueryIntake && Chain[|Chain| - 1] == ReportGenerator &&
      ErrorHandler !in Chain &&
      (forall i :: 0 <= i < |Chain| - 1 ==> Chain[i] != ReportGenerator)
  {
    forall i | 0 <= i < |Chain| ensures Chain[i] != ErrorHandler && (i < |Chain| - 1 ==> Chain[i] != ReportGenerator) {
      ChainPosition(i);
    }
  }

  /** A run with an error: the chain's prefix up to the error, then the handler once, last. */
  lemma ErroredRunShape(step: StepFunction, s0: ResearchState)
    requires FirstError(step, s0) < |Chain|
    ensures var t := RunFrom(step, Entry, s0).trace;
      |t| >= 2 && t[0] == QueryIntake && t[|t| - 1] == ErrorHandler &&
      ReportGenerator !in t &&
      (forall i :: 0 <= i < |t| - 1 ==> t[i] != ErrorHandler)
  {
    RunShape(step, s0);
    ErroredTrace(FirstError(step, s0));
  }

  /** A run without an error: exactly the chain, ending in the report step. */
  lemma CleanRunShape(step: StepFunction, s0: ResearchState)
    requires FirstError(step, s0) == |Chain|
    ensures var t := RunFrom(step, Entry, s0).trace;
      |t| >= 1 && t[0] == QueryIntake && t[|t| - 1] == ReportGenerator &&
      ErrorHandler !in t &&
      (forall i :: 0 <= i < |t| - 1 ==> t[i] != ReportGenerator)
  {
    RunShape(step, s0);
    assert RunFrom(step, Entry, s0).trace == Chain[..|Chain|];
    assert Chain[..|Chain|] == Chain;
    CleanTrace();
  }

  /** The shape of every run: it starts at `query_intake`, ends in one of the two terminal
      steps, the report step runs exactly when no routed step errs, and the error handler runs
      exactly when some routed step errs; either terminal step runs only as the last one. */
  lemma RunEndsInOneTerminal(step: StepFunction, s0: ResearchState)
    ensures var t := RunFrom(step, Entry, s0).trace;
      |t| >= 1 && t[0] == QueryIntake &&
      (t[|t| - 1] == ReportGenerator || t[|t| - 1] == ErrorHandler) &&
      (ReportGenerator in t <==> NoRoutedError(step, s0)) &&
      (ErrorHandler in t <==> !NoRoutedError(step, s0)) &&
      (forall i :: 0 <= i < |t| - 1 ==> t[i] != ErrorHandler && t[i] != ReportGenerator)
  {
    NoRoutedErrorIff(step, s0);
    if FirstError(step, s0) < |Chain| {
      ErroredRunShape(step, s0);
    } else {
      CleanRunShape(step, s0);
    }
  }

  // ------------------------------------------------------------------
  // The fallback executor
  // ------------------------------------------------------------------

  /** The record `MinimalGraph.invoke` returns. */
  datatype InvokeResult = InvokeResult(
    reportTitle: string,
    reportMarkdown: string,
    executiveSummary: string,
    query: string,
    startedAt: Timestamp,
    userId: Option<string>,
    citations: seq<Citation>)

  /** The projection of the final state the fallback returns. */
  function Project(s: ResearchState): InvokeResult {
    InvokeResult(s.reportTitle, s.reportMarkdown, s.executiveSummary, s.query, s.startedAt, s.userId, s.citations)
  }

  /** Calls the node function of step `n`. */
  method RunNode(n: Step, s: ResearchState, env: Nodes.Env) returns (r: ResearchState)
    ensures r == Apply(n, s, env)
  {
    match n {
      case QueryIntake => r := Nodes.QueryIntakeNode(s);
      case WebSearch => r := Nodes.WebSearchNode(s, env);
      case ContentFilter => r := Nodes.ContentFilterNode(s);
      case ContentExtraction => r := Nodes.ContentExtractionNode(s, env);
      case Synthesizer => r := Nodes.SynthesizerNode(s, env);
      case CitationHandler => r := Nodes.CitationHandlerNode(s, env);
      case ReportGenerator => r := Nodes.ReportGeneratorNode(s, env);
      case ErrorHandler => r := Nodes.ErrorHandlerNode(s, env);
    }
  }

  /** `MinimalGraph.invoke`: runs the seven chain nodes in order without consulting the
      router, then returns the projection of the final state. */
  method MinimalInvoke(s0: ResearchState, env: Nodes.Env) returns (result: InvokeResult)
    ensures result == Project(Sequential(Steps(env), s0, |Chain|))
  {
    var nodes := Chain;
    var state := s0;
    for i := 0 to |nodes|
      invariant state == Sequential(Steps(env), s0, i)
    {
      var next := RunNode(nodes[i], state, env);
      assert next == Steps(env)(Chain[i], Sequential(Steps(env), s0, i));
      state := next;
    }
    result := Project(state);
  }

  /** Every step of `step` keeps the step contract. */
  ghost predicate WellBehaved(step: StepFunction) {
    forall n: Step, s: ResearchState :: StepContract(n, s, step(n, s))
  }

  lemma StepsWellBehaved(env: Nodes.Env)
    ensures WellBehaved(Steps(env))
  {
    forall n: Step, s: ResearchState
      ensures StepContract(n, s, Steps(env)(n, s))
    {
      ApplyContract(n, s, env);
    }
  }

  /** Running any prefix of the chain keeps the inputs and never stamps completion; once an
      error is set it stays set. */
  lemma {:induction false} SequentialKeepsInputs(step: StepFunction, s0: ResearchState, k: nat)
    requires WellBehaved(step) && k <= |Chain|
    ensures Nodes.SameInputs(s0, Sequential(step, s0, k))
    ensures Sequential(step, s0, k).completedAt == s0.completedAt
    ensures k >= 1 ==> Sequential(step, s0, k).currentStep == StepName(Chain[k - 1])
    decreases k
  {
    if k > 0 {
      SequentialKeepsInputs(step, s0, k - 1);
    }
  }

  /** Errors persist along the chain. */
  lemma {:induction false} SequentialOnward(step: StepFunction, s0: ResearchState, k: nat, m: nat)
    requires WellBehaved(step) && k <= m <= |Chain| && Errored(Sequential(step, s0, k))
    ensures Errored(Sequential(step, s0, m))
    decreases m - k
  {
    if k < m {
      SequentialOnward(step, s0, k, m - 1);
    }
  }

  /** The fallback never runs the error handler: after an error it still runs every later
      step up to the report step, so its final state is the report step's, with no
      completion stamp and the error still set. */
  lemma FallbackIgnoresErrors(s0: ResearchState, env: Nodes.Env, k: nat)
    requires 1 <= k < |Chain| && Errored(Sequential(Steps(env), s0, k))
    ensures Sequential(Steps(env), s0, |Chain|) == Nodes.ReportGenerator(Sequential(Steps(env), s0, |Chain| - 1), env)
    ensures Sequential(Steps(env), s0, |Chain|).currentStep == "report_generator"
    ensures Sequential(Steps(env), s0, |Chain|).completedAt == s0.completedAt
    ensures Errored(Sequential(Steps(env), s0, |Chain|))
  {
    StepsWellBehaved(env);
    SequentialKeepsInputs(Steps(env), s0, |Chain|);
    SequentialOnward(Steps(env), s0, k, |Chain|);
    SequentialLast(Steps(env), s0);
  }

  /** The last step of the chain is the report step. */
  lemma SequentialLast(step: StepFunction, s0: ResearchState)
    ensures Sequential(step, s0, |Chain|) == step(ReportGenerator, Sequential(step, s0, |Chain| - 1))
  {
    assert Chain[|Chain| - 1] == ReportGenerator;
  }

  /** Both terminal steps always leave a report page. */
  ghost predicate TerminalsWrite(step: StepFunction) {
    forall s: ResearchState :: step(ReportGenerator, s).reportMarkdown != "" && step(ErrorHandler, s).reportMarkdown != ""
  }

  lemma StepsTerminalsWrite(env: Nodes.Env)
    ensures TerminalsWrite(Steps(env))
  {
    forall s: ResearchState
      ensures Steps(env)(ReportGenerator, s).reportMarkdown != "" && Steps(env)(ErrorHandler, s).reportMarkdown != ""
    {
      TerminalsWriteAt(s, env);
    }
  }

  lemma TerminalsWriteAt(s: ResearchState, env: Nodes.Env)
    ensures Apply(ReportGenerator, s, env).reportMarkdown != "" && Apply(ErrorHandler, s, env).reportMarkdown != ""
  {
    Nodes.ReportGeneratorWritesMarkdown(s, env);
    Nodes.ErrorHandlerWritesMarkdown(s, env);
  }

  /** When both terminal steps leave a page, every run of either executor ends with one,
      because both executors end in a terminal step. */
  lemma RunsEndWithReport(step: StepFunction, s0: ResearchState)
    requires TerminalsWrite(step)
    ensures RunFrom(step, Entry, s0).final.reportMarkdown != ""
    ensures Sequential(step, s0, |Chain|).reportMarkdown != ""
  {
    RunShape(step, s0);
    SequentialLast(step, s0);
  }

  /** Every run of the compiled graph, and every call of the fallback, yields a non-empty
      report page: the report itself, the report step's error page, or the error handler's. */
  lemma ReportNeverEmpty(s0: ResearchState, env: Nodes.Env)
    ensures GraphRun(s0, env).final.reportMarkdown != ""
    ensures Project(Sequential(Steps(env), s0, |Chain|)).reportMarkdown != ""
  {
    StepsTerminalsWrite(env);
    RunsEndWithReport(Steps(env), s0);
  }

  /** The two executors produce the same final state when no routed step errs. */
  lemma DriversAgreeWithoutErrors(s0: ResearchState, env: Nodes.Env)
    requires NoRoutedError(Steps(env), s0)
    ensures GraphRun(s0, env).final == Sequential(Steps(env), s0, |Chain|)
    ensures Project(GraphRun(s0, env).final) == Project(Sequential(Steps(env), s0, |Chain|))
  {
    NoErrorRunsWholeChain(Steps(env), s0);
  }

  // ------------------------------------------------------------------
  // Runs of interest
  // ------------------------------------------------------------------

  /** A run starts from a state without an error. */
  lemma InitialStateContinues(startedAt: Timestamp, query: string, jobId: string, userId: Option<string>,
                              maxResults: int, includeCitations: bool)
    ensures ShouldContinue(CreateInitialState(startedAt, query, jobId, userId, maxResults, includeCitations)) == "continue"
  {
  }

  /** A query shorter than five characters goes straight to the error handler, whose page
      names the query and the validation error and whose completion stamp is set. */
  lemma ShortQueryRun(s0: ResearchState, env: Nodes.Env)
    requires |s0.query| < Nodes.MinQueryLength
    ensures GraphRun(s0, env).trace == [QueryIntake, ErrorHandler]
    ensures var f := GraphRun(s0, env).final;
      f.errorMessage == Some("Query too short or empty") &&
      f.currentStep == "error_handler" && f.completedAt == Some(env.now) &&
      IsPrefixOf(Nodes.ErrorHeading, f.reportMarkdown) &&
      Contains(f.reportMarkdown, s0.query) &&
      Contains(f.reportMarkdown, "Query too short or empty")
  {
    var s1 := Sequential(Steps(env), s0, 1);
    assert s1 == Nodes.QueryIntake(s0);
    FirstErrorEscapesToHandler(Steps(env), s0, 1);
    assert Chain[..1] == [QueryIntake];
    assert GraphRun(s0, env).final == Nodes.ErrorHandler(s1, env);
    Nodes.ErrorReportHeading(s0.query, s1.errorMessage);
    Nodes.ErrorReportShowsQuery(s0.query, s1.errorMessage);
    Nodes.ErrorReportShowsError(s0.query, s1.errorMessage);
  }

  /** On the same short query the fallback runs on to the report step, so it ends with no
      completion stamp, the validation error still set, and the report step's page. */
  lemma ShortQueryFallback(s0: ResearchState, env: Nodes.Env)
    requires |s0.query| < Nodes.MinQueryLength
    ensures Sequential(Steps(env), s0, |Chain|).currentStep == "report_generator"
    ensures Sequential(Steps(env), s0, |Chain|).completedAt == s0.completedAt
    ensures Errored(Sequential(Steps(env), s0, |Chain|))
  {
    assert Sequential(Steps(env), s0, 1) == Nodes.QueryIntake(s0);
    FallbackIgnoresErrors(s0, env, 1);
  }

  /** With a valid query and no prior error, a failing search goes to the error handler right
      after the search step, with no raw results and the search error recorded. */
  lemma SearchFailureRun(s0: ResearchState, env: Nodes.Env)
    requires |s0.query| >= Nodes.MinQueryLength && !Errored(s0)
    requires env.search(s0.query, s0.maxResults).Fail?
    ensures GraphRun(s0, env).trace == [QueryIntake, WebSearch, ErrorHandler]
    ensures GraphRun(s0, env).final.rawSearchResults == []
    ensures GraphRun(s0, env).final.errorMessage == Some("Search error: " + env.search(s0.query, s0.maxResults).msg)
  {
    var s1 := Sequential(Steps(env), s0, 1);
    var s2 := Sequential(Steps(env), s0, 2);
    assert s1 == Nodes.QueryIntake(s0);
    assert s2 == Nodes.WebSearch(s1, env);
    assert !Errored(s1);
    assert Errored(s2) by {
      var m := env.search(s0.query, s0.maxResults).msg;
      assert s2.errorMessage.value[..|"Search error: "|] == "Search error: ";
    }
    FirstErrorEscapesToHandler(Steps(env), s0, 2);
    assert Chain[..2] == [QueryIntake, WebSearch];
  }
}
