/**
 * The pass schedule of MethodProcessorRunnable.codeToJava, written as functions of
 * the oracle: one function per straight-line stretch or loop of the source, each
 * taking the progress of the run before it and giving the progress after it.
 */
module Schedule {
  import opened Passes

  /** The static-initializer method name, CodeConstants.CLINIT_NAME. */
  const ClinitName: string := "<clinit>"

  /** The three decompiler options that codeToJava consults. */
  datatype Options = Options(removeEmptyRanges: bool, noExceptionsReturn: bool, ideaNotNullAnnotation: bool)

  /** The method being decompiled: its name, and the answers its passes give, in
      invocation order. */
  datatype StructMethod = StructMethod(name: string, answers: seq<Answer>)

  predicate IsInitializer(mt: StructMethod) {
    mt.name == ClinitName
  }

  /** Graph construction and clean-up, up to and including restorePopRanges. */
  const GraphPasses: seq<Pass> :=
    [BuildGraph, RemoveDeadBlocks, InlineJsr, ConnectDummyExitBlock, RemoveGotos, RemoveCircularRanges, RestorePopRanges]

  /** The passes enabled by the two exception-range options, in source order. */
  function Gates(opts: Options): seq<Pass> {
    (if opts.removeEmptyRanges then [RemoveEmptyRanges] else [])
    + (if opts.noExceptionsReturn then [IncorporateValueReturns] else [])
  }

  /** From insertEmptyExceptionHandlerBlocks to the variable-counter reset. */
  const MergePasses: seq<Pass> := [InsertEmptyExceptionHandlerBlocks, MergeBasicBlocks, SetVarCounter]

  /** Everything invoked before the first parseGraph. */
  function ProloguePasses(opts: Options): seq<Pass> {
    GraphPasses + Gates(opts) + MergePasses
  }

  /** Between the finally loop and the stack-variable loop. */
  const MiddlePasses: seq<Pass> :=
    [RemoveSynchronizedHandler, CondenseSequences, ClearStatements, ProcessStatement, CondenseSequences]

  /** Invoked when removeHardcodedChecks reports a change. */
  const NotNullPasses: seq<Pass> := [CondenseSequences, SimplifyStackVars, SetVarVersions]

  /** Everything invoked after the outer loop; replaceContinueWithBreak is the last tree pass. */
  const EpiloguePasses: seq<Pass> :=
    [RemoveRedundantReturns, IdentifySecondaryFunctions, SetVarDefinitions, ReplaceContinueWithBreak, ReleaseResources]

  /** Lines 71-99: graph construction, normalisation and exception-range repair. */
  function Prologue(opts: Options, ans: seq<Answer>): (r: Progress)
    ensures var g := Calls(ans, Start(), GraphPasses); !g.status.Running? ==> r == g
  {
    var r := Calls(ans, Start(), GraphPasses);
    var r := if opts.removeEmptyRanges then Call(ans, r, RemoveEmptyRanges) else r;
    var r := if opts.noExceptionsReturn then Call(ans, r, IncorporateValueReturns) else r;
    Calls(ans, r, MergePasses)
  }

  /** Lines 108-110, entered after the first parseGraph:
      while (iterateGraph) { parseGraph }. */
  function FinallyLoop(ans: seq<Answer>, r: Progress): (r': Progress)
    ensures Measure(ans, r') <= Measure(ans, r)
    ensures !r.status.Running? ==> r' == r
    decreases Measure(ans, r)
  {
    var r1 := Call(ans, r, IterateGraph);
    if Yes(r1) then FinallyLoop(ans, Call(ans, r1, ParseGraph)) else r1
  }

  /** Lines 129-133: do { simplifyStackVars; setVarVersions } while (findPPandMM). */
  function StackVarsLoop(ans: seq<Answer>, r: Progress): (r': Progress)
    ensures Measure(ans, r') <= Measure(ans, r)
    ensures !r.status.Running? ==> r' == r
    decreases Measure(ans, r)
  {
    var r1 := Call(ans, Call(ans, Call(ans, r, SimplifyStackVars), SetVarVersions), FindPPandMM);
    if Yes(r1) then StackVarsLoop(ans, r1) else r1
  }

  /** Lines 138-141: do { enhanceLoops } while (extractLoops || mergeAllIfs). */
  function EnhanceLoop(ans: seq<Answer>, r: Progress): (r': Progress)
    ensures Measure(ans, r') <= Measure(ans, r)
    ensures !r.status.Running? ==> r' == r
    decreases Measure(ans, r)
  {
    var r1 := Call(ans, Call(ans, r, EnhanceLoops), ExtractLoops);
    if Yes(r1) then EnhanceLoop(ans, r1)
    else
      var r2 := Call(ans, r1, MergeAllIfs);
      if Yes(r2) then EnhanceLoop(ans, r2) else r2
  }

  /** Lines 143-149: the not-null-annotation block. */
  function NotNullBlock(opts: Options, ans: seq<Answer>, r: Progress): (r': Progress)
    ensures Measure(ans, r') <= Measure(ans, r)
    ensures !r.status.Running? ==> r' == r
  {
    if !opts.ideaNotNullAnnotation then r
    else
      var r1 := Call(ans, r, RemoveHardcodedChecks);
      if Yes(r1) then Calls(ans, r1, NotNullPasses) else r1
  }

  /** Lines 136-153: one round of the outer loop, from cleanUpEdges to inlineSingleBlocks. */
  function OuterRound(opts: Options, ans: seq<Answer>, r: Progress): (r': Progress)
    ensures Measure(ans, r') <= Measure(ans, r)
    ensures r.status.Running? ==> Measure(ans, r') < Measure(ans, r)
    ensures !r.status.Running? ==> r' == r
  {
    var r1 := Call(ans, r, CleanUpEdges);
    var r2 := EnhanceLoop(ans, r1);
    var r3 := NotNullBlock(opts, ans, r2);
    var r4 := Call(ans, r3, IdentifyLabels);
    var r5 := Call(ans, r4, InlineSingleBlocks);
    r5
  }

  /** Lines 135-166: the outer while (true) loop; inlineSingleBlocks reporting a change
      restarts it, and it ends when the method is an initializer or condenseExits
      reports no change. */
  function OuterLoop(isInitializer: bool, opts: Options, ans: seq<Answer>, r: Progress): (r': Progress)
    ensures Measure(ans, r') <= Measure(ans, r)
    ensures !r.status.Running? ==> r' == r
    decreases Measure(ans, r)
  {
    var r1 := OuterRound(opts, ans, r);
    if Yes(r1) then OuterLoop(isInitializer, opts, ans, r1)
    else if isInitializer then r1
    else
      var r2 := Call(ans, r1, CondenseExits);
      if Yes(r2) then OuterLoop(isInitializer, opts, ans, r2) else r2
  }

  /** The run of codeToJava up to the end of the finally loop (lines 71-110). Each
      stage below passes a run that has stopped through unchanged: a thrown error
      skips the rest of codeToJava. */
  function AfterFinally(mt: StructMethod, opts: Options): (r: Progress)
    ensures !Prologue(opts, mt.answers).status.Running? ==> r == Prologue(opts, mt.answers)
  {
    var ans := mt.answers;
    FinallyLoop(ans, Call(ans, Prologue(opts, ans), ParseGraph))
  }

  /** ... up to the end of the stack-variable loop (lines 114-133). */
  function AfterStackVars(mt: StructMethod, opts: Options): (r: Progress)
    ensures !AfterFinally(mt, opts).status.Running? ==> r == AfterFinally(mt, opts)
  {
    var ans := mt.answers;
    StackVarsLoop(ans, Calls(ans, AfterFinally(mt, opts), MiddlePasses))
  }

  /** ... up to the end of the outer loop (lines 135-166). */
  function AfterOuterLoop(mt: StructMethod, opts: Options): (r: Progress)
    ensures !AfterStackVars(mt, opts).status.Running? ==> r == AfterStackVars(mt, opts)
  {
    OuterLoop(IsInitializer(mt), opts, mt.answers, AfterStackVars(mt, opts))
  }

  /** The whole of codeToJava (lines 64-181) on method mt with options opts. */
  function Pipeline(mt: StructMethod, opts: Options): (r: Progress)
    ensures !AfterOuterLoop(mt, opts).status.Running? ==> r == AfterOuterLoop(mt, opts)
  {
    Calls(mt.answers, AfterOuterLoop(mt, opts), EpiloguePasses)
  }
}
