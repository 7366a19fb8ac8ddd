# MethodProcessorRunnable: the per-method decompilation schedule and its handoff

This project models `MethodProcessorRunnable` from the Fernflower decompiler, as
bundled in bistoury. That class is the unit of work that decompiles one method.
It has two parts:

- `codeToJava` runs a fixed schedule of graph and statement-tree passes. The
  schedule has three option gates, a finally re-parse loop, a stack-variable
  do-while, an enhance-loops do-while and an outer `while (true)` loop with
  `continue` and `break` exits. Exit condensation is skipped for the static
  initializer `<clinit>`, and `replaceContinueWithBreak` is the last tree pass.
- `run`, `getResult` and `isFinished` hand the outcome over. `run` clears
  `error` and `root`, then records either the root that `codeToJava` returned
  or the error it threw, then sets `finished`. `getResult` rethrows a recorded
  error and returns `root` otherwise.

## How passes are modelled

The bodies of the passes belong to helper classes that are not part of this
model. Each pass invocation is an abstract step that appends an `Event` to a
trace. The answer of each step comes from an oracle: a finite list of answers
carried by the method (`StructMethod.answers`). The i-th invocation of a run
takes the i-th answer. An answer is either `Returns(b)`, where `b` is the
boolean "changed" result that the loop conditions read, or `Throws(fault)`.

- A throw stops the run. Every later invocation is then the identity, which is
  how the exception propagates out of `codeToJava`.
- The source puts no bound on any loop. Termination of the model comes from the
  oracle being finite. When the answers run out, the run is `Starved`: the
  model reads this as "`codeToJava` has not returned yet".

The model is layered as follows:

- **`Passes`** (`passes.dfy`): the events, answers and progress of a run.
  One invocation is `Call`; a list of invocations is `Calls`.
- **`Schedule`** (`schedule.dfy`): one function per stretch or loop of
  `codeToJava`. Their composition, `Pipeline(mt, opts)`, is the trace of the
  whole method. `Options` holds the three options that `codeToJava` reads:
  `REMOVE_EMPTY_RANGES`, `NO_EXCEPTIONS_RETURN` and `IDEA_NOT_NULL_ANNOTATION`.
- **`ScheduleAutomaton`** (`automaton.dfy`): an independent reference for the
  schedule. It is a state machine whose states name the pass invoked next. The
  answer of that pass picks the successor. A trace follows the schedule when the
  machine does not reach `Dead` on it.
- **`ScheduleRuns`** (`runs.dfy`): proves that every run of `Pipeline` follows
  the automaton, stretch by stretch and loop by loop.
- **`TraceProperties`** (`trace_properties.dfy`): the ordering, gating and
  loop-exit rules, proved for every trace that follows the automaton.
- **`CodeToJavaProperties`** (`pipeline_properties.dfy`): the same rules
  stated about `Pipeline` itself.
- **`QuietRun`** (`quiet_run.dfy`): with no option set, when every pass
  returns false and none throws, `codeToJava` returns after 32 invocations
  (31 for `<clinit>`). So runs that return exist.
- **`MethodProcessor`** (`method_processor.dfy`): `CodeToJava` is an
  imperative method with the source's own loops, proved equal to `Pipeline`.
  The class `MethodProcessorRunnable` holds the fields `root`, `error` and
  `finished`, and its methods `Run`, `GetResult` and `IsFinished`.

All paths below are in
`bistoury-decompiler-fernflower/src/main/java/qunar/tc/decompiler/main/rels/`.
In the table they are written out in full.

## Model

| member | source | states |
|---|---|---|
| MethodProcessor.MethodProcessorRunnable.constructor | bistoury-decompiler-fernflower/src/main/java/qunar/tc/decompiler/main/rels/MethodProcessorRunnable.java:34-42 | The method and the parent context are stored as given. No root or error is recorded and the unit is not finished. |
| MethodProcessor.MethodProcessorRunnable.Run | bistoury-decompiler-fernflower/src/main/java/qunar/tc/decompiler/main/rels/MethodProcessorRunnable.java:45-62 | If codeToJava returned: root holds its result, error is null, finished is set, getResult returns that root, and the trace completes the schedule (Finished). If a pass threw: error holds that fault, root is null, finished is set, getResult rethrows it, and the trace ends in Aborted. If codeToJava has not returned: root and error are cleared and finished is as it was. |
| MethodProcessor.MethodProcessorRunnable.Record | bistoury-decompiler-fernflower/src/main/java/qunar/tc/decompiler/main/rels/MethodProcessorRunnable.java:46-58 | Given the outcome of the codeToJava call, it records the same three cases as Run: the root on return, the fault on a throw, nothing after a cleared outcome when the call has not come back. It also states what getResult then hands over. |
| MethodProcessor.MethodProcessorRunnable.GetResult | bistoury-decompiler-fernflower/src/main/java/qunar/tc/decompiler/main/rels/MethodProcessorRunnable.java:183-187 | It rethrows exactly when an error is recorded, and rethrows that error. Otherwise it returns the recorded root. |
| MethodProcessor.MethodProcessorRunnable.IsFinished | bistoury-decompiler-fernflower/src/main/java/qunar/tc/decompiler/main/rels/MethodProcessorRunnable.java:189-191 | True exactly when the finished flag is set. |
| MethodProcessor.CodeToJava | bistoury-decompiler-fernflower/src/main/java/qunar/tc/decompiler/main/rels/MethodProcessorRunnable.java:64-181 | The source's loops, step by step, produce exactly the trace Pipeline(mt, opts). Through PipelineSettles, that trace follows the schedule automaton. |
| MethodProcessor.EnhanceStructure | bistoury-decompiler-fernflower/src/main/java/qunar/tc/decompiler/main/rels/MethodProcessorRunnable.java:135-166 | The outer while (true) loop with its inner do-while, continue and break. It produces exactly the trace OuterLoop gives from the same start. |
| Passes.Call | bistoury-decompiler-fernflower/src/main/java/qunar/tc/decompiler/main/rels/MethodProcessorRunnable.java:71-178 | One helper call of codeToJava. On a running run it consumes one answer, so the termination measure drops. On a run that has stopped it changes nothing: a thrown error skips every later pass. The event appended for the pass is stated by CallShape. |
| Passes.CallsTail | bistoury-decompiler-fernflower/src/main/java/qunar/tc/decompiler/main/rels/MethodProcessorRunnable.java:168-178 | When a run goes on after a list of passes, the last events of its trace invoke exactly those passes, in order (EndsWith). |
| Schedule.Prologue | bistoury-decompiler-fernflower/src/main/java/qunar/tc/decompiler/main/rels/MethodProcessorRunnable.java:71-99 | Defines the prologue: the graph passes, each option-gated pass only when its option is set, then the merge passes. Its contract states that an error thrown during graph construction ends the prologue at that point. PrologueRunsPasses proves that it invokes exactly ProloguePasses(opts). |
| Schedule.AfterFinally | bistoury-decompiler-fernflower/src/main/java/qunar/tc/decompiler/main/rels/MethodProcessorRunnable.java:71-110 | Defines the run up to the end of the finally loop: the prologue, the first parseGraph, then the loop. If the prologue stopped, the result is the prologue's run unchanged. PipelineSettles proves that this stage leads to the middle stretch. |
| Schedule.AfterStackVars | bistoury-decompiler-fernflower/src/main/java/qunar/tc/decompiler/main/rels/MethodProcessorRunnable.java:114-133 | Defines the run up to the end of the stack-variable loop: the middle stretch, then the loop. If the earlier stages stopped, their run passes through unchanged. StackSettles and PipelineSettles prove where it leads. |
| Schedule.AfterOuterLoop | bistoury-decompiler-fernflower/src/main/java/qunar/tc/decompiler/main/rels/MethodProcessorRunnable.java:135-166 | Defines the run up to the end of the outer loop. If the earlier stages stopped, their run passes through unchanged. OuterSettles and PipelineSettles prove that it leads to removeRedundantReturns. |
| Schedule.Pipeline | bistoury-decompiler-fernflower/src/main/java/qunar/tc/decompiler/main/rels/MethodProcessorRunnable.java:64-181 | Defines the whole of codeToJava: the stages above, then the epilogue passes. If the run stopped before the epilogue, it passes through unchanged. CodeToJava proves the imperative method's trace equal to it. PipelineSettles proves that it follows the schedule automaton. |
| Schedule.FinallyLoop | bistoury-decompiler-fernflower/src/main/java/qunar/tc/decompiler/main/rels/MethodProcessorRunnable.java:107-110 | A stopped run passes through unchanged (the exception propagates), and the number of answers left never grows. |
| Schedule.StackVarsLoop | bistoury-decompiler-fernflower/src/main/java/qunar/tc/decompiler/main/rels/MethodProcessorRunnable.java:127-133 | A stopped run passes through unchanged, and the number of answers left never grows. |
| Schedule.EnhanceLoop | bistoury-decompiler-fernflower/src/main/java/qunar/tc/decompiler/main/rels/MethodProcessorRunnable.java:138-141 | A stopped run passes through unchanged, and the number of answers left never grows. |
| Schedule.NotNullBlock | bistoury-decompiler-fernflower/src/main/java/qunar/tc/decompiler/main/rels/MethodProcessorRunnable.java:143-149 | A stopped run passes through unchanged, and the number of answers left never grows. |
| Schedule.OuterRound | bistoury-decompiler-fernflower/src/main/java/qunar/tc/decompiler/main/rels/MethodProcessorRunnable.java:136-153 | A running round consumes at least one answer, which is what makes the outer loop end once the answers are spent. A stopped run passes through unchanged. |
| Schedule.OuterLoop | bistoury-decompiler-fernflower/src/main/java/qunar/tc/decompiler/main/rels/MethodProcessorRunnable.java:135-166 | A stopped run passes through unchanged, and the number of answers left never grows. |
| ScheduleRuns.PrologueRunsPasses | bistoury-decompiler-fernflower/src/main/java/qunar/tc/decompiler/main/rels/MethodProcessorRunnable.java:71-99 | The prologue with its two option gates invokes exactly ProloguePasses(opts), in order. That is the graph passes through restorePopRanges, then the enabled gated passes, then insertEmptyExceptionHandlerBlocks, mergeBasicBlocks and the variable-counter reset. |
| ScheduleRuns.FinallySettles | bistoury-decompiler-fernflower/src/main/java/qunar/tc/decompiler/main/rels/MethodProcessorRunnable.java:108-110 | From the automaton state that tests iterateGraph, the finally loop leads to the first pass of lines 114-125. |
| ScheduleRuns.StackSettles | bistoury-decompiler-fernflower/src/main/java/qunar/tc/decompiler/main/rels/MethodProcessorRunnable.java:129-133 | From simplifyStackVars, the stack-variable loop leads to the start of an outer round. |
| ScheduleRuns.EnhanceSettles | bistoury-decompiler-fernflower/src/main/java/qunar/tc/decompiler/main/rels/MethodProcessorRunnable.java:138-141 | From enhanceLoops, the enhance loop leads to the not-null block when its option is set, and to identifyLabels otherwise. |
| ScheduleRuns.NotNullSettles | bistoury-decompiler-fernflower/src/main/java/qunar/tc/decompiler/main/rels/MethodProcessorRunnable.java:143-149 | The not-null block leads to identifyLabels. |
| ScheduleRuns.RoundSettles | bistoury-decompiler-fernflower/src/main/java/qunar/tc/decompiler/main/rels/MethodProcessorRunnable.java:136-155 | One outer round ends where the answer of inlineSingleBlocks leads: back to cleanUpEdges on true; otherwise to the epilogue for an initializer and to condenseExits for any other method. |
| ScheduleRuns.OuterSettles | bistoury-decompiler-fernflower/src/main/java/qunar/tc/decompiler/main/rels/MethodProcessorRunnable.java:135-166 | From cleanUpEdges, the outer loop leads to removeRedundantReturns. |
| ScheduleRuns.CondenseSettles | bistoury-decompiler-fernflower/src/main/java/qunar/tc/decompiler/main/rels/MethodProcessorRunnable.java:157-160 | After inlineSingleBlocks returned false in a method that is not an initializer, condenseExits and the rest of the loop lead to removeRedundantReturns. |
| ScheduleRuns.EpilogueSettles | bistoury-decompiler-fernflower/src/main/java/qunar/tc/decompiler/main/rels/MethodProcessorRunnable.java:168-178 | The epilogue passes take the run to Finished. |
| ScheduleRuns.PipelineSettles | bistoury-decompiler-fernflower/src/main/java/qunar/tc/decompiler/main/rels/MethodProcessorRunnable.java:64-181 | Every run of codeToJava follows the automaton. A run that returned is in Finished, one where a pass threw is in Aborted, and one that ran out of answers waits for a pass. |
| CodeToJavaProperties.PipelineFollows | bistoury-decompiler-fernflower/src/main/java/qunar/tc/decompiler/main/rels/MethodProcessorRunnable.java:64-181 | The trace of codeToJava never leaves the schedule. It ends in Finished when the run returned and in Aborted when a pass threw. |
| CodeToJavaProperties.ClinitNeverCondensesExits | bistoury-decompiler-fernflower/src/main/java/qunar/tc/decompiler/main/rels/MethodProcessorRunnable.java:157-159 | For a method named `<clinit>` (the test at line 67), no event of the trace is condenseExits. |
| CodeToJavaProperties.PipelineGates | bistoury-decompiler-fernflower/src/main/java/qunar/tc/decompiler/main/rels/MethodProcessorRunnable.java:83-95 | In a run that returned, restorePopRanges and insertEmptyExceptionHandlerBlocks are invoked. removeEmptyRanges is invoked if and only if REMOVE_EMPTY_RANGES is set. incorporateValueReturns is invoked if and only if NO_EXCEPTIONS_RETURN is set. Every invocation of either lies strictly between the two fixed passes. |
| CodeToJavaProperties.PipelineNotNullGated | bistoury-decompiler-fernflower/src/main/java/qunar/tc/decompiler/main/rels/MethodProcessorRunnable.java:143-148 | In every run of codeToJava, from the first cleanUpEdges on, condenseSequences, simplifyStackVars and setVarVersions are invoked only by the not-null block. IDEA_NOT_NULL_ANNOTATION is set, and removeHardcodedChecks returned true 1, 2 or 3 events earlier, inside the outer loop. With the option off, the outer loop invokes none of the three. |
| CodeToJavaProperties.ParseGraphRuns | bistoury-decompiler-fernflower/src/main/java/qunar/tc/decompiler/main/rels/MethodProcessorRunnable.java:105-110 | In a run that returned, parseGraph is invoked 1 + k times, k being the number of times iterateGraph returned true. |
| CodeToJavaProperties.StackLoopRuns | bistoury-decompiler-fernflower/src/main/java/qunar/tc/decompiler/main/rels/MethodProcessorRunnable.java:129-133 | In a run that returned, findPPandMM is invoked once more than the number of times it returned true. So the loop body ran at least once and ended on the first false. Each findPPandMM comes right after simplifyStackVars and then setVarVersions, so the body runs in source order. |
| CodeToJavaProperties.PipelineEndsWithEpilogue | bistoury-decompiler-fernflower/src/main/java/qunar/tc/decompiler/main/rels/MethodProcessorRunnable.java:168-178 | In a run that returned, the last five events invoke exactly removeRedundantReturns, identifySecondaryFunctions, setVarDefinitions, replaceContinueWithBreak and releaseResources, in that order. |
| QuietRun.FalseOuter | bistoury-decompiler-fernflower/src/main/java/qunar/tc/decompiler/main/rels/MethodProcessorRunnable.java:135-166 | With IDEA_NOT_NULL_ANNOTATION off and every answer false, the outer loop appends exactly cleanUpEdges, enhanceLoops, extractLoops, mergeAllIfs, identifyLabels and inlineSingleBlocks, each returning false. For a method that is not an initializer, condenseExits returning false follows. Then the loop leaves. So 6 or 7 events are added. |
| QuietRun.FalsePipeline | bistoury-decompiler-fernflower/src/main/java/qunar/tc/decompiler/main/rels/MethodProcessorRunnable.java:64-181 | With no option set and every answer false, codeToJava returns. Its trace is exactly QuietSchedule: each pass of the source once, in source order, each returning false. That is 32 pass invocations, or 31 for an initializer, which skips condenseExits. |
| QuietRun.ReturningRunExists | bistoury-decompiler-fernflower/src/main/java/qunar/tc/decompiler/main/rels/MethodProcessorRunnable.java:64-181 | Some method and options make codeToJava return, so the lemmas that assume a run that returned are not vacuous. |
| TraceProperties.NoCondenseState | bistoury-decompiler-fernflower/src/main/java/qunar/tc/decompiler/main/rels/MethodProcessorRunnable.java:157-159 | For an initializer, no trace reaches the state that invokes condenseExits. |
| TraceProperties.InitializerNeverCondensesExits | bistoury-decompiler-fernflower/src/main/java/qunar/tc/decompiler/main/rels/MethodProcessorRunnable.java:157-159 | In every trace of an initializer that follows the schedule, no event is condenseExits. |
| TraceProperties.PrologueAt | bistoury-decompiler-fernflower/src/main/java/qunar/tc/decompiler/main/rels/MethodProcessorRunnable.java:71-99 | Within the prologue, the state after i events is the i-th prologue pass: the prologue is a straight line. |
| TraceProperties.OptionGates | bistoury-decompiler-fernflower/src/main/java/qunar/tc/decompiler/main/rels/MethodProcessorRunnable.java:83-95 | In any trace that follows the schedule, each of these holds as an if-and-only-if at every index. restorePopRanges is at the last graph position. removeEmptyRanges is right after it, exactly when its option is set. incorporateValueReturns is next, exactly when its option is set. insertEmptyExceptionHandlerBlocks comes right after the enabled gated passes. |
| TraceProperties.GatesInFinishedTrace | bistoury-decompiler-fernflower/src/main/java/qunar/tc/decompiler/main/rels/MethodProcessorRunnable.java:83-95 | In a completed trace, each gated pass occurs if and only if its option is set, and only between restorePopRanges and insertEmptyExceptionHandlerBlocks. |
| TraceProperties.ParseGraphCount | bistoury-decompiler-fernflower/src/main/java/qunar/tc/decompiler/main/rels/MethodProcessorRunnable.java:105-110 | In every trace that follows the schedule and has not aborted, the parseGraph count equals the count of true answers of iterateGraph, plus one once the first parse has happened and the loop is not in its body. |
| TraceProperties.FinallyLoopRepeats | bistoury-decompiler-fernflower/src/main/java/qunar/tc/decompiler/main/rels/MethodProcessorRunnable.java:108-114 | iterateGraph returning true is followed by parseGraph. Returning false, it is followed by removeSynchronizedHandler. |
| TraceProperties.FindCount | bistoury-decompiler-fernflower/src/main/java/qunar/tc/decompiler/main/rels/MethodProcessorRunnable.java:129-133 | In every trace that follows the schedule and has not aborted, the findPPandMM count equals the count of its true answers, plus one once the loop is over. |
| TraceProperties.FindAfterStackBody | bistoury-decompiler-fernflower/src/main/java/qunar/tc/decompiler/main/rels/MethodProcessorRunnable.java:129-133 | In every trace that follows the schedule, each findPPandMM at index i has i > 1, simplifyStackVars at i - 2 and setVarVersions at i - 1: it ends a full loop body. |
| TraceProperties.StackBodies | bistoury-decompiler-fernflower/src/main/java/qunar/tc/decompiler/main/rels/MethodProcessorRunnable.java:129-133 | The same at every index of the trace at once (StackBodyBeforeEachFind). |
| TraceProperties.StackLoopRepeats | bistoury-decompiler-fernflower/src/main/java/qunar/tc/decompiler/main/rels/MethodProcessorRunnable.java:129-136 | After findPPandMM comes simplifyStackVars when it returned true, and cleanUpEdges when it returned false. |
| TraceProperties.EnhanceAfterCleanUp | bistoury-decompiler-fernflower/src/main/java/qunar/tc/decompiler/main/rels/MethodProcessorRunnable.java:136-139 | Every outer round runs enhanceLoops right after cleanUpEdges, so at least once per round. |
| TraceProperties.ExtractDecides | bistoury-decompiler-fernflower/src/main/java/qunar/tc/decompiler/main/rels/MethodProcessorRunnable.java:138-141 | extractLoops returning true repeats enhanceLoops at once, without mergeAllIfs. Otherwise mergeAllIfs follows. |
| TraceProperties.MergeDecides | bistoury-decompiler-fernflower/src/main/java/qunar/tc/decompiler/main/rels/MethodProcessorRunnable.java:138-151 | mergeAllIfs returning true repeats enhanceLoops. Returning false, it is followed by removeHardcodedChecks when IDEA_NOT_NULL_ANNOTATION is set, and by identifyLabels otherwise. |
| TraceProperties.MergeAfterExtract | bistoury-decompiler-fernflower/src/main/java/qunar/tc/decompiler/main/rels/MethodProcessorRunnable.java:141 | mergeAllIfs is invoked only right after extractLoops returned false. |
| TraceProperties.NotNullGated | bistoury-decompiler-fernflower/src/main/java/qunar/tc/decompiler/main/rels/MethodProcessorRunnable.java:143-144 | removeHardcodedChecks is invoked only when IDEA_NOT_NULL_ANNOTATION is set. |
| TraceProperties.NotNullBlockRuns | bistoury-decompiler-fernflower/src/main/java/qunar/tc/decompiler/main/rels/MethodProcessorRunnable.java:143-151 | removeHardcodedChecks returning true is followed, for as long as the trace lasts, by condenseSequences, simplifyStackVars, setVarVersions, then identifyLabels (RunsFrom). Returning false, it is followed by identifyLabels directly. |
| TraceProperties.StaysOuter | bistoury-decompiler-fernflower/src/main/java/qunar/tc/decompiler/main/rels/MethodProcessorRunnable.java:135-178 | Once cleanUpEdges has been invoked, the trace never returns to the states before the outer loop: every later state is one of the outer loop, the not-null block or the epilogue. |
| TraceProperties.NotNullPassFollowsCheck | bistoury-decompiler-fernflower/src/main/java/qunar/tc/decompiler/main/rels/MethodProcessorRunnable.java:143-148 | The converse of NotNullBlockRuns. After a cleanUpEdges at index j, condenseSequences at index i is always preceded by removeHardcodedChecks returning true at i - 1. The same holds for simplifyStackVars at i - 2 and setVarVersions at i - 3. That event lies after j, and IDEA_NOT_NULL_ANNOTATION is set. |
| TraceProperties.NotNullPassesGated | bistoury-decompiler-fernflower/src/main/java/qunar/tc/decompiler/main/rels/MethodProcessorRunnable.java:143-148 | The same at every pair of indices (NotNullPassesFollowCheck). |
| TraceProperties.InlineDecides | bistoury-decompiler-fernflower/src/main/java/qunar/tc/decompiler/main/rels/MethodProcessorRunnable.java:153-158 | inlineSingleBlocks returning true restarts the round at cleanUpEdges, with no condenseExits. Returning false, it goes to removeRedundantReturns for an initializer and to condenseExits otherwise. |
| TraceProperties.CondenseDecides | bistoury-decompiler-fernflower/src/main/java/qunar/tc/decompiler/main/rels/MethodProcessorRunnable.java:158-168 | condenseExits returning true restarts the loop at cleanUpEdges. Returning false, it leaves the loop for removeRedundantReturns. |
| TraceProperties.CondenseAfterInline | bistoury-decompiler-fernflower/src/main/java/qunar/tc/decompiler/main/rels/MethodProcessorRunnable.java:153-158 | condenseExits is invoked only in a method that is not an initializer, and only right after inlineSingleBlocks returned false. |
| TraceProperties.OuterLoopExit | bistoury-decompiler-fernflower/src/main/java/qunar/tc/decompiler/main/rels/MethodProcessorRunnable.java:153-168 | The loop is left only after inlineSingleBlocks returned false. For an initializer the exit follows immediately; otherwise condenseExits must also have returned false. |
| TraceProperties.ReplaceContinueWithBreakLast | bistoury-decompiler-fernflower/src/main/java/qunar/tc/decompiler/main/rels/MethodProcessorRunnable.java:174-178 | After replaceContinueWithBreak, the only further event is releaseResources, at the next index. No tree pass follows it. |

## Left out

- The `lock` object, the `volatile` qualifiers and the `notifyAll` signal
  (lines 23, 30-32, 59-61) are thread signalling and are not modelled.
  `finished` is a plain field set at the end of `run`.
- `DecompilerContext.setCurrentContext` (lines 50 and 55) is process-wide
  thread-local state. The parent context enters only as the `Options` that
  `codeToJava` reads.
- `mt.expandData()` and its `IOException`, together with
  `getInstructionSequence` (lines 69-70), are not separate steps. A failure
  there is represented by the first answer, which belongs to the graph
  construction at line 71, being a throw.
- The warning about obfuscated exception ranges (lines 101-103) is logging
  only and does not change the schedule.
- The pass bodies, and the classes that carry them (`ControlFlowGraph`,
  `DeadCodeHelper`, `ExceptionDeobfuscator`, `DomHelper`, `FinallyProcessor`,
  `ExprProcessor`, `StackVarsProcessor`, `PPandMMHelper`, `MergeHelper`,
  `LoopExtractHelper`, `IfHelper`, `IdeaNotNullHelper`, `LabelHelper`,
  `InlineSingleBlockHelper`, `ExitHelper`, `SecondaryFunctionsHelper`,
  `VarProcessor`), are not part of this model. Each pass is an oracle-driven
  step. The statement tree is known only by the trace of passes that built it
  (`Root(history)`).
- The `MethodDescriptor` and `VarProcessor` arguments, the owning class `cl`
  and `CounterContainer` only feed the pass bodies and are not modelled.
  `CodeConstants` is not part of this model; its `CLINIT_NAME` is the constant
  `"<clinit>"`.
- MethodProcessor.MethodProcessorRunnable.Run: a run whose oracle runs out
  before `codeToJava` returns leaves `root` and `error` cleared and `finished`
  unchanged. In the source that thread would still be inside `codeToJava`, so
  the model's state is the one an observer sees mid-run.
- MethodProcessor.EnhanceStructure: the outer loop of `codeToJava` is a method
  of its own. The loop itself is the source's, but in the source it sits inline
  in `codeToJava`.
- The source puts no ceiling on its four loops, and the model adds none. A loop
  that would not end in the source is, in the model, a run that consumes every
  answer and ends `Starved`.
- Awaiting completion with a timeout happens in the caller of this class, which
  is not part of this model.
- `JarInfoCommand.java` and `AppCenterServerFinder.java` are not modelled:
  one is command plumbing for an external client, the other a one-line DAO
  delegation.

## Loop exits

- The code puts no iteration ceiling on any of its four loops and raises no
  error for a loop that does not converge.
- Only `inlineSingleBlocks` or `condenseExits` returning true restarts the
  outer loop. `condenseExits` is reached only in a method that is not an
  initializer. The answers of `cleanUpEdges`, `identifyLabels` and the
  not-null block never restart it.
