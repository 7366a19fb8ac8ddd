/**
 * The properties of the trace of codeToJava itself, Pipeline(mt, opts), drawn from
 * the schedule automaton it follows. "Returned" below means the run is still Running
 * after its last pass, i.e. codeToJava returned its root.
 */
module CodeToJavaProperties {
  import opened Passes
  import opened Schedule
  import opened ScheduleAutomaton
  import opened ScheduleRuns
  import opened TraceProperties

  /** The trace of codeToJava follows the schedule; it ends in Finished when the run
      returned and in Aborted when a pass threw. */
  lemma PipelineFollows(mt: StructMethod, opts: Options)
    ensures var p := Pipeline(mt, opts);
      StateAfter(IsInitializer(mt), opts, p.events) != Dead
      && (p.status.Running? ==> StateAfter(IsInitializer(mt), opts, p.events) == Finished)
      && (p.status.Raised? ==> StateAfter(IsInitializer(mt), opts, p.events) == Aborted)
  {
    PipelineSettles(mt, opts);
  }

  /** For <clinit> no condenseExits is ever invoked. */
  lemma ClinitNeverCondensesExits(mt: StructMethod, opts: Options)
    requires mt.name == ClinitName
    ensures var es := Pipeline(mt, opts).events;
      forall i | 0 <= i < |es| :: es[i].pass != CondenseExits
  {
    var es := Pipeline(mt, opts).events;
    PipelineFollows(mt, opts);
    forall i | 0 <= i < |es| ensures es[i].pass != CondenseExits {
      InitializerNeverCondensesExits(opts, es, i);
    }
  }

  /** In a run that returned, restorePopRanges and insertEmptyExceptionHandlerBlocks
      are invoked, and each gated pass is invoked exactly when its option is set,
      between the two. */
  lemma PipelineGates(mt: StructMethod, opts: Options)
    requires Pipeline(mt, opts).status.Running?
    ensures var es := Pipeline(mt, opts).events;
      var g := |GraphPasses|;
      g + |Gates(opts)| < |es|
      && es[g - 1].pass == RestorePopRanges
      && es[g + |Gates(opts)|].pass == InsertEmptyExceptionHandlerBlocks
      && (opts.removeEmptyRanges <==> exists i | 0 <= i < |es| :: es[i].pass == RemoveEmptyRanges)
      && (opts.noExceptionsReturn <==> exists i | 0 <= i < |es| :: es[i].pass == IncorporateValueReturns)
      && (forall i | 0 <= i < |es| && es[i].pass in {RemoveEmptyRanges, IncorporateValueReturns} ::
            g <= i < g + |Gates(opts)|)
  {
    PipelineFollows(mt, opts);
    GatesInFinishedTrace(IsInitializer(mt), opts, Pipeline(mt, opts).events);
  }

  /** From the first cleanUpEdges on, condenseSequences, simplifyStackVars and
      setVarVersions are invoked only by the not-null block: IDEA_NOT_NULL_ANNOTATION is
      set and removeHardcodedChecks returned true 1, 2 or 3 events earlier, inside the
      outer loop. So with the option off the outer loop invokes none of them. */
  lemma PipelineNotNullGated(mt: StructMethod, opts: Options)
    ensures NotNullPassesFollowCheck(opts, Pipeline(mt, opts).events)
  {
    PipelineFollows(mt, opts);
    NotNullPassesGated(IsInitializer(mt), opts, Pipeline(mt, opts).events);
  }

  /** parseGraph runs 1 + k times in a run that returned, k being the number of
      times iterateGraph returned true. */
  lemma ParseGraphRuns(mt: StructMethod, opts: Options)
    requires Pipeline(mt, opts).status.Running?
    ensures var es := Pipeline(mt, opts).events;
      Count(es, ParseGraph) == 1 + CountYes(es, IterateGraph)
  {
    var es := Pipeline(mt, opts).events;
    PipelineFollows(mt, opts);
    FinishedParseCount(IsInitializer(mt), opts, es);
  }

  /** In a run that returned, the stack-variable loop body ran once more than the
      number of times findPPandMM returned true, so at least once, and each
      findPPandMM comes right after simplifyStackVars and setVarVersions. */
  lemma StackLoopRuns(mt: StructMethod, opts: Options)
    requires Pipeline(mt, opts).status.Running?
    ensures var es := Pipeline(mt, opts).events;
      Count(es, FindPPandMM) == 1 + CountYes(es, FindPPandMM)
      && StackBodyBeforeEachFind(es)
  {
    var es := Pipeline(mt, opts).events;
    PipelineFollows(mt, opts);
    assert StateAfter(IsInitializer(mt), opts, es) == Finished;
    FindCount(IsInitializer(mt), opts, es);
    assert StackDone(Finished);
    StackBodies(IsInitializer(mt), opts, es);
  }

  /** A run that returned ends with the epilogue passes, replaceContinueWithBreak and
      then releaseResources last. */
  lemma PipelineEndsWithEpilogue(mt: StructMethod, opts: Options)
    requires Pipeline(mt, opts).status.Running?
    ensures EndsWith(Pipeline(mt, opts).events, EpiloguePasses)
  {
    CallsTail(mt.answers, AfterOuterLoop(mt, opts), EpiloguePasses);
  }
}
