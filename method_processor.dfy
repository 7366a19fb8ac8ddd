/**
 * MethodProcessorRunnable: the per-method unit of work. codeToJava drives the
 * passes through its loops; run captures either the resulting statement tree or
 * the thrown error and marks the unit finished; getResult hands the outcome over.
 */
module MethodProcessor {
  import opened Passes
  import opened Schedule
  import opened ScheduleAutomaton
  import opened ScheduleRuns

  /** The RootStatement codeToJava returns: the statement tree, known here only by
      the passes that built and transformed it. */
  datatype Root = Root(history: seq<Event>)

  /** What getResult gives the caller: the root (null before the run has returned)
      or the captured error, rethrown. */
  datatype Handoff = Returned(root: Option<Root>) | Rethrown(error: Fault)

  /** codeToJava, lines 64-181, step by step. The loops are the source's loops; each
      do-while is written with a flag that holds the value of its condition. */
  method CodeToJava(mt: StructMethod, opts: Options) returns (result: Progress)
    ensures result == Pipeline(mt, opts)
  {
    var ans := mt.answers;
    var isInitializer := mt.name == ClinitName;

    var r := Calls(ans, Start(), GraphPasses);
    if opts.removeEmptyRanges {
      r := Call(ans, r, RemoveEmptyRanges);
    }
    if opts.noExceptionsReturn {
      r := Call(ans, r, IncorporateValueReturns);
    }
    r := Calls(ans, r, MergePasses);
    assert r == Prologue(opts, ans);
    r := Call(ans, r, ParseGraph);

    // while (fProc.iterateGraph(...)) { root = parseGraph(graph); }
    ghost var atFinally := r;
    r := Call(ans, r, IterateGraph);
    while Yes(r)
      invariant FinallyLoop(ans, atFinally) == (if Yes(r) then FinallyLoop(ans, Call(ans, r, ParseGraph)) else r)
      decreases Measure(ans, r)
    {
      r := Call(ans, r, ParseGraph);
      r := Call(ans, r, IterateGraph);
    }
    assert r == FinallyLoop(ans, atFinally);

    r := Calls(ans, r, MiddlePasses);

    // do { simplifyStackVars; setVarVersions } while (findPPandMM)
    ghost var atStack := r;
    var again := true;
    while again
      invariant StackVarsLoop(ans, atStack) == (if again then StackVarsLoop(ans, r) else r)
      decreases Measure(ans, r), again
    {
      r := Call(ans, r, SimplifyStackVars);
      r := Call(ans, r, SetVarVersions);
      r := Call(ans, r, FindPPandMM);
      again := Yes(r);
    }

    r := EnhanceStructure(isInitializer, opts, ans, r);
    result := Calls(ans, r, EpiloguePasses);
  }

  /** Lines 135-166 of codeToJava: the outer while (true) loop with the enhance-loops
      do-while inside it; inlineSingleBlocks reporting a change continues it, and it
      breaks for an initializer or when condenseExits reports no change. */
  method EnhanceStructure(isInitializer: bool, opts: Options, ans: seq<Answer>, start: Progress)
    returns (r: Progress)
    ensures r == OuterLoop(isInitializer, opts, ans, start)
  {
    r := start;
    while true
      invariant OuterLoop(isInitializer, opts, ans, start) == OuterLoop(isInitializer, opts, ans, r)
      decreases Measure(ans, r)
    {
      ghost var roundStart := r;
      r := Call(ans, r, CleanUpEdges);

      // do { enhanceLoops } while (extractLoops || mergeAllIfs)
      ghost var atEnhance := r;
      var again := true;
      while again
        invariant EnhanceLoop(ans, atEnhance) == (if again then EnhanceLoop(ans, r) else r)
        decreases Measure(ans, r), again
      {
        r := Call(ans, r, EnhanceLoops);
        r := Call(ans, r, ExtractLoops);
        if !Yes(r) {
          r := Call(ans, r, MergeAllIfs);
        }
        again := Yes(r);
      }
      ghost var enhanced := r;
      assert enhanced == EnhanceLoop(ans, atEnhance);

      if opts.ideaNotNullAnnotation {
        r := Call(ans, r, RemoveHardcodedChecks);
        if Yes(r) {
          r := Calls(ans, r, NotNullPasses);
        }
      }
      assert r == NotNullBlock(opts, ans, enhanced);

      r := Call(ans, r, IdentifyLabels);
      r := Call(ans, r, InlineSingleBlocks);
      assert r == OuterRound(opts, ans, roundStart);
      if Yes(r) {
        continue;
      }
      // an initializer has at most one return point: its exits are left alone
      if isInitializer {
        break;
      }
      r := Call(ans, r, CondenseExits);
      if !Yes(r) {
        break;
      }
    }
  }

  /** The runnable of one method, lines 22-43 and 45-62, 183-191: it decompiles the
      method under the options of its parent context, and hands the outcome over. */
  class MethodProcessorRunnable {
    const mt: StructMethod
    const parentContext: Options

    var root: Option<Root>
    var error: Option<Fault>
    var finished: bool

    constructor (mt: StructMethod, parentContext: Options)
      ensures this.mt == mt && this.parentContext == parentContext
      ensures root == None && error == None && !finished
    {
      this.mt := mt;
      this.parentContext := parentContext;
      root := None;
      error := None;
      finished := false;
    }

    /** The outcome as getResult reports it: a recorded error is rethrown, otherwise
        the root (None while no run has returned one). */
    function GetResult(): (h: Handoff)
      reads this
      ensures h.Rethrown? <==> error.Some?
      ensures h.Rethrown? ==> h.error == error.value
      ensures h.Returned? ==> h.root == root
    {
      if error.Some? then Rethrown(error.value) else Returned(root)
    }

    function IsFinished(): (b: bool)
      reads this
      ensures b <==> finished
    {
      finished
    }

    /** run(): clear the outcome, decompile, record the root or the error, and mark
        the unit finished. A run whose passes are not all answered has not come back
        from codeToJava: it is seen with the outcome cleared and finished as it was. */
    method Run()
      modifies this
      ensures var p := Pipeline(mt, parentContext);
        match p.status
        case Running =>
          root == Some(Root(p.events)) && error == None && finished
          && GetResult() == Returned(Some(Root(p.events)))
          && StateAfter(IsInitializer(mt), parentContext, p.events) == Finished
        case Raised(fault) =>
          error == Some(fault) && root == None && finished
          && GetResult() == Rethrown(fault)
          && StateAfter(IsInitializer(mt), parentContext, p.events) == Aborted
        case Starved =>
          root == None && error == None && finished == old(finished)
          && GetResult() == Returned(None)
    {
      var p := CodeToJava(mt, parentContext);
      PipelineSettles(mt, parentContext);
      Record(p);
    }

    /** The try/catch/finally of run around the call of codeToJava, given what that
        call did: p returned a root, threw, or did not come back. */
    method Record(p: Progress)
      modifies this
      ensures match p.status
        case Running =>
          root == Some(Root(p.events)) && error == None && finished
          && GetResult() == Returned(Some(Root(p.events)))
        case Raised(fault) =>
          error == Some(fault) && root == None && finished
          && GetResult() == Rethrown(fault)
        case Starved =>
          root == None && error == None && finished == old(finished)
          && GetResult() == Returned(None)
    {
      error := None;
      root := None;
      if p.status.Starved? {
        return;
      }
      if p.status.Raised? {
        error := Some(p.status.fault);
      } else {
        root := Some(Root(p.events));
      }
      finished := true;
    }
  }
}
