/**
 * Every run of codeToJava follows the schedule automaton: one lemma per stretch or
 * loop of the source, each taking a run that has reached the state where that part
 * begins to the state where it ends.
 */
module ScheduleRuns {
  import opened Passes
  import opened Schedule
  import opened ScheduleAutomaton

  /** The run r is in state q of the automaton: while it goes on its trace leads to q;
      once a pass threw, the trace ends in Aborted; when the oracle ran dry, the trace
      leads to a state that is waiting for a pass. */
  ghost predicate Settled(isInitializer: bool, opts: Options, r: Progress, q: State) {
    var t := StateAfter(isInitializer, opts, r.events);
    match r.status
    case Running => t == q
    case Raised(_) => t == Aborted
    case Starved => Expected(opts, t).Some?
  }

  /** Invoking the pass that q expects moves the run to the state after q. */
  lemma CallSettles(isInitializer: bool, opts: Options, ans: seq<Answer>, r: Progress, q: State, p: Pass)
    requires Settled(isInitializer, opts, r, q) && Expected(opts, q) == Some(p)
    ensures var r' := Call(ans, r, p);
      Settled(isInitializer, opts, r', Next(isInitializer, opts, q, Yes(r')))
  {
    if r.status.Running? && |r.events| < |ans| {
      var es := r.events + [Event(p, ans[|r.events|])];
      assert es[..|es| - 1] == r.events;
    }
  }

  /** The passes of a stretch from the i-th on take the run to the stretch's exit. */
  lemma {:induction false} LineSettles(isInitializer: bool, opts: Options, ans: seq<Answer>, r: Progress, st: Stretch, i: nat)
    requires i < |StretchPasses(opts, st)| && Settled(isInitializer, opts, r, Line(st, i))
    ensures Settled(isInitializer, opts, Calls(ans, r, StretchPasses(opts, st)[i..]), StretchExit(st))
    decreases |StretchPasses(opts, st)| - i
  {
    var ps := StretchPasses(opts, st);
    assert ps[i..][0] == ps[i];
    assert ps[i..][1..] == ps[i + 1..];
    CallSettles(isInitializer, opts, ans, r, Line(st, i), ps[i]);
    var r1 := Call(ans, r, ps[i]);
    assert Next(isInitializer, opts, Line(st, i), Yes(r1)) == if i + 1 < |ps| then Line(st, i + 1) else StretchExit(st);
    if i + 1 < |ps| {
      LineSettles(isInitializer, opts, ans, r1, st, i + 1);
    }
  }

  lemma StretchSettles(isInitializer: bool, opts: Options, ans: seq<Answer>, r: Progress, st: Stretch)
    requires Settled(isInitializer, opts, r, Line(st, 0))
    ensures Settled(isInitializer, opts, Calls(ans, r, StretchPasses(opts, st)), StretchExit(st))
  {
    assert StretchPasses(opts, st)[0..] == StretchPasses(opts, st);
    LineSettles(isInitializer, opts, ans, r, st, 0);
  }

  /** The prologue invokes exactly the passes of ProloguePasses, in order. */
  lemma PrologueRunsPasses(opts: Options, ans: seq<Answer>)
    ensures Prologue(opts, ans) == Calls(ans, Start(), ProloguePasses(opts))
  {
    var g1 := if opts.removeEmptyRanges then [RemoveEmptyRanges] else [];
    var g2 := if opts.noExceptionsReturn then [IncorporateValueReturns] else [];
    var r0 := Calls(ans, Start(), GraphPasses);
    GatePass(ans, r0, opts.removeEmptyRanges, RemoveEmptyRanges);
    GatePass(ans, Calls(ans, r0, g1), opts.noExceptionsReturn, IncorporateValueReturns);
    CallsAppend4(ans, Start(), GraphPasses, g1, g2, MergePasses);
    assert Gates(opts) == g1 + g2;
  }

  /** Invoking four lists one after another is invoking their concatenation. */
  lemma CallsAppend4(ans: seq<Answer>, r: Progress, a: seq<Pass>, b: seq<Pass>, c: seq<Pass>, d: seq<Pass>)
    ensures Calls(ans, r, a + (b + c) + d) == Calls(ans, Calls(ans, Calls(ans, Calls(ans, r, a), b), c), d)
  {
    CallsAppend(ans, r, a, b + c);
    CallsAppend(ans, Calls(ans, r, a), b, c);
    CallsAppend(ans, r, a + (b + c), d);
  }

  /** A pass invoked only when its option is set. */
  lemma GatePass(ans: seq<Answer>, r: Progress, enabled: bool, p: Pass)
    ensures Calls(ans, r, if enabled then [p] else []) == if enabled then Call(ans, r, p) else r
  {
    if enabled {
      assert [p][1..] == [];
    }
  }

  /** The finally loop ends, when the run goes on, where the middle stretch begins. */
  lemma {:induction false} FinallySettles(isInitializer: bool, opts: Options, ans: seq<Answer>, r: Progress)
    requires Settled(isInitializer, opts, r, FinallyTest)
    ensures Settled(isInitializer, opts, FinallyLoop(ans, r), Line(MiddleStretch, 0))
    decreases Measure(ans, r)
  {
    var r1 := Call(ans, r, IterateGraph);
    CallSettles(isInitializer, opts, ans, r, FinallyTest, IterateGraph);
    if Yes(r1) {
      assert Next(isInitializer, opts, FinallyTest, Yes(r1)) == FinallyParse;
      var r2 := Call(ans, r1, ParseGraph);
      CallSettles(isInitializer, opts, ans, r1, FinallyParse, ParseGraph);
      assert Next(isInitializer, opts, FinallyParse, Yes(r2)) == FinallyTest;
      FinallySettles(isInitializer, opts, ans, r2);
    } else {
      assert Next(isInitializer, opts, FinallyTest, Yes(r1)) == Line(MiddleStretch, 0);
    }
  }

  lemma {:induction false} StackSettles(isInitializer: bool, opts: Options, ans: seq<Answer>, r: Progress)
    requires Settled(isInitializer, opts, r, StackSimplify)
    ensures Settled(isInitializer, opts, StackVarsLoop(ans, r), RoundStart)
    decreases Measure(ans, r)
  {
    var r1 := Call(ans, r, SimplifyStackVars);
    var r2 := Call(ans, r1, SetVarVersions);
    var r3 := Call(ans, r2, FindPPandMM);
    CallSettles(isInitializer, opts, ans, r, StackSimplify, SimplifyStackVars);
    assert Next(isInitializer, opts, StackSimplify, Yes(r1)) == StackVersions;
    CallSettles(isInitializer, opts, ans, r1, StackVersions, SetVarVersions);
    assert Next(isInitializer, opts, StackVersions, Yes(r2)) == StackFind;
    CallSettles(isInitializer, opts, ans, r2, StackFind, FindPPandMM);
    if Yes(r3) {
      assert Next(isInitializer, opts, StackFind, Yes(r3)) == StackSimplify;
      StackSettles(isInitializer, opts, ans, r3);
    } else {
      assert Next(isInitializer, opts, StackFind, Yes(r3)) == RoundStart;
    }
  }

  lemma {:induction false} EnhanceSettles(isInitializer: bool, opts: Options, ans: seq<Answer>, r: Progress)
    requires Settled(isInitializer, opts, r, EnhanceTop)
    ensures Settled(isInitializer, opts, EnhanceLoop(ans, r), AfterEnhance(opts))
    decreases Measure(ans, r)
  {
    var r2 := Call(ans, Call(ans, r, EnhanceLoops), ExtractLoops);
    ExtractSettles(isInitializer, opts, ans, r);
    if Yes(r2) {
      EnhanceSettles(isInitializer, opts, ans, r2);
    } else {
      var r3 := Call(ans, r2, MergeAllIfs);
      MergeSettles(isInitializer, opts, ans, r2);
      if Yes(r3) {
        EnhanceSettles(isInitializer, opts, ans, r3);
      }
    }
  }

  /** enhanceLoops then extractLoops: true goes back to enhanceLoops, false on to mergeAllIfs. */
  lemma ExtractSettles(isInitializer: bool, opts: Options, ans: seq<Answer>, r: Progress)
    requires Settled(isInitializer, opts, r, EnhanceTop)
    ensures var r2 := Call(ans, Call(ans, r, EnhanceLoops), ExtractLoops);
      Settled(isInitializer, opts, r2, if Yes(r2) then EnhanceTop else EnhanceMerge)
  {
    var r1 := Call(ans, r, EnhanceLoops);
    CallSettles(isInitializer, opts, ans, r, EnhanceTop, EnhanceLoops);
    assert Next(isInitializer, opts, EnhanceTop, Yes(r1)) == EnhanceExtract;
    CallSettles(isInitializer, opts, ans, r1, EnhanceExtract, ExtractLoops);
  }

  /** mergeAllIfs: true goes back to enhanceLoops, false leaves the loop. */
  lemma MergeSettles(isInitializer: bool, opts: Options, ans: seq<Answer>, r: Progress)
    requires Settled(isInitializer, opts, r, EnhanceMerge)
    ensures var r3 := Call(ans, r, MergeAllIfs);
      Settled(isInitializer, opts, r3, if Yes(r3) then EnhanceTop else AfterEnhance(opts))
  {
    CallSettles(isInitializer, opts, ans, r, EnhanceMerge, MergeAllIfs);
  }

  lemma NotNullSettles(isInitializer: bool, opts: Options, ans: seq<Answer>, r: Progress)
    requires Settled(isInitializer, opts, r, AfterEnhance(opts))
    ensures Settled(isInitializer, opts, NotNullBlock(opts, ans, r), Labels)
  {
    if opts.ideaNotNullAnnotation {
      var r1 := Call(ans, r, RemoveHardcodedChecks);
      CallSettles(isInitializer, opts, ans, r, NotNullCheck, RemoveHardcodedChecks);
      if Yes(r1) {
        assert Next(isInitializer, opts, NotNullCheck, Yes(r1)) == Line(NotNullStretch, 0);
        StretchSettles(isInitializer, opts, ans, r1, NotNullStretch);
        assert StretchPasses(opts, NotNullStretch) == NotNullPasses;
      } else {
        assert Next(isInitializer, opts, NotNullCheck, Yes(r1)) == Labels;
      }
    }
  }

  /** cleanUpEdges, the enhance-loops loop and the not-null block, lines 136-149. */
  lemma RoundBodySettles(isInitializer: bool, opts: Options, ans: seq<Answer>, r: Progress)
    requires Settled(isInitializer, opts, r, RoundStart)
    ensures Settled(isInitializer, opts, NotNullBlock(opts, ans, EnhanceLoop(ans, Call(ans, r, CleanUpEdges))), Labels)
  {
    var r1 := Call(ans, r, CleanUpEdges);
    CallSettles(isInitializer, opts, ans, r, RoundStart, CleanUpEdges);
    assert Next(isInitializer, opts, RoundStart, Yes(r1)) == EnhanceTop;
    EnhanceSettles(isInitializer, opts, ans, r1);
    NotNullSettles(isInitializer, opts, ans, EnhanceLoop(ans, r1));
  }

  /** One round of the outer loop ends where inlineSingleBlocks' answer leads. */
  lemma RoundSettles(isInitializer: bool, opts: Options, ans: seq<Answer>, r: Progress)
    requires Settled(isInitializer, opts, r, RoundStart)
    ensures var r' := OuterRound(opts, ans, r);
      Settled(isInitializer, opts, r', Next(isInitializer, opts, Inline, Yes(r')))
  {
    var r3 := NotNullBlock(opts, ans, EnhanceLoop(ans, Call(ans, r, CleanUpEdges)));
    RoundBodySettles(isInitializer, opts, ans, r);
    var r4 := Call(ans, r3, IdentifyLabels);
    CallSettles(isInitializer, opts, ans, r3, Labels, IdentifyLabels);
    assert Next(isInitializer, opts, Labels, Yes(r4)) == Inline;
    CallSettles(isInitializer, opts, ans, r4, Inline, InlineSingleBlocks);
  }

  lemma {:induction false} OuterSettles(isInitializer: bool, opts: Options, ans: seq<Answer>, r: Progress)
    requires Settled(isInitializer, opts, r, RoundStart)
    ensures Settled(isInitializer, opts, OuterLoop(isInitializer, opts, ans, r), Line(EpilogueStretch, 0))
    decreases Measure(ans, r), 1
  {
    var r1 := OuterRound(opts, ans, r);
    RoundSettles(isInitializer, opts, ans, r);
    if Yes(r1) {
      assert Next(isInitializer, opts, Inline, Yes(r1)) == RoundStart;
      OuterSettles(isInitializer, opts, ans, r1);
    } else if isInitializer {
      assert Next(isInitializer, opts, Inline, Yes(r1)) == Line(EpilogueStretch, 0);
    } else {
      assert Next(isInitializer, opts, Inline, Yes(r1)) == Condense;
      CondenseSettles(isInitializer, opts, ans, r, r1);
    }
  }

  /** The end of a round in a method that is not an initializer, when inlineSingleBlocks
      reported no change: condenseExits decides whether the loop goes on. */
  lemma {:induction false} CondenseSettles(isInitializer: bool, opts: Options, ans: seq<Answer>, r: Progress, r1: Progress)
    requires !isInitializer && r1 == OuterRound(opts, ans, r) && !Yes(r1)
    requires Settled(isInitializer, opts, r1, Condense)
    ensures Settled(isInitializer, opts, OuterLoop(isInitializer, opts, ans, r), Line(EpilogueStretch, 0))
    decreases Measure(ans, r), 0
  {
    var r2 := Call(ans, r1, CondenseExits);
    CallSettles(isInitializer, opts, ans, r1, Condense, CondenseExits);
    if Yes(r2) {
      assert Next(isInitializer, opts, Condense, Yes(r2)) == RoundStart;
      OuterSettles(isInitializer, opts, ans, r2);
    } else {
      assert Next(isInitializer, opts, Condense, Yes(r2)) == Line(EpilogueStretch, 0);
    }
  }

  /** The run up to the end of the finally loop (lines 71-110). */
  lemma FinallyStageSettles(mt: StructMethod, opts: Options)
    ensures Settled(IsInitializer(mt), opts, AfterFinally(mt, opts), Line(MiddleStretch, 0))
  {
    var ans := mt.answers;
    var isInit := IsInitializer(mt);
    PrologueRunsPasses(opts, ans);
    StretchSettles(isInit, opts, ans, Start(), PrologueStretch);
    var p := Prologue(opts, ans);
    CallSettles(isInit, opts, ans, p, FirstParse, ParseGraph);
    FinallySettles(isInit, opts, ans, Call(ans, p, ParseGraph));
  }

  /** The run up to the end of the stack-variable loop (lines 114-133). */
  lemma StackStageSettles(mt: StructMethod, opts: Options)
    ensures Settled(IsInitializer(mt), opts, AfterStackVars(mt, opts), RoundStart)
  {
    var f := AfterFinally(mt, opts);
    FinallyStageSettles(mt, opts);
    StretchSettles(IsInitializer(mt), opts, mt.answers, f, MiddleStretch);
    StackSettles(IsInitializer(mt), opts, mt.answers, Calls(mt.answers, f, MiddlePasses));
  }

  /** The run up to the end of the outer loop (lines 135-166). */
  lemma OuterStageSettles(mt: StructMethod, opts: Options)
    ensures Settled(IsInitializer(mt), opts, AfterOuterLoop(mt, opts), Line(EpilogueStretch, 0))
  {
    StackStageSettles(mt, opts);
    OuterSettles(IsInitializer(mt), opts, mt.answers, AfterStackVars(mt, opts));
  }

  /** Every run of codeToJava follows the schedule: a completed run ends in Finished,
      a run where a pass threw in Aborted, and one cut short by the oracle in a state
      that is waiting for a pass. */
  lemma PipelineSettles(mt: StructMethod, opts: Options)
    ensures Settled(IsInitializer(mt), opts, Pipeline(mt, opts), Finished)
  {
    OuterStageSettles(mt, opts);
    EpilogueSettles(IsInitializer(mt), opts, mt.answers, AfterOuterLoop(mt, opts));
  }

  lemma EpilogueSettles(isInitializer: bool, opts: Options, ans: seq<Answer>, r: Progress)
    requires Settled(isInitializer, opts, r, Line(EpilogueStretch, 0))
    ensures Settled(isInitializer, opts, Calls(ans, r, EpiloguePasses), Finished)
  {
    StretchSettles(isInitializer, opts, ans, r, EpilogueStretch);
  }
}
