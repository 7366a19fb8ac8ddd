/**
 * Runs in which no pass reports a change and none throws: every loop of codeToJava
 * runs its body once and the method returns. This shows that runs that return exist.
 */
module QuietRun {
  import opened Passes
  import opened Schedule

  /** Every pass of the oracle ans returns false. */
  predicate AllFalse(ans: seq<Answer>) {
    forall i | 0 <= i < |ans| :: ans[i] == Returns(false)
  }

  /** Shorthand: r is running, has made n invocations, and ans has at least k more. */
  predicate RunningAt(ans: seq<Answer>, r: Progress, n: nat, k: nat) {
    r.status.Running? && |r.events| == n && n + k <= |ans|
  }

  /** The trace of the passes ps when each of them returns false. */
  function Quiet(ps: seq<Pass>): (es: seq<Event>)
    ensures |es| == |ps| && forall i | 0 <= i < |ps| :: es[i] == Event(ps[i], Returns(false))
  {
    seq(|ps|, i requires 0 <= i < |ps| => Event(ps[i], Returns(false)))
  }

  lemma QuietAppend(ps: seq<Pass>, qs: seq<Pass>)
    ensures Quiet(ps + qs) == Quiet(ps) + Quiet(qs)
  {
  }

  /** A trace that grew by the quiet passes ps and then by qs grew by ps + qs. */
  lemma QuietThen(base: seq<Event>, mid: seq<Event>, last: seq<Event>, ps: seq<Pass>, qs: seq<Pass>)
    requires mid == base + Quiet(ps) && last == mid + Quiet(qs)
    ensures last == base + Quiet(ps + qs)
  {
    QuietAppend(ps, qs);
  }

  /** The outer-loop round when nothing changes and the not-null block is off. */
  const QuietRound: seq<Pass> :=
    [CleanUpEdges, EnhanceLoops, ExtractLoops, MergeAllIfs, IdentifyLabels, InlineSingleBlocks]

  /** The outer loop when nothing changes: one round, then condenseExits unless the
      method is an initializer. */
  function QuietOuter(isInitializer: bool): seq<Pass> {
    QuietRound + (if isInitializer then [] else [CondenseExits])
  }

  /** The whole of codeToJava with no option set when nothing changes. */
  function QuietSchedule(isInitializer: bool): seq<Pass> {
    GraphPasses + MergePasses + [ParseGraph, IterateGraph] + MiddlePasses
    + [SimplifyStackVars, SetVarVersions, FindPPandMM] + QuietOuter(isInitializer) + EpiloguePasses
  }

  lemma FalseCall(ans: seq<Answer>, r: Progress, p: Pass)
    requires AllFalse(ans) && r.status.Running? && |r.events| < |ans|
    ensures var r' := Call(ans, r, p);
      r'.status.Running? && r'.events == r.events + Quiet([p]) && !Yes(r')
  {
  }

  lemma {:induction false} FalseCalls(ans: seq<Answer>, r: Progress, ps: seq<Pass>)
    requires AllFalse(ans) && r.status.Running? && |r.events| + |ps| <= |ans|
    ensures var r' := Calls(ans, r, ps);
      r'.status.Running? && r'.events == r.events + Quiet(ps)
    decreases |ps|
  {
    if ps != [] {
      var r1 := Call(ans, r, ps[0]);
      FalseCall(ans, r, ps[0]);
      FalseCalls(ans, r1, ps[1..]);
      QuietThen(r.events, r1.events, Calls(ans, r, ps).events, [ps[0]], ps[1..]);
      assert [ps[0]] + ps[1..] == ps;
    } else {
      assert r.events + Quiet(ps) == r.events;
    }
  }

  lemma FalseFinally(ans: seq<Answer>, r: Progress, n: nat)
    requires AllFalse(ans) && RunningAt(ans, r, n, 1)
    ensures var r' := FinallyLoop(ans, r);
      r'.status.Running? && r'.events == r.events + Quiet([IterateGraph])
  {
    FalseCall(ans, r, IterateGraph);
  }

  lemma FalseStack(ans: seq<Answer>, r: Progress, n: nat)
    requires AllFalse(ans) && RunningAt(ans, r, n, 3)
    ensures var r' := StackVarsLoop(ans, r);
      r'.status.Running? && r'.events == r.events + Quiet([SimplifyStackVars, SetVarVersions, FindPPandMM])
  {
    var r1 := Call(ans, r, SimplifyStackVars);
    FalseCall(ans, r, SimplifyStackVars);
    var r2 := Call(ans, r1, SetVarVersions);
    FalseCall(ans, r1, SetVarVersions);
    FalseCall(ans, r2, FindPPandMM);
    QuietThen(r.events, r1.events, r2.events, [SimplifyStackVars], [SetVarVersions]);
    QuietThen(r.events, r2.events, StackVarsLoop(ans, r).events, [SimplifyStackVars, SetVarVersions], [FindPPandMM]);
  }

  lemma FalseEnhance(ans: seq<Answer>, r: Progress, n: nat)
    requires AllFalse(ans) && RunningAt(ans, r, n, 3)
    ensures var r' := EnhanceLoop(ans, r);
      r'.status.Running? && r'.events == r.events + Quiet([EnhanceLoops, ExtractLoops, MergeAllIfs])
  {
    var r1 := Call(ans, r, EnhanceLoops);
    FalseCall(ans, r, EnhanceLoops);
    var r2 := Call(ans, r1, ExtractLoops);
    FalseCall(ans, r1, ExtractLoops);
    FalseCall(ans, r2, MergeAllIfs);
    QuietThen(r.events, r1.events, r2.events, [EnhanceLoops], [ExtractLoops]);
    QuietThen(r.events, r2.events, EnhanceLoop(ans, r).events, [EnhanceLoops, ExtractLoops], [MergeAllIfs]);
  }

  lemma FalseRound(opts: Options, ans: seq<Answer>, r: Progress, n: nat)
    requires AllFalse(ans) && RunningAt(ans, r, n, 6) && !opts.ideaNotNullAnnotation
    ensures var r' := OuterRound(opts, ans, r);
      r'.status.Running? && r'.events == r.events + Quiet(QuietRound) && !Yes(r')
  {
    var r1 := Call(ans, r, CleanUpEdges);
    FalseCall(ans, r, CleanUpEdges);
    FalseEnhance(ans, r1, n + 1);
    var r3 := NotNullBlock(opts, ans, EnhanceLoop(ans, r1));
    QuietThen(r.events, r1.events, r3.events, [CleanUpEdges], [EnhanceLoops, ExtractLoops, MergeAllIfs]);
    var r4 := Call(ans, r3, IdentifyLabels);
    FalseCall(ans, r3, IdentifyLabels);
    QuietThen(r.events, r3.events, r4.events, [CleanUpEdges, EnhanceLoops, ExtractLoops, MergeAllIfs], [IdentifyLabels]);
    FalseCall(ans, r4, InlineSingleBlocks);
    QuietThen(r.events, r4.events, OuterRound(opts, ans, r).events,
      [CleanUpEdges, EnhanceLoops, ExtractLoops, MergeAllIfs, IdentifyLabels], [InlineSingleBlocks]);
  }

  /** With nothing changing, the outer loop runs one round and, for a method that is
      not an initializer, condenseExits, and then leaves. */
  lemma FalseOuter(isInitializer: bool, opts: Options, ans: seq<Answer>, r: Progress, n: nat)
    requires AllFalse(ans) && RunningAt(ans, r, n, 7) && !opts.ideaNotNullAnnotation
    ensures var r' := OuterLoop(isInitializer, opts, ans, r);
      r'.status.Running? && r'.events == r.events + Quiet(QuietOuter(isInitializer))
      && |r'.events| == n + (if isInitializer then 6 else 7)
  {
    var r1 := OuterRound(opts, ans, r);
    FalseRound(opts, ans, r, n);
    if isInitializer {
      assert QuietOuter(isInitializer) == QuietRound;
    } else {
      FalseCall(ans, r1, CondenseExits);
      QuietThen(r.events, r1.events, OuterLoop(isInitializer, opts, ans, r).events, QuietRound, [CondenseExits]);
    }
  }

  /** When no pass reports a change or throws and no option is set, codeToJava runs
      every loop body once and returns after 32 invocations, 31 for an initializer,
      with the trace QuietSchedule. */
  lemma FalsePipeline(mt: StructMethod, opts: Options)
    requires AllFalse(mt.answers) && |mt.answers| >= 32 && opts == Options(false, false, false)
    ensures var p := Pipeline(mt, opts);
      p.status.Running? && p.events == Quiet(QuietSchedule(IsInitializer(mt)))
      && |p.events| == if IsInitializer(mt) then 31 else 32
  {
    var ans := mt.answers;
    var g := Calls(ans, Start(), GraphPasses);
    FalseCalls(ans, Start(), GraphPasses);
    var r0 := Prologue(opts, ans);
    FalseCalls(ans, g, MergePasses);
    QuietThen([], g.events, r0.events, GraphPasses, MergePasses);
    var p0 := GraphPasses + MergePasses;
    var r1 := Call(ans, r0, ParseGraph);
    FalseCall(ans, r0, ParseGraph);
    QuietThen([], r0.events, r1.events, p0, [ParseGraph]);
    var f := AfterFinally(mt, opts);
    FalseFinally(ans, r1, 11);
    QuietThen([], r1.events, f.events, p0 + [ParseGraph], [IterateGraph]);
    assert p0 + [ParseGraph] + [IterateGraph] == p0 + [ParseGraph, IterateGraph];
    var p1 := p0 + [ParseGraph, IterateGraph];
    var m := Calls(ans, f, MiddlePasses);
    FalseCalls(ans, f, MiddlePasses);
    QuietThen([], f.events, m.events, p1, MiddlePasses);
    var p2 := p1 + MiddlePasses;
    var s := AfterStackVars(mt, opts);
    FalseStack(ans, m, 17);
    QuietThen([], m.events, s.events, p2, [SimplifyStackVars, SetVarVersions, FindPPandMM]);
    var p3 := p2 + [SimplifyStackVars, SetVarVersions, FindPPandMM];
    var o := AfterOuterLoop(mt, opts);
    FalseOuter(IsInitializer(mt), opts, ans, s, 20);
    QuietThen([], s.events, o.events, p3, QuietOuter(IsInitializer(mt)));
    var p4 := p3 + QuietOuter(IsInitializer(mt));
    FalseCalls(ans, o, EpiloguePasses);
    QuietThen([], o.events, Pipeline(mt, opts).events, p4, EpiloguePasses);
  }

  /** The requires "the run returned" of the CodeToJavaProperties lemmas can be met:
      some run of codeToJava returns. */
  lemma ReturningRunExists()
    ensures var mt := StructMethod("run", seq(32, _ => Returns(false)));
      Pipeline(mt, Options(false, false, false)).status.Running?
  {
    var mt := StructMethod("run", seq(32, _ => Returns(false)));
    assert AllFalse(mt.answers);
    FalsePipeline(mt, Options(false, false, false));
  }
}
