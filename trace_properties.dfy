/**
 * What every trace that follows the schedule automaton satisfies: which pass may
 * come before or after which, where the option-gated passes sit, and how often the
 * loop passes are invoked relative to the answers that kept their loops going.
 */
module TraceProperties {
  import opened Passes
  import opened Schedule
  import opened ScheduleAutomaton

  /** The one state that expects p, for the passes that have one. */
  function HomeOf(p: Pass): Option<State> {
    match p
    case IterateGraph => Some(FinallyTest)
    case FindPPandMM => Some(StackFind)
    case CleanUpEdges => Some(RoundStart)
    case ExtractLoops => Some(EnhanceExtract)
    case MergeAllIfs => Some(EnhanceMerge)
    case RemoveHardcodedChecks => Some(NotNullCheck)
    case IdentifyLabels => Some(Labels)
    case InlineSingleBlocks => Some(Inline)
    case CondenseExits => Some(Condense)
    case RemoveRedundantReturns => Some(Line(EpilogueStretch, 0))
    case ReplaceContinueWithBreak => Some(Line(EpilogueStretch, 3))
    case _ => None
  }

  lemma {:induction false} ExpectedHome(opts: Options, q: State, p: Pass)
    requires Expected(opts, q) == Some(p) && HomeOf(p).Some?
    ensures q == HomeOf(p).value
  {
    if q.Line? {
      var k := q.index;
      PrologueNoHome(opts, k);
      MiddleNoHome(k);
      NotNullNoHome(k);
      EpilogueHome(k);
    }
  }

  /** None of the prologue passes has a home state. */
  lemma PrologueNoHome(opts: Options, k: nat)
    ensures k < |ProloguePasses(opts)| ==> HomeOf(ProloguePasses(opts)[k]) == None
  {
    var g := |GraphPasses|;
    var n := |Gates(opts)|;
    if k < g {
      assert ProloguePasses(opts)[k] == GraphPasses[k];
      assert GraphPasses[k] in GraphPasses;
    } else if k < g + n {
      assert ProloguePasses(opts)[k] == Gates(opts)[k - g];
      assert Gates(opts)[k - g] in Gates(opts);
    } else if k < |ProloguePasses(opts)| {
      assert ProloguePasses(opts)[k] == MergePasses[k - g - n];
      assert MergePasses[k - g - n] in MergePasses;
    }
  }

  lemma MiddleNoHome(k: nat)
    ensures k < |MiddlePasses| ==> HomeOf(MiddlePasses[k]) == None
  {
    if k < |MiddlePasses| {
      assert MiddlePasses[k] in MiddlePasses;
    }
  }

  lemma NotNullNoHome(k: nat)
    ensures k < |NotNullPasses| ==> HomeOf(NotNullPasses[k]) == None
  {
    if k < |NotNullPasses| {
      assert NotNullPasses[k] in NotNullPasses;
    }
  }

  /** The epilogue passes with a home state are at their home. */
  lemma EpilogueHome(k: nat)
    ensures k < |EpiloguePasses| && HomeOf(EpiloguePasses[k]).Some? ==>
      HomeOf(EpiloguePasses[k]) == Some(Line(EpilogueStretch, k))
  {
  }

  /** The states from which the automaton enters the states at the loop exits. */
  lemma {:induction false} IntoStackVersions(isInitializer: bool, opts: Options, q: State, v: bool)
    requires Next(isInitializer, opts, q, v) == StackVersions
    ensures q == StackSimplify
  {
  }

  lemma {:induction false} IntoStackFind(isInitializer: bool, opts: Options, q: State, v: bool)
    requires Next(isInitializer, opts, q, v) == StackFind
    ensures q == StackVersions
  {
  }

  lemma {:induction false} IntoEnhanceMerge(isInitializer: bool, opts: Options, q: State, v: bool)
    requires Next(isInitializer, opts, q, v) == EnhanceMerge
    ensures q == EnhanceExtract && !v
  {
  }

  lemma {:induction false} IntoNotNullCheck(isInitializer: bool, opts: Options, q: State, v: bool)
    requires Next(isInitializer, opts, q, v) == NotNullCheck
    ensures q == EnhanceMerge && !v && opts.ideaNotNullAnnotation
  {
  }

  lemma {:induction false} IntoCondense(isInitializer: bool, opts: Options, q: State, v: bool)
    requires Next(isInitializer, opts, q, v) == Condense
    ensures q == Inline && !v && !isInitializer
  {
  }

  lemma {:induction false} IntoEpilogue(isInitializer: bool, opts: Options, q: State, v: bool)
    requires Next(isInitializer, opts, q, v) == Line(EpilogueStretch, 0)
    ensures (q == Inline && !v && isInitializer) || (q == Condense && !v)
  {
  }

  /** Event i - 1 of a trace that follows the schedule returned and led to the state
      reached after i events, unless that state is Aborted. */
  lemma {:induction false} StepBack(isInitializer: bool, opts: Options, es: seq<Event>, i: nat)
    requires StateAfter(isInitializer, opts, es) != Dead && 0 < i <= |es|
    requires StateAfter(isInitializer, opts, es[..i]) != Aborted
    ensures var q := StateAfter(isInitializer, opts, es[..i - 1]);
      es[i - 1].answer.Returns? && Expected(opts, q) == Some(es[i - 1].pass)
      && Next(isInitializer, opts, q, es[i - 1].answer.value) == StateAfter(isInitializer, opts, es[..i])
  {
    EventAt(isInitializer, opts, es, i - 1);
  }

  // ----- The static-initializer guard (lines 67, 157-159) -----

  /** An initializer never reaches the state that invokes condenseExits. */
  lemma {:induction false} NoCondenseState(opts: Options, es: seq<Event>)
    ensures StateAfter(true, opts, es) != Condense
  {
    if es != [] {
      var q := StateAfter(true, opts, es[..|es| - 1]);
      var e := es[|es| - 1];
      if Expected(opts, q) == Some(e.pass) && e.answer.Returns? {
        assert Next(true, opts, q, e.answer.value) != Condense;
      }
    }
  }

  /** Only the state Condense invokes condenseExits. */
  lemma CondenseHome(opts: Options, q: State)
    ensures Expected(opts, q) == Some(CondenseExits) ==> q == Condense
  {
    if Expected(opts, q) == Some(CondenseExits) {
      ExpectedHome(opts, q, CondenseExits);
    }
  }

  /** condenseExits is never invoked when the method is the static initializer. */
  lemma {:induction false} InitializerNeverCondensesExits(opts: Options, es: seq<Event>, i: nat)
    requires StateAfter(true, opts, es) != Dead && i < |es|
    ensures es[i].pass != CondenseExits
  {
    EventAt(true, opts, es, i);
    var q := StateAfter(true, opts, es[..i]);
    NoCondenseState(opts, es[..i]);
    CondenseHome(opts, q);
  }

  // ----- The prologue and its option gates (lines 71-99) -----

  /** Before the prologue is over, the run is at the pass whose index is the number of
      events so far. */
  lemma {:induction false} PrologueAt(isInitializer: bool, opts: Options, es: seq<Event>, i: nat)
    requires StateAfter(isInitializer, opts, es) != Dead && i < |es| && i < |ProloguePasses(opts)|
    ensures StateAfter(isInitializer, opts, es[..i]) == Line(PrologueStretch, i)
  {
    if i == 0 {
      assert es[..0] == [];
    } else {
      PrologueAt(isInitializer, opts, es, i - 1);
      EventAt(isInitializer, opts, es, i - 1);
      PrologueNext(isInitializer, opts, i - 1, es[i - 1].answer.value);
    }
  }

  /** Inside the prologue each pass leads to the next. */
  lemma PrologueNext(isInitializer: bool, opts: Options, k: nat, v: bool)
    requires k + 1 < |ProloguePasses(opts)|
    ensures Next(isInitializer, opts, Line(PrologueStretch, k), v) == Line(PrologueStretch, k + 1)
  {
  }

  /** A prologue state is reached only after as many events as its index. */
  lemma {:induction false} PrologueIndex(isInitializer: bool, opts: Options, es: seq<Event>, k: nat)
    requires StateAfter(isInitializer, opts, es) == Line(PrologueStretch, k)
    ensures |es| == k
    decreases |es|
  {
    if es != [] {
      var es' := es[..|es| - 1];
      var q := StateAfter(isInitializer, opts, es');
      var e := es[|es| - 1];
      assert Expected(opts, q) == Some(e.pass) && e.answer.Returns?;
      assert Next(isInitializer, opts, q, e.answer.value) == Line(PrologueStretch, k);
      assert q.Line? && q.stretch == PrologueStretch && q.index + 1 == k;
      PrologueIndex(isInitializer, opts, es', q.index);
    }
  }

  /** Where the four exception-range passes sit among the prologue's passes. */
  lemma {:induction false} PrologueLayout(opts: Options, k: nat)
    requires k < |ProloguePasses(opts)|
    ensures var p := ProloguePasses(opts)[k];
      var g := |GraphPasses|;
      (p == RestorePopRanges <==> k == g - 1)
      && (p == RemoveEmptyRanges <==> opts.removeEmptyRanges && k == g)
      && (p == IncorporateValueReturns <==> opts.noExceptionsReturn && k == g + (if opts.removeEmptyRanges then 1 else 0))
      && (p == InsertEmptyExceptionHandlerBlocks <==> k == g + |Gates(opts)|)
  {
    var ps := ProloguePasses(opts);
    var g := |GraphPasses|;
    var g1 := if opts.removeEmptyRanges then [RemoveEmptyRanges] else [];
    var g2 := if opts.noExceptionsReturn then [IncorporateValueReturns] else [];
    assert ps == GraphPasses + g1 + g2 + MergePasses;
    if k < g {
      assert ps[k] == GraphPasses[k];
      // One case per entry of GraphPasses (g == 7), so that each pass can be compared.
      assert k == 0 || k == 1 || k == 2 || k == 3 || k == 4 || k == 5 || k == 6;
    } else if k < g + |g1| + |g2| {
      assert ps[k] == (g1 + g2)[k - g];
    } else {
      assert ps[k] == MergePasses[k - g - |g1| - |g2|];
    }
  }

  /** The only states expecting the four exception-range passes are prologue states. */
  lemma {:induction false} ExpectedPrologue(opts: Options, q: State, p: Pass)
    requires p in {RestorePopRanges, RemoveEmptyRanges, IncorporateValueReturns, InsertEmptyExceptionHandlerBlocks}
    requires Expected(opts, q) == Some(p)
    ensures q.Line? && q.stretch == PrologueStretch && q.index < |ProloguePasses(opts)|
    ensures ProloguePasses(opts)[q.index] == p
  {
    var ps := StretchPasses(opts, q.stretch);
    assert ps[q.index] in ps;
  }

  /** removeEmptyRanges and incorporateValueReturns are invoked exactly when their
      options are set, both after restorePopRanges and before
      insertEmptyExceptionHandlerBlocks, in that order. */
  lemma {:induction false} OptionGates(isInitializer: bool, opts: Options, es: seq<Event>, i: nat)
    requires StateAfter(isInitializer, opts, es) != Dead && i < |es|
    ensures var g := |GraphPasses|;
      (es[i].pass == RestorePopRanges <==> i == g - 1)
      && (es[i].pass == RemoveEmptyRanges <==> opts.removeEmptyRanges && i == g)
      && (es[i].pass == IncorporateValueReturns
          <==> opts.noExceptionsReturn && i == g + (if opts.removeEmptyRanges then 1 else 0))
      && (es[i].pass == InsertEmptyExceptionHandlerBlocks <==> i == g + |Gates(opts)|)
  {
    var n := |ProloguePasses(opts)|;
    EventAt(isInitializer, opts, es, i);
    var q := StateAfter(isInitializer, opts, es[..i]);
    if i < n {
      PrologueAt(isInitializer, opts, es, i);
      PrologueLayout(opts, i);
    } else {
      var p := es[i].pass;
      if p in {RestorePopRanges, RemoveEmptyRanges, IncorporateValueReturns, InsertEmptyExceptionHandlerBlocks} {
        ExpectedPrologue(opts, q, p);
        PrologueIndex(isInitializer, opts, es[..i], q.index);
        assert false;
      }
    }
  }

  /** A run that returned went through the whole prologue. */
  lemma {:induction false} FinishedAfterPrologue(isInitializer: bool, opts: Options, es: seq<Event>)
    requires StateAfter(isInitializer, opts, es) == Finished
    ensures |es| > |ProloguePasses(opts)|
  {
    var n := |ProloguePasses(opts)|;
    if |es| <= n {
      assert es != [];
      var k := |es| - 1;
      PrologueAt(isInitializer, opts, es, k);
    }
  }

  /** In a run that returned, restorePopRanges and insertEmptyExceptionHandlerBlocks
      were invoked, and each gated pass was invoked exactly when its option is set,
      between the two. */
  lemma {:induction false} GatesInFinishedTrace(isInitializer: bool, opts: Options, es: seq<Event>)
    requires StateAfter(isInitializer, opts, es) == Finished
    ensures var g := |GraphPasses|;
      g + |Gates(opts)| < |es|
      && es[g - 1].pass == RestorePopRanges
      && es[g + |Gates(opts)|].pass == InsertEmptyExceptionHandlerBlocks
      && (opts.removeEmptyRanges <==> exists i | 0 <= i < |es| :: es[i].pass == RemoveEmptyRanges)
      && (opts.noExceptionsReturn <==> exists i | 0 <= i < |es| :: es[i].pass == IncorporateValueReturns)
      && (forall i | 0 <= i < |es| && es[i].pass in {RemoveEmptyRanges, IncorporateValueReturns} ::
            g <= i < g + |Gates(opts)|)
  {
    var g := |GraphPasses|;
    FinishedAfterPrologue(isInitializer, opts, es);
    OptionGates(isInitializer, opts, es, g - 1);
    OptionGates(isInitializer, opts, es, g + |Gates(opts)|);
    if opts.removeEmptyRanges {
      OptionGates(isInitializer, opts, es, g);
    }
    if opts.noExceptionsReturn {
      OptionGates(isInitializer, opts, es, g + (if opts.removeEmptyRanges then 1 else 0));
    }
    if exists i | 0 <= i < |es| :: es[i].pass == RemoveEmptyRanges {
      var i :| 0 <= i < |es| && es[i].pass == RemoveEmptyRanges;
      OptionGates(isInitializer, opts, es, i);
    }
    if exists i | 0 <= i < |es| :: es[i].pass == IncorporateValueReturns {
      var i :| 0 <= i < |es| && es[i].pass == IncorporateValueReturns;
      OptionGates(isInitializer, opts, es, i);
    }
    forall i | 0 <= i < |es| && es[i].pass in {RemoveEmptyRanges, IncorporateValueReturns}
      ensures g <= i < g + |Gates(opts)|
    {
      OptionGates(isInitializer, opts, es, i);
    }
  }

  // ----- The finally loop (lines 105-110) -----

  /** 0 where the parseGraph invocations so far match the iterateGraph invocations
      that returned true (before the first parse, and in the loop body); 1 after. */
  function ParseBalance(q: State): nat {
    match q
    case Line(st, _) => if st == PrologueStretch then 0 else 1
    case FirstParse => 0
    case FinallyParse => 0
    case _ => 1
  }

  /** One step of the automaton keeps parseGraph invocations and true answers of
      iterateGraph in balance. */
  lemma {:induction false} ParseStep(isInitializer: bool, opts: Options, q: State, e: Event)
    requires Step(isInitializer, opts, q, e) != Dead && Step(isInitializer, opts, q, e) != Aborted
    ensures (if e.pass == ParseGraph then 1 else 0) + ParseBalance(q)
      == (if e == Event(IterateGraph, Returns(true)) then 1 else 0) + ParseBalance(Step(isInitializer, opts, q, e))
  {
    if q.Line? {
      var ps := StretchPasses(opts, q.stretch);
      assert ps[q.index] in ps;
    }
  }

  /** parseGraph is invoked once before the finally loop and once more each time
      iterateGraph returned true. */
  lemma {:induction false} ParseGraphCount(isInitializer: bool, opts: Options, es: seq<Event>)
    requires StateAfter(isInitializer, opts, es) != Dead && StateAfter(isInitializer, opts, es) != Aborted
    ensures Count(es, ParseGraph) == CountYes(es, IterateGraph) + ParseBalance(StateAfter(isInitializer, opts, es))
    decreases |es|
  {
    if es != [] {
      var es' := es[..|es| - 1];
      var e := es[|es| - 1];
      var q := StateAfter(isInitializer, opts, es');
      assert es == es' + [e];
      assert Expected(opts, q) == Some(e.pass) && e.answer.Returns?;
      ParseGraphCount(isInitializer, opts, es');
      CountAppend(es', [e], ParseGraph);
      CountAppend(es', [e], IterateGraph);
      CountOne(e, ParseGraph);
      CountOne(e, IterateGraph);
      ParseStep(isInitializer, opts, q, e);
    }
  }

  /** In a trace that reached Finished, parseGraph ran once more than iterateGraph
      returned true. */
  lemma FinishedParseCount(isInitializer: bool, opts: Options, es: seq<Event>)
    requires StateAfter(isInitializer, opts, es) == Finished
    ensures Count(es, ParseGraph) == 1 + CountYes(es, IterateGraph)
  {
    ParseGraphCount(isInitializer, opts, es);
  }

  // ----- The stack-variable loop (lines 127-133) -----

  /** True once the stack-variable loop is over. */
  function StackDone(q: State): bool {
    match q
    case Line(st, _) => st == NotNullStretch || st == EpilogueStretch
    case FirstParse => false
    case FinallyTest => false
    case FinallyParse => false
    case StackSimplify => false
    case StackVersions => false
    case StackFind => false
    case Aborted => false
    case Dead => false
    case _ => true
  }

  /** One step of the automaton: findPPandMM returning false is the one step that
      ends the stack-variable loop. */
  lemma {:induction false} FindStep(isInitializer: bool, opts: Options, q: State, e: Event)
    requires Step(isInitializer, opts, q, e) != Dead && Step(isInitializer, opts, q, e) != Aborted
    ensures (if e.pass == FindPPandMM then 1 else 0) + (if StackDone(q) then 1 else 0)
      == (if e == Event(FindPPandMM, Returns(true)) then 1 else 0) + (if StackDone(Step(isInitializer, opts, q, e)) then 1 else 0)
  {
    if q.Line? {
      var ps := StretchPasses(opts, q.stretch);
      assert ps[q.index] in ps;
    }
  }

  /** findPPandMM is invoked once more than the number of times it returned true, once
      the loop is over: the loop body runs at least once and repeats exactly while it
      returns true. */
  lemma {:induction false} FindCount(isInitializer: bool, opts: Options, es: seq<Event>)
    requires StateAfter(isInitializer, opts, es) != Dead && StateAfter(isInitializer, opts, es) != Aborted
    ensures Count(es, FindPPandMM) == CountYes(es, FindPPandMM) + (if StackDone(StateAfter(isInitializer, opts, es)) then 1 else 0)
    decreases |es|
  {
    if es != [] {
      var es' := es[..|es| - 1];
      var e := es[|es| - 1];
      var q := StateAfter(isInitializer, opts, es');
      assert es == es' + [e];
      assert Expected(opts, q) == Some(e.pass) && e.answer.Returns?;
      FindCount(isInitializer, opts, es');
      CountAppend(es', [e], FindPPandMM);
      CountOne(e, FindPPandMM);
      FindStep(isInitializer, opts, q, e);
    }
  }

  /** Every findPPandMM comes right after a full loop body: simplifyStackVars, then
      setVarVersions. */
  lemma {:induction false} FindAfterStackBody(isInitializer: bool, opts: Options, es: seq<Event>, i: nat)
    requires StateAfter(isInitializer, opts, es) != Dead && i < |es| && es[i].pass == FindPPandMM
    ensures i > 1 && es[i - 2].pass == SimplifyStackVars && es[i - 1].pass == SetVarVersions
  {
    FindHome(isInitializer, opts, es, i);
    StackFindBack(isInitializer, opts, es, i);
    StackVersionsBack(isInitializer, opts, es, i - 1);
  }

  /** findPPandMM is invoked only in the state StackFind. */
  lemma FindHome(isInitializer: bool, opts: Options, es: seq<Event>, i: nat)
    requires StateAfter(isInitializer, opts, es) != Dead && i < |es| && es[i].pass == FindPPandMM
    ensures StateAfter(isInitializer, opts, es[..i]) == StackFind
  {
    EventAt(isInitializer, opts, es, i);
    ExpectedHome(opts, StateAfter(isInitializer, opts, es[..i]), FindPPandMM);
  }

  /** The state StackFind is entered only by setVarVersions from StackVersions. */
  lemma {:induction false} StackFindBack(isInitializer: bool, opts: Options, es: seq<Event>, i: nat)
    requires StateAfter(isInitializer, opts, es) != Dead && i <= |es| && StateAfter(isInitializer, opts, es[..i]) == StackFind
    ensures i > 0 && es[i - 1].pass == SetVarVersions && StateAfter(isInitializer, opts, es[..i - 1]) == StackVersions
  {
    assert i != 0;
    StepBack(isInitializer, opts, es, i);
    IntoStackFind(isInitializer, opts, StateAfter(isInitializer, opts, es[..i - 1]), es[i - 1].answer.value);
  }

  /** The state StackVersions is entered only by simplifyStackVars from StackSimplify. */
  lemma {:induction false} StackVersionsBack(isInitializer: bool, opts: Options, es: seq<Event>, i: nat)
    requires StateAfter(isInitializer, opts, es) != Dead && i <= |es| && StateAfter(isInitializer, opts, es[..i]) == StackVersions
    ensures i > 0 && es[i - 1].pass == SimplifyStackVars
  {
    assert i != 0;
    StepBack(isInitializer, opts, es, i);
    IntoStackVersions(isInitializer, opts, StateAfter(isInitializer, opts, es[..i - 1]), es[i - 1].answer.value);
  }

  /** Every findPPandMM in es comes right after simplifyStackVars and setVarVersions. */
  predicate StackBodyBeforeEachFind(es: seq<Event>) {
    forall i | 0 <= i < |es| && es[i].pass == FindPPandMM ::
      i > 1 && es[i - 2].pass == SimplifyStackVars && es[i - 1].pass == SetVarVersions
  }

  /** FindAfterStackBody at every index of a trace that follows the schedule. */
  lemma StackBodies(isInitializer: bool, opts: Options, es: seq<Event>)
    requires StateAfter(isInitializer, opts, es) != Dead
    ensures StackBodyBeforeEachFind(es)
  {
    forall i | 0 <= i < |es| && es[i].pass == FindPPandMM
      ensures i > 1 && es[i - 2].pass == SimplifyStackVars && es[i - 1].pass == SetVarVersions
    {
      FindAfterStackBody(isInitializer, opts, es, i);
    }
  }

  /** After findPPandMM the loop body restarts with simplifyStackVars when it returned
      true, and the outer loop begins with cleanUpEdges when it returned false. */
  lemma {:induction false} StackLoopRepeats(isInitializer: bool, opts: Options, es: seq<Event>, i: nat)
    requires StateAfter(isInitializer, opts, es) != Dead && i + 1 < |es| && es[i].pass == FindPPandMM
    ensures es[i].answer.Returns?
    ensures es[i + 1].pass == (if es[i].answer.value then SimplifyStackVars else CleanUpEdges)
  {
    EventPair(isInitializer, opts, es, i);
    ExpectedHome(opts, StateAfter(isInitializer, opts, es[..i]), FindPPandMM);
  }

  // ----- The finally loop's exit (lines 108-114) -----

  /** iterateGraph returning true is followed by parseGraph, returning false by
      removeSynchronizedHandler. */
  lemma {:induction false} FinallyLoopRepeats(isInitializer: bool, opts: Options, es: seq<Event>, i: nat)
    requires StateAfter(isInitializer, opts, es) != Dead && i + 1 < |es| && es[i].pass == IterateGraph
    ensures es[i].answer.Returns?
    ensures es[i + 1].pass == (if es[i].answer.value then ParseGraph else RemoveSynchronizedHandler)
  {
    EventPair(isInitializer, opts, es, i);
    ExpectedHome(opts, StateAfter(isInitializer, opts, es[..i]), IterateGraph);
  }

  // ----- The enhance-loops loop (lines 138-141) -----

  /** Each round's enhance loop starts with enhanceLoops. */
  lemma {:induction false} EnhanceAfterCleanUp(isInitializer: bool, opts: Options, es: seq<Event>, i: nat)
    requires StateAfter(isInitializer, opts, es) != Dead && i + 1 < |es| && es[i].pass == CleanUpEdges
    ensures es[i + 1].pass == EnhanceLoops
  {
    EventPair(isInitializer, opts, es, i);
    ExpectedHome(opts, StateAfter(isInitializer, opts, es[..i]), CleanUpEdges);
  }

  /** extractLoops returning true repeats the enhance loop at once; returning false, it
      is followed by mergeAllIfs. */
  lemma {:induction false} ExtractDecides(isInitializer: bool, opts: Options, es: seq<Event>, i: nat)
    requires StateAfter(isInitializer, opts, es) != Dead && i + 1 < |es| && es[i].pass == ExtractLoops
    ensures es[i + 1].pass == (if es[i].answer == Returns(true) then EnhanceLoops else MergeAllIfs)
  {
    EventPair(isInitializer, opts, es, i);
    ExpectedHome(opts, StateAfter(isInitializer, opts, es[..i]), ExtractLoops);
  }

  /** mergeAllIfs returning true repeats the enhance loop; returning false, it ends it,
      going on to the not-null block when its option is set and to identifyLabels
      otherwise. */
  lemma {:induction false} MergeDecides(isInitializer: bool, opts: Options, es: seq<Event>, i: nat)
    requires StateAfter(isInitializer, opts, es) != Dead && i + 1 < |es| && es[i].pass == MergeAllIfs
    ensures es[i + 1].pass == (if es[i].answer == Returns(true) then EnhanceLoops
                               else if opts.ideaNotNullAnnotation then RemoveHardcodedChecks
                               else IdentifyLabels)
  {
    EventPair(isInitializer, opts, es, i);
    ExpectedHome(opts, StateAfter(isInitializer, opts, es[..i]), MergeAllIfs);
  }

  /** mergeAllIfs is invoked only right after extractLoops returned false. */
  lemma {:induction false} MergeAfterExtract(isInitializer: bool, opts: Options, es: seq<Event>, i: nat)
    requires StateAfter(isInitializer, opts, es) != Dead && i < |es| && es[i].pass == MergeAllIfs
    ensures i > 0 && es[i - 1] == Event(ExtractLoops, Returns(false))
  {
    EventAt(isInitializer, opts, es, i);
    ExpectedHome(opts, StateAfter(isInitializer, opts, es[..i]), MergeAllIfs);
    assert i != 0;
    StepBack(isInitializer, opts, es, i);
    IntoEnhanceMerge(isInitializer, opts, StateAfter(isInitializer, opts, es[..i - 1]), es[i - 1].answer.value);
  }

  // ----- The not-null block (lines 143-149) -----

  /** removeHardcodedChecks is invoked only with its option set. */
  lemma {:induction false} NotNullGated(isInitializer: bool, opts: Options, es: seq<Event>, i: nat)
    requires StateAfter(isInitializer, opts, es) != Dead && i < |es| && es[i].pass == RemoveHardcodedChecks
    ensures opts.ideaNotNullAnnotation
  {
    EventAt(isInitializer, opts, es, i);
    ExpectedHome(opts, StateAfter(isInitializer, opts, es[..i]), RemoveHardcodedChecks);
    assert i != 0;
    StepBack(isInitializer, opts, es, i);
    IntoNotNullCheck(isInitializer, opts, StateAfter(isInitializer, opts, es[..i - 1]), es[i - 1].answer.value);
  }

  /** What follows removeHardcodedChecks returning true: the block's passes, then
      identifyLabels. */
  const NotNullTail: seq<Pass> := NotNullPasses + [IdentifyLabels]

  /** From the k-th pass of the not-null block at index j, the trace goes on with the
      rest of NotNullTail. */
  lemma {:induction false} NotNullWalk(isInitializer: bool, opts: Options, es: seq<Event>, j: nat, k: nat)
    requires StateAfter(isInitializer, opts, es) != Dead && k <= |NotNullPasses|
    requires j < |es| ==>
      StateAfter(isInitializer, opts, es[..j]) == (if k < |NotNullPasses| then Line(NotNullStretch, k) else Labels)
    ensures RunsFrom(es, j, NotNullTail[k..])
    decreases |NotNullPasses| - k
  {
    if j < |es| {
      EventAt(isInitializer, opts, es, j);
      assert NotNullTail[k..][0] == NotNullTail[k];
      assert NotNullTail[k..][1..] == NotNullTail[k + 1..];
      if k < |NotNullPasses| {
        NotNullWalk(isInitializer, opts, es, j + 1, k + 1);
      } else {
        assert NotNullTail[k + 1..] == [];
      }
    }
  }

  /** removeHardcodedChecks returning true is followed by condenseSequences,
      simplifyStackVars and setVarVersions, then identifyLabels; returning false, by
      identifyLabels. */
  lemma {:induction false} NotNullBlockRuns(isInitializer: bool, opts: Options, es: seq<Event>, i: nat)
    requires StateAfter(isInitializer, opts, es) != Dead && i < |es| && es[i].pass == RemoveHardcodedChecks
    ensures es[i].answer == Returns(true) ==> RunsFrom(es, i + 1, NotNullTail)
    ensures es[i].answer == Returns(false) && i + 1 < |es| ==> es[i + 1].pass == IdentifyLabels
  {
    var q := StateAfter(isInitializer, opts, es[..i]);
    EventAt(isInitializer, opts, es, i);
    NotNullCheckStep(isInitializer, opts, q, es[i].answer);
    if es[i].answer == Returns(true) {
      assert NotNullTail[0..] == NotNullTail;
      NotNullWalk(isInitializer, opts, es, i + 1, 0);
    } else if i + 1 < |es| {
      EventAt(isInitializer, opts, es, i + 1);
    }
  }

  /** The state that invokes removeHardcodedChecks, and where its answer leads. */
  lemma NotNullCheckStep(isInitializer: bool, opts: Options, q: State, a: Answer)
    ensures Expected(opts, q) == Some(RemoveHardcodedChecks) ==>
      q == NotNullCheck
      && (a == Returns(true) ==> Next(isInitializer, opts, q, a.value) == Line(NotNullStretch, 0))
      && (a == Returns(false) ==> Expected(opts, Next(isInitializer, opts, q, a.value)) == Some(IdentifyLabels))
  {
    if Expected(opts, q) == Some(RemoveHardcodedChecks) {
      ExpectedHome(opts, q, RemoveHardcodedChecks);
    }
  }

  /** The states from the first cleanUpEdges on: the outer loop, the not-null block,
      the epilogue and the end states. */
  predicate InOuter(q: State) {
    match q
    case Line(st, _) => st == NotNullStretch || st == EpilogueStretch
    case RoundStart => true
    case EnhanceTop => true
    case EnhanceExtract => true
    case EnhanceMerge => true
    case NotNullCheck => true
    case Labels => true
    case Inline => true
    case Condense => true
    case Finished => true
    case Aborted => true
    case Dead => true
    case _ => false
  }

  /** No step leaves the states of the outer loop. */
  lemma OuterClosed(isInitializer: bool, opts: Options, q: State, e: Event)
    requires InOuter(q)
    ensures InOuter(Step(isInitializer, opts, q, e))
  {
  }

  /** Once cleanUpEdges has been invoked at index j, every later state is one of the
      outer loop's. */
  lemma {:induction false} StaysOuter(isInitializer: bool, opts: Options, es: seq<Event>, j: nat, i: nat)
    requires StateAfter(isInitializer, opts, es) != Dead && j < |es| && es[j].pass == CleanUpEdges && j <= i <= |es|
    ensures InOuter(StateAfter(isInitializer, opts, es[..i]))
    decreases i - j
  {
    if i == j {
      EventAt(isInitializer, opts, es, j);
      ExpectedHome(opts, StateAfter(isInitializer, opts, es[..j]), CleanUpEdges);
    } else {
      StaysOuter(isInitializer, opts, es, j, i - 1);
      StateAfterPrefix(isInitializer, opts, es, i - 1);
      OuterClosed(isInitializer, opts, StateAfter(isInitializer, opts, es[..i - 1]), es[i - 1]);
    }
  }

  /** How many events before the k-th pass of the not-null block removeHardcodedChecks
      was invoked: condenseSequences 1, simplifyStackVars 2, setVarVersions 3. */
  function CheckDistance(p: Pass): nat {
    if p == CondenseSequences then 1 else if p == SimplifyStackVars then 2 else 3
  }

  /** Among the outer loop's states, the not-null block's three passes are expected only
      in the block itself, each at its own position. */
  lemma OuterNotNullHome(opts: Options, q: State, p: Pass)
    requires InOuter(q) && Expected(opts, q) == Some(p) && p in {CondenseSequences, SimplifyStackVars, SetVarVersions}
    ensures q == Line(NotNullStretch, CheckDistance(p) - 1)
  {
    if q.Line? {
      NotNullNoHome(q.index);
      EpilogueHome(q.index);
      assert q.stretch == NotNullStretch;
      assert q.index == 0 || q.index == 1 || q.index == 2;
    }
  }

  /** The one way into the k-th state of the not-null block. */
  lemma {:induction false} IntoNotNullLine(isInitializer: bool, opts: Options, q: State, v: bool, k: nat)
    requires Next(isInitializer, opts, q, v) == Line(NotNullStretch, k)
    ensures if k == 0 then q == NotNullCheck && v else q == Line(NotNullStretch, k - 1)
  {
  }

  /** A trace in the k-th state of the not-null block after i events got there through
      removeHardcodedChecks returning true at index m = i - k - 1, after any cleanUpEdges
      before it. */
  lemma {:induction false} NotNullLineBack(isInitializer: bool, opts: Options, es: seq<Event>, i: nat, j: nat, k: nat, m: int)
    requires StateAfter(isInitializer, opts, es) != Dead && i <= |es| && m + k + 1 == i
    requires StateAfter(isInitializer, opts, es[..i]) == Line(NotNullStretch, k)
    requires j < i && es[j].pass == CleanUpEdges
    ensures j < m && es[m] == Event(RemoveHardcodedChecks, Returns(true))
    decreases k
  {
    NotNullLineStep(isInitializer, opts, es, i, j, k);
    if k != 0 {
      NotNullLineBack(isInitializer, opts, es, i - 1, j, k - 1, m);
    }
  }

  /** One step back from the k-th state of the not-null block. */
  lemma NotNullLineStep(isInitializer: bool, opts: Options, es: seq<Event>, i: nat, j: nat, k: nat)
    requires StateAfter(isInitializer, opts, es) != Dead && i <= |es|
    requires StateAfter(isInitializer, opts, es[..i]) == Line(NotNullStretch, k)
    requires j < i && es[j].pass == CleanUpEdges
    ensures j < i - 1
    ensures k == 0 ==> es[i - 1] == Event(RemoveHardcodedChecks, Returns(true))
    ensures k != 0 ==> StateAfter(isInitializer, opts, es[..i - 1]) == Line(NotNullStretch, k - 1)
  {
    assert i != 0;
    StepBack(isInitializer, opts, es, i);
    IntoNotNullLine(isInitializer, opts, StateAfter(isInitializer, opts, es[..i - 1]), es[i - 1].answer.value, k);
  }

  /** Inside the outer loop, condenseSequences, simplifyStackVars and setVarVersions are
      invoked only as the not-null block: with IDEA_NOT_NULL_ANNOTATION set, and right
      after removeHardcodedChecks returned true. */
  lemma NotNullPassFollowsCheck(isInitializer: bool, opts: Options, es: seq<Event>, j: nat, i: nat)
    requires StateAfter(isInitializer, opts, es) != Dead && j < i < |es| && es[j].pass == CleanUpEdges
    requires es[i].pass in {CondenseSequences, SimplifyStackVars, SetVarVersions}
    ensures var b := CheckDistance(es[i].pass);
      opts.ideaNotNullAnnotation && j < i - b && es[i - b] == Event(RemoveHardcodedChecks, Returns(true))
  {
    var b := CheckDistance(es[i].pass);
    NotNullStateAt(isInitializer, opts, es, j, i);
    NotNullLineBack(isInitializer, opts, es, i, j, b - 1, i - b);
    NotNullGated(isInitializer, opts, es, i - b);
  }

  /** After a cleanUpEdges, each pass of the not-null block is invoked from its own
      state of the block. */
  lemma NotNullStateAt(isInitializer: bool, opts: Options, es: seq<Event>, j: nat, i: nat)
    requires StateAfter(isInitializer, opts, es) != Dead && j < i < |es| && es[j].pass == CleanUpEdges
    requires es[i].pass in {CondenseSequences, SimplifyStackVars, SetVarVersions}
    ensures StateAfter(isInitializer, opts, es[..i]) == Line(NotNullStretch, CheckDistance(es[i].pass) - 1)
  {
    StaysOuter(isInitializer, opts, es, j, i);
    EventAt(isInitializer, opts, es, i);
    OuterNotNullHome(opts, StateAfter(isInitializer, opts, es[..i]), es[i].pass);
  }

  /** NotNullPassFollowsCheck at every pair of indices. */
  predicate NotNullPassesFollowCheck(opts: Options, es: seq<Event>) {
    forall j, i | 0 <= j < i < |es| && es[j].pass == CleanUpEdges
        && es[i].pass in {CondenseSequences, SimplifyStackVars, SetVarVersions} ::
      opts.ideaNotNullAnnotation && j < i - CheckDistance(es[i].pass)
      && es[i - CheckDistance(es[i].pass)] == Event(RemoveHardcodedChecks, Returns(true))
  }

  lemma NotNullPassesGated(isInitializer: bool, opts: Options, es: seq<Event>)
    requires StateAfter(isInitializer, opts, es) != Dead
    ensures NotNullPassesFollowCheck(opts, es)
  {
    forall j, i | 0 <= j < i < |es| && es[j].pass == CleanUpEdges
        && es[i].pass in {CondenseSequences, SimplifyStackVars, SetVarVersions}
      ensures opts.ideaNotNullAnnotation && j < i - CheckDistance(es[i].pass)
        && es[i - CheckDistance(es[i].pass)] == Event(RemoveHardcodedChecks, Returns(true))
    {
      NotNullPassFollowsCheck(isInitializer, opts, es, j, i);
    }
  }

  // ----- The outer loop (lines 135-166) -----

  /** inlineSingleBlocks returning true restarts the outer loop at cleanUpEdges, without
      condenseExits; returning false, it leaves the loop for an initializer and goes
      on to condenseExits otherwise. */
  lemma {:induction false} InlineDecides(isInitializer: bool, opts: Options, es: seq<Event>, i: nat)
    requires StateAfter(isInitializer, opts, es) != Dead && i + 1 < |es| && es[i].pass == InlineSingleBlocks
    ensures es[i + 1].pass == (if es[i].answer == Returns(true) then CleanUpEdges
                               else if isInitializer then RemoveRedundantReturns
                               else CondenseExits)
  {
    EventPair(isInitializer, opts, es, i);
    ExpectedHome(opts, StateAfter(isInitializer, opts, es[..i]), InlineSingleBlocks);
  }

  /** condenseExits returning true restarts the outer loop; returning false, it leaves
      the loop. */
  lemma {:induction false} CondenseDecides(isInitializer: bool, opts: Options, es: seq<Event>, i: nat)
    requires StateAfter(isInitializer, opts, es) != Dead && i + 1 < |es| && es[i].pass == CondenseExits
    ensures es[i + 1].pass == (if es[i].answer == Returns(true) then CleanUpEdges else RemoveRedundantReturns)
  {
    EventPair(isInitializer, opts, es, i);
    ExpectedHome(opts, StateAfter(isInitializer, opts, es[..i]), CondenseExits);
  }

  /** condenseExits is invoked only in a method that is not an initializer, right
      after inlineSingleBlocks returned false. */
  lemma {:induction false} CondenseAfterInline(isInitializer: bool, opts: Options, es: seq<Event>, i: nat)
    requires StateAfter(isInitializer, opts, es) != Dead && i < |es| && es[i].pass == CondenseExits
    ensures !isInitializer && i > 0 && es[i - 1] == Event(InlineSingleBlocks, Returns(false))
  {
    EventAt(isInitializer, opts, es, i);
    ExpectedHome(opts, StateAfter(isInitializer, opts, es[..i]), CondenseExits);
    assert i != 0;
    StepBack(isInitializer, opts, es, i);
    IntoCondense(isInitializer, opts, StateAfter(isInitializer, opts, es[..i - 1]), es[i - 1].answer.value);
  }

  /** The outer loop is left only after inlineSingleBlocks returned false, and then
      either the method is an initializer or condenseExits returned false. */
  lemma {:induction false} OuterLoopExit(isInitializer: bool, opts: Options, es: seq<Event>, i: nat)
    requires StateAfter(isInitializer, opts, es) != Dead && i < |es| && es[i].pass == RemoveRedundantReturns
    ensures i > 1
    ensures if isInitializer then es[i - 1] == Event(InlineSingleBlocks, Returns(false))
            else es[i - 1] == Event(CondenseExits, Returns(false)) && es[i - 2] == Event(InlineSingleBlocks, Returns(false))
  {
    EventAt(isInitializer, opts, es, i);
    ExpectedHome(opts, StateAfter(isInitializer, opts, es[..i]), RemoveRedundantReturns);
    assert i != 0;
    StepBack(isInitializer, opts, es, i);
    var q := StateAfter(isInitializer, opts, es[..i - 1]);
    IntoEpilogue(isInitializer, opts, q, es[i - 1].answer.value);
    if q == Condense {
      CondenseAfterInline(isInitializer, opts, es, i - 1);
    } else {
      assert i - 1 != 0;
    }
  }

  // ----- The end of codeToJava (lines 168-180) -----

  /** The last two passes of the epilogue: after replaceContinueWithBreak comes
      releaseResources, and nothing after that. */
  lemma EpilogueEnd(isInitializer: bool, opts: Options, v: bool, a: Answer)
    ensures Next(isInitializer, opts, Line(EpilogueStretch, 3), v) == Line(EpilogueStretch, 4)
    ensures Expected(opts, Line(EpilogueStretch, 4)) == Some(ReleaseResources)
    ensures Expected(opts, if a.Throws? then Aborted else Next(isInitializer, opts, Line(EpilogueStretch, 4), a.value)) == None
  {
  }

  /** replaceContinueWithBreak is the last tree pass: at most releaseResources follows
      it, at the next index. */
  lemma {:induction false} ReplaceContinueWithBreakLast(isInitializer: bool, opts: Options, es: seq<Event>, i: nat, j: nat)
    requires StateAfter(isInitializer, opts, es) != Dead && i < j < |es| && es[i].pass == ReplaceContinueWithBreak
    ensures j == i + 1 && es[j].pass == ReleaseResources
  {
    EventAt(isInitializer, opts, es, i);
    ExpectedHome(opts, StateAfter(isInitializer, opts, es[..i]), ReplaceContinueWithBreak);
    EpilogueEnd(isInitializer, opts, es[i].answer.value, es[i + 1].answer);
    EventAt(isInitializer, opts, es, i + 1);
    if i + 2 < |es| {
      EventAt(isInitializer, opts, es, i + 2);
    }
  }
}
