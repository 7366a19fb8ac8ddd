/**
 * The schedule of codeToJava as an automaton over pass invocations. Each state
 * names the pass the method invokes next; the answer of that pass (its boolean
 * result, or the error it threw) selects the next state. A trace follows the
 * schedule when the automaton does not reach Dead on it; this is the reference
 * against which the functions of Schedule, and through them the method, are checked.
 */
module ScheduleAutomaton {
  import opened Passes
  import opened Schedule

  /** The straight-line stretches of codeToJava. */
  datatype Stretch = PrologueStretch | MiddleStretch | NotNullStretch | EpilogueStretch

  function StretchPasses(opts: Options, st: Stretch): seq<Pass> {
    match st
    case PrologueStretch => ProloguePasses(opts)
    case MiddleStretch => MiddlePasses
    case NotNullStretch => NotNullPasses
    case EpilogueStretch => EpiloguePasses
  }

  datatype State =
    | Line(stretch: Stretch, index: nat)  // the index-th pass of a stretch
    | FirstParse                          // root = parseGraph(graph), line 105
    | FinallyTest                         // the condition of the finally loop
    | FinallyParse                        // its body
    | StackSimplify | StackVersions | StackFind
    | RoundStart                          // cleanUpEdges, first call of an outer round
    | EnhanceTop | EnhanceExtract | EnhanceMerge
    | NotNullCheck                        // removeHardcodedChecks
    | Labels | Inline | Condense
    | Finished                            // codeToJava has returned its root
    | Aborted                             // a pass threw; nothing more is invoked
    | Dead                                // the trace left the schedule

  /** Where the run goes after the last pass of a stretch. */
  function StretchExit(st: Stretch): State {
    match st
    case PrologueStretch => FirstParse
    case MiddleStretch => StackSimplify
    case NotNullStretch => Labels
    case EpilogueStretch => Finished
  }

  /** The pass the method invokes in state q, if any. */
  function Expected(opts: Options, q: State): Option<Pass> {
    match q
    case Line(st, i) => if i < |StretchPasses(opts, st)| then Some(StretchPasses(opts, st)[i]) else None
    case FirstParse => Some(ParseGraph)
    case FinallyTest => Some(IterateGraph)
    case FinallyParse => Some(ParseGraph)
    case StackSimplify => Some(SimplifyStackVars)
    case StackVersions => Some(SetVarVersions)
    case StackFind => Some(FindPPandMM)
    case RoundStart => Some(CleanUpEdges)
    case EnhanceTop => Some(EnhanceLoops)
    case EnhanceExtract => Some(ExtractLoops)
    case EnhanceMerge => Some(MergeAllIfs)
    case NotNullCheck => Some(RemoveHardcodedChecks)
    case Labels => Some(IdentifyLabels)
    case Inline => Some(InlineSingleBlocks)
    case Condense => Some(CondenseExits)
    case Finished => None
    case Aborted => None
    case Dead => None
  }

  /** After the enhance-loops loop: the not-null block when its option is set (line 143). */
  function AfterEnhance(opts: Options): State {
    if opts.ideaNotNullAnnotation then NotNullCheck else Labels
  }

  /** The state after the pass of q returned v. */
  function Next(isInitializer: bool, opts: Options, q: State, v: bool): State {
    match q
    case Line(st, i) => if i + 1 < |StretchPasses(opts, st)| then Line(st, i + 1) else StretchExit(st)
    case FirstParse => FinallyTest
    case FinallyTest => if v then FinallyParse else Line(MiddleStretch, 0)
    case FinallyParse => FinallyTest
    case StackSimplify => StackVersions
    case StackVersions => StackFind
    case StackFind => if v then StackSimplify else RoundStart
    case RoundStart => EnhanceTop
    case EnhanceTop => EnhanceExtract
    case EnhanceExtract => if v then EnhanceTop else EnhanceMerge
    case EnhanceMerge => if v then EnhanceTop else AfterEnhance(opts)
    case NotNullCheck => if v then Line(NotNullStretch, 0) else Labels
    case Labels => Inline
    case Inline => if v then RoundStart else if isInitializer then Line(EpilogueStretch, 0) else Condense
    case Condense => if v then RoundStart else Line(EpilogueStretch, 0)
    case Finished => Dead
    case Aborted => Dead
    case Dead => Dead
  }

  /** One event: the expected pass returned (Next), threw (Aborted), or another pass
      was invoked (Dead). */
  function Step(isInitializer: bool, opts: Options, q: State, e: Event): State {
    if Expected(opts, q) != Some(e.pass) then Dead
    else if e.answer.Throws? then Aborted
    else Next(isInitializer, opts, q, e.answer.value)
  }

  /** The state reached on the events es, in order, from the first pass of the prologue. */
  function StateAfter(isInitializer: bool, opts: Options, es: seq<Event>): State
    decreases |es|
  {
    if es == [] then Line(PrologueStretch, 0)
    else Step(isInitializer, opts, StateAfter(isInitializer, opts, es[..|es| - 1]), es[|es| - 1])
  }

  /** StateAfter unfolded at position i: the state after event i is Step of the state before it. */
  lemma StateAfterPrefix(isInitializer: bool, opts: Options, es: seq<Event>, i: nat)
    requires i < |es|
    ensures StateAfter(isInitializer, opts, es[..i + 1]) == Step(isInitializer, opts, StateAfter(isInitializer, opts, es[..i]), es[i])
  {
    assert es[..i + 1][..i] == es[..i];
  }

  /** Every prefix of a trace that follows the schedule follows it. */
  lemma {:induction false} PrefixLive(isInitializer: bool, opts: Options, es: seq<Event>, i: nat)
    requires StateAfter(isInitializer, opts, es) != Dead && i <= |es|
    ensures StateAfter(isInitializer, opts, es[..i]) != Dead
    decreases |es| - i
  {
    if i == |es| {
      assert es[..i] == es;
    } else {
      PrefixLive(isInitializer, opts, es, i + 1);
      StateAfterPrefix(isInitializer, opts, es, i);
    }
  }

  /** In a trace that follows the schedule, event i is the pass its state expects, it is
      followed only if it returned, and it leads to the state Next names. */
  lemma {:induction false} EventAt(isInitializer: bool, opts: Options, es: seq<Event>, i: nat)
    requires StateAfter(isInitializer, opts, es) != Dead && i < |es|
    ensures var q := StateAfter(isInitializer, opts, es[..i]);
      Expected(opts, q) == Some(es[i].pass)
      && StateAfter(isInitializer, opts, es[..i + 1])
         == (if es[i].answer.Throws? then Aborted else Next(isInitializer, opts, q, es[i].answer.value))
      && (i + 1 < |es| ==> es[i].answer.Returns?)
  {
    PrefixLive(isInitializer, opts, es, i + 1);
    StateAfterPrefix(isInitializer, opts, es, i);
    if i + 1 < |es| {
      PrefixLive(isInitializer, opts, es, i + 2);
      StateAfterPrefix(isInitializer, opts, es, i + 1);
    }
  }

  /** Events i and i + 1 of a trace that follows the schedule: the second is the pass
      expected after the first returned. */
  lemma {:induction false} EventPair(isInitializer: bool, opts: Options, es: seq<Event>, i: nat)
    requires StateAfter(isInitializer, opts, es) != Dead && i + 1 < |es|
    ensures var q := StateAfter(isInitializer, opts, es[..i]);
      Expected(opts, q) == Some(es[i].pass) && es[i].answer.Returns?
      && Expected(opts, Next(isInitializer, opts, q, es[i].answer.value)) == Some(es[i + 1].pass)
  {
    EventAt(isInitializer, opts, es, i);
    EventAt(isInitializer, opts, es, i + 1);
  }
}
