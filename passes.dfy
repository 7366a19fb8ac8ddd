/**
 * The passes that the per-method decompilation pipeline invokes, treated as
 * abstract steps. What a pass does to the control-flow graph or the statement
 * tree is not modelled; what it reports back (a boolean "changed" result, or a
 * thrown error) comes from an oracle: a finite list of answers, the i-th of
 * which is what the i-th pass invocation of the run reports.
 */
module Passes {

  /** Every pass of codeToJava that the schedule records, named after the helper method. */
  datatype Pass =
    | BuildGraph                          // new ControlFlowGraph(seq)
    | RemoveDeadBlocks
    | InlineJsr
    | ConnectDummyExitBlock
    | RemoveGotos
    | RemoveCircularRanges
    | RestorePopRanges
    | RemoveEmptyRanges
    | IncorporateValueReturns
    | InsertEmptyExceptionHandlerBlocks
    | MergeBasicBlocks
    | SetVarCounter                       // counter container: VAR_COUNTER := local variable count
    | ParseGraph
    | IterateGraph
    | RemoveSynchronizedHandler
    | CondenseSequences
    | ClearStatements
    | ProcessStatement
    | SimplifyStackVars
    | SetVarVersions
    | FindPPandMM
    | CleanUpEdges
    | EnhanceLoops
    | ExtractLoops
    | MergeAllIfs
    | RemoveHardcodedChecks
    | IdentifyLabels
    | InlineSingleBlocks
    | CondenseExits
    | RemoveRedundantReturns
    | IdentifySecondaryFunctions
    | SetVarDefinitions
    | ReplaceContinueWithBreak
    | ReleaseResources

  /** A thrown Throwable; only its identity matters. */
  datatype Fault = Fault(id: nat)

  datatype Option<T> = None | Some(value: T)

  /** What one pass invocation did: it returned (with its boolean result, which only
      the passes that report a change look at) or it threw. */
  datatype Answer = Returns(value: bool) | Throws(fault: Fault)

  /** One pass invocation as recorded in the trace. */
  datatype Event = Event(pass: Pass, answer: Answer)

  /** Running: no pass has thrown yet. Raised: a pass threw and the rest of the run is
      skipped. Starved: the oracle has no answer left, so the run has not returned
      within the modelled horizon. */
  datatype Status = Running | Raised(fault: Fault) | Starved

  /** The trace of a run so far, and whether it is still running. The number of
      events is the number of answers consumed. */
  datatype Progress = Progress(events: seq<Event>, status: Status)

  function Start(): Progress {
    Progress([], Running)
  }

  /** Termination measure: every pass invocation of a running run lowers it. */
  function Measure(ans: seq<Answer>, r: Progress): nat {
    if !r.status.Running? then 0
    else if |r.events| < |ans| then |ans| - |r.events| + 1
    else 1
  }

  /** True when the last pass invoked returned true and the run goes on. */
  predicate Yes(r: Progress) {
    r.status.Running? && |r.events| > 0 && r.events[|r.events| - 1].answer == Returns(true)
  }

  /** One invocation of pass p: it takes the next unused answer. A thrown error stops
      the run; once stopped, invoking a pass does nothing (the exception propagates). */
  function Call(ans: seq<Answer>, r: Progress, p: Pass): (r': Progress)
    ensures r.status.Running? ==> Measure(ans, r') < Measure(ans, r)
    ensures !r.status.Running? ==> r' == r
  {
    if !r.status.Running? then r
    else if |r.events| >= |ans| then r.(status := Starved)
    else
      var a := ans[|r.events|];
      Progress(r.events + [Event(p, a)], if a.Throws? then Raised(a.fault) else Running)
  }

  /** The passes ps invoked one after another. */
  function Calls(ans: seq<Answer>, r: Progress, ps: seq<Pass>): (r': Progress)
    ensures Measure(ans, r') <= Measure(ans, r)
    ensures !r.status.Running? ==> r' == r
    ensures r.status.Running? && ps != [] ==> Measure(ans, r') < Measure(ans, r)
    decreases |ps|
  {
    if ps == [] then r else Calls(ans, Call(ans, r, ps[0]), ps[1..])
  }

  /** One invocation extends the trace by at most the pass invoked, by exactly that
      pass when the run goes on. */
  lemma CallShape(ans: seq<Answer>, r: Progress, p: Pass)
    ensures var r' := Call(ans, r, p);
      r.events <= r'.events && |r'.events| <= |r.events| + 1
      && (|r'.events| > |r.events| ==> r'.events[|r.events|].pass == p)
      && (r'.status.Running? ==> r.status.Running? && |r'.events| == |r.events| + 1)
  {
  }

  /** Invoking ps appends a prefix of ps to the trace, all of ps when the run goes on. */
  lemma {:induction false} CallsShape(ans: seq<Answer>, r: Progress, ps: seq<Pass>)
    ensures var r' := Calls(ans, r, ps);
      r.events <= r'.events && |r'.events| <= |r.events| + |ps|
      && (forall i | |r.events| <= i < |r'.events| :: r'.events[i].pass == ps[i - |r.events|])
      && (r'.status.Running? ==> r.status.Running? && |r'.events| == |r.events| + |ps|)
    decreases |ps|
  {
    if ps != [] {
      var r1 := Call(ans, r, ps[0]);
      CallShape(ans, r, ps[0]);
      CallsShape(ans, r1, ps[1..]);
      var r' := Calls(ans, r, ps);
      assert r' == Calls(ans, r1, ps[1..]);
      forall i | |r.events| <= i < |r'.events| ensures r'.events[i].pass == ps[i - |r.events|] {
        if i < |r1.events| {
          assert r'.events[i] == r1.events[i];
        }
      }
    }
  }

  /** The passes of the events es, in order. */
  function PassesOf(es: seq<Event>): (ps: seq<Pass>)
    ensures |ps| == |es| && forall i | 0 <= i < |es| :: ps[i] == es[i].pass
  {
    seq(|es|, i requires 0 <= i < |es| => es[i].pass)
  }

  /** The last |ps| events of es invoke the passes ps, in order. */
  predicate EndsWith(es: seq<Event>, ps: seq<Pass>) {
    |es| >= |ps| && PassesOf(es[|es| - |ps|..]) == ps
  }

  /** From index s on, the events of es invoke the passes ps in order, for as long as es
      lasts. */
  predicate RunsFrom(es: seq<Event>, s: nat, ps: seq<Pass>)
    decreases |ps|
  {
    ps == [] || s >= |es| || (es[s].pass == ps[0] && RunsFrom(es, s + 1, ps[1..]))
  }

  /** When the run goes on after invoking ps, its trace ends with the passes ps. */
  lemma CallsTail(ans: seq<Answer>, r: Progress, ps: seq<Pass>)
    ensures Calls(ans, r, ps).status.Running? ==> EndsWith(Calls(ans, r, ps).events, ps)
  {
    var r' := Calls(ans, r, ps);
    CallsShape(ans, r, ps);
    if r'.status.Running? {
      var tail := PassesOf(r'.events[|r.events|..]);
      forall k | 0 <= k < |ps| ensures tail[k] == ps[k] {
        assert r'.events[|r.events|..][k] == r'.events[|r.events| + k];
      }
    }
  }

  /** Invoking ps and then qs is invoking ps + qs. */
  lemma {:induction false} CallsAppend(ans: seq<Answer>, r: Progress, ps: seq<Pass>, qs: seq<Pass>)
    ensures Calls(ans, r, ps + qs) == Calls(ans, Calls(ans, r, ps), qs)
    decreases |ps|
  {
    if ps != [] {
      assert (ps + qs)[0] == ps[0];
      assert (ps + qs)[1..] == ps[1..] + qs;
      CallsAppend(ans, Call(ans, r, ps[0]), ps[1..], qs);
    } else {
      assert ps + qs == qs;
    }
  }

  /** Number of invocations of pass p in es. */
  function Count(es: seq<Event>, p: Pass): nat {
    if es == [] then 0 else (if es[0].pass == p then 1 else 0) + Count(es[1..], p)
  }

  /** Number of invocations of pass p in es that returned true. */
  function CountYes(es: seq<Event>, p: Pass): nat {
    if es == [] then 0 else (if es[0] == Event(p, Returns(true)) then 1 else 0) + CountYes(es[1..], p)
  }

  lemma CountOne(e: Event, p: Pass)
    ensures Count([e], p) == (if e.pass == p then 1 else 0)
    ensures CountYes([e], p) == (if e == Event(p, Returns(true)) then 1 else 0)
  {
    assert [e][1..] == [];
  }

  lemma {:induction false} CountAppend(a: seq<Event>, b: seq<Event>, p: Pass)
    ensures Count(a + b, p) == Count(a, p) + Count(b, p)
    ensures CountYes(a + b, p) == CountYes(a, p) + CountYes(b, p)
  {
    if a != [] {
      assert (a + b)[0] == a[0];
      assert (a + b)[1..] == a[1..] + b;
      CountAppend(a[1..], b, p);
    } else {
      assert a + b == b;
    }
  }
}
