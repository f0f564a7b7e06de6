/**
  How the client ends, over whole runs: by its first `Close`, or by a crash
  watcher that got past its check.  Everything is said in terms of the steps of
  the run, not of the flag that `Close` and the watcher look at.
*/
module ClientLifecycle {
  import opened Wrappers
  import opened RoutingTable
  import opened RoutingProtocol

  // ----- one step

  /** A step changes the control of its own thread only. */
  lemma OthersUntouched(s: System, step: Step)
    requires Enabled(s, step)
    ensures |Next(s, step).threads| == |s.threads|
    ensures forall u: nat :: u < |s.threads| && (step.Receive? || u != step.t) ==>
        Next(s, step).threads[u] == s.threads[u]
  {
    match step
    case Route(t, id) => RouteControl(s, t, id);
    case Register(t, id, bufferSize) => TableControl(s, t, id, bufferSize, 0);
    case Deregister(t, h) => TableControl(s, t, "", 0, h);
    case Admit(t) => DeliveryControl(s, t);
    case Send(t) => DeliveryControl(s, t);
    case CloseSession(t) => ClosingControl(s, t, 0);
    case SweepOne(t, h) => ClosingControl(s, t, h);
    case EndSweep(t) => ClosingControl(s, t, 0);
    case _ =>
  }

  lemma ClosingControl(s: System, t: Thread, h: Handle)
    ensures CanCloseSession(s, t) ==> DoCloseSession(s, t).threads == s.threads[t := Idle]
    ensures CanSweepOne(s, t, h) ==> DoSweepOne(s, t, h).threads == s.threads[t := DoSweepOne(s, t, h).threads[t]]
    ensures CanEndSweep(s, t) ==> DoEndSweep(s, t).threads == s.threads[t := DoEndSweep(s, t).threads[t]]
  {
  }

  lemma DeliveryControl(s: System, t: Thread)
    ensures CanAdmit(s, t) ==> DoAdmit(s, t).threads == s.threads[t := DoAdmit(s, t).threads[t]]
    ensures CanSend(s, t) ==> DoSend(s, t).threads == s.threads[t := DoSend(s, t).threads[t]]
  {
  }

  lemma TableControl(s: System, t: Thread, id: SessionId, bufferSize: int, h: Handle)
    requires CanUseTable(s, t)
    ensures DoRegister(s, t, id, bufferSize).threads == s.threads[t := DoRegister(s, t, id, bufferSize).threads[t]]
    ensures h < |s.sessions| ==> DoDeregister(s, t, h).threads == s.threads[t := TearingDown(h)]
  {
  }

  lemma RouteControl(s: System, t: Thread, id: SessionId)
    requires CanUseTable(s, t)
    ensures var s' := DoRoute(s, t, id);
            && |s'.threads| == |s.threads| && s'.clientClosed == s.clientClosed && s'.crashed == s.crashed
            && !ClosesClient(s'.threads[t])
            && forall u: nat :: u < |s.threads| && u != t ==> s'.threads[u] == s.threads[u]
  {
  }

  predicate ClosesClient(c: Control) {
    c.Awaiting? || c.Sweeping?
  }

  /** With the client closed, a thread closes or sweeps next only if it was about to. */
  lemma OwnControl(s: System, step: Step)
    requires Enabled(s, step) && s.clientClosed && !(step.BeginSweep? || step.SweepOne? || step.EndSweep?)
    ensures Next(s, step).clientClosed && |Next(s, step).threads| == |s.threads|
    ensures !step.Receive? && ClosesClient(Next(s, step).threads[step.t]) ==>
              Next(s, step).threads[step.t] == s.threads[step.t]
  {
    match step
    case Route(t, id) => RouteControl(s, t, id);
    case _ =>
  }

  // ----- which `Close` and which watcher goes on to sweep

  /** The first step of `Close` and of a crash watcher: each looks whether the client is closed. */
  predicate Begins(step: Step) {
    step.BeginClose? || step.ObserveExit?
  }

  /** The steps after which the client is closed: the first of `Close`, and the last of a crash watcher. */
  predicate Ends(step: Step) {
    step.BeginClose? || step.MarkCrashed?
  }

  predicate EndedBefore(run: seq<Step>, k: nat) {
    exists i :: 0 <= i < k && i < |run| && Ends(run[i])
  }

  lemma ClosedStep(s: System, step: Step)
    requires Enabled(s, step)
    ensures Next(s, step).clientClosed <==> s.clientClosed || Ends(step)
  {
    match step
    case Route(t, id) => RouteControl(s, t, id);
    case _ =>
  }

  lemma ClosedNext(threadCount: nat, run: seq<Step>, states: seq<System>, k: nat)
    requires IsTrace(threadCount, run, states) && k < |run|
    ensures states[k + 1].clientClosed <==> states[k].clientClosed || Ends(run[k])
  {
    AtStep(threadCount, run, states, k);
    ClosedStep(states[k], run[k]);
  }

  lemma EndedNext(run: seq<Step>, k: nat)
    requires k < |run|
    ensures EndedBefore(run, k + 1) <==> EndedBefore(run, k) || Ends(run[k])
  {
    if EndedBefore(run, k) {
      var i :| 0 <= i < k && i < |run| && Ends(run[i]);
      assert i < k + 1 && Ends(run[i]);
    }
  }

  /** The client counts as closed exactly once some `Close` has begun or some crash watcher has finished. */
  lemma {:induction false} ClosedExactly(threadCount: nat, run: seq<Step>, states: seq<System>, k: nat)
    requires IsTrace(threadCount, run, states) && k <= |run|
    ensures states[k].clientClosed <==> EndedBefore(run, k)
  {
    if k > 0 {
      ClosedExactly(threadCount, run, states, k - 1);
      ClosedNext(threadCount, run, states, k - 1);
      EndedNext(run, k - 1);
    }
  }

  predicate MarkedBefore(run: seq<Step>, k: nat) {
    exists i :: 0 <= i < k && i < |run| && run[i].MarkCrashed?
  }

  lemma MarkedNext(run: seq<Step>, k: nat)
    requires k < |run|
    ensures MarkedBefore(run, k + 1) <==> MarkedBefore(run, k) || run[k].MarkCrashed?
  {
    if MarkedBefore(run, k) {
      var i :| 0 <= i < k && i < |run| && run[i].MarkCrashed?;
      assert i < k + 1 && run[i].MarkCrashed?;
    }
  }

  lemma CrashedStep(s: System, step: Step)
    requires Enabled(s, step)
    ensures Next(s, step).crashed <==> s.crashed || step.MarkCrashed?
  {
    match step
    case Route(t, id) => RouteControl(s, t, id);
    case _ =>
  }

  /** A crash is on record exactly once some crash watcher has finished; `Close` leaves none. */
  lemma {:induction false} CrashedExactly(threadCount: nat, run: seq<Step>, states: seq<System>, k: nat)
    requires IsTrace(threadCount, run, states) && k <= |run|
    ensures states[k].crashed <==> MarkedBefore(run, k)
  {
    if k > 0 {
      CrashedExactly(threadCount, run, states, k - 1);
      AtStep(threadCount, run, states, k - 1);
      CrashedStep(states[k - 1], run[k - 1]);
      MarkedNext(run, k - 1);
    }
  }

  /** The thread goes on to wait for the table; `Close` marks the client closed first, and nothing else changes. */
  predicate StartsToWait(s: System, s': System, step: Step) {
    && Begins(step) && step.t < |s.threads|
    && s' == WithThread(s, step.t, Awaiting(step.ObserveExit?)).(clientClosed := step.BeginClose?)
  }

  /**
    In every run, a `Close` or a crash watcher goes on to wait for the table exactly when no `Close`
    began and no crash watcher finished before; otherwise it changes nothing at all.
  */
  lemma BeginsOnce(threadCount: nat, run: seq<Step>, states: seq<System>, k: nat)
    requires IsTrace(threadCount, run, states) && k < |run| && Begins(run[k])
    ensures var s, s' := states[k], states[k + 1];
            if EndedBefore(run, k) then s' == s else StartsToWait(s, s', run[k])
  {
    AtStep(threadCount, run, states, k);
    ClosedExactly(threadCount, run, states, k);
  }

  // ----- the sweep of `Close` happens once

  /** On the way through the one sweep of `Close`. */
  predicate ForClose(c: Control) {
    ClosesClient(c) && !c.crash
  }

  /** At most one thread is, and only with the client closed. */
  ghost predicate OneClose(s: System) {
    && (forall t: nat :: t < |s.threads| && ForClose(s.threads[t]) ==> s.clientClosed)
    && (forall t: nat, u: nat :: t < |s.threads| && u < |s.threads| && t != u ==>
          !ForClose(s.threads[t]) || !ForClose(s.threads[u]))
  }

  /** With the client closed nobody joins those about to close or sweep; a sweep stays of its kind. */
  lemma NobodyJoins(s: System, step: Step)
    requires Enabled(s, step) && s.clientClosed && !step.Receive?
    ensures var c, c' := s.threads[step.t], Next(s, step).threads[step.t];
            ClosesClient(c') ==> ClosesClient(c) && c'.crash == c.crash && (c'.Awaiting? ==> c.Awaiting?)
  {
    match step
    case BeginSweep(_) =>
    case SweepOne(_, _) =>
    case EndSweep(_) =>
    case _ => OwnControl(s, step);
  }

  lemma NobodyCloses(s: System, step: Step)
    requires Enabled(s, step) && !s.clientClosed && !step.Receive? && !step.BeginClose?
    ensures ForClose(Next(s, step).threads[step.t]) ==> ForClose(s.threads[step.t])
  {
    match step
    case Route(t, id) => RouteControl(s, t, id);
    case _ =>
  }

  lemma OneCloseStep(s: System, step: Step)
    requires OneClose(s) && Enabled(s, step)
    ensures OneClose(Next(s, step))
  {
    OthersUntouched(s, step);
    ClosedStep(s, step);
    if !step.Receive? {
      if s.clientClosed {
        NobodyJoins(s, step);
      } else if !step.BeginClose? {
        NobodyCloses(s, step);
      }
    }
  }

  lemma {:induction false} RunOneClose(threadCount: nat, run: seq<Step>, states: seq<System>, k: nat)
    requires IsTrace(threadCount, run, states) && k <= |run|
    ensures OneClose(states[k])
  {
    if k > 0 {
      RunOneClose(threadCount, run, states, k - 1);
      AtStep(threadCount, run, states, k - 1);
      OneCloseStep(states[k - 1], run[k - 1]);
    }
  }

  /** Step `k` is where the sweep of a `Close` begins. */
  ghost predicate BeginsCloseSweep(threadCount: nat, run: seq<Step>, states: seq<System>, k: nat)
    requires IsTrace(threadCount, run, states) && k < |run|
  {
    AtStep(threadCount, run, states, k);
    run[k].BeginSweep? && !states[k].threads[run[k].t].crash
  }

  /** Step `k` is where it ends. */
  ghost predicate EndsCloseSweep(threadCount: nat, run: seq<Step>, states: seq<System>, k: nat)
    requires IsTrace(threadCount, run, states) && k < |run|
  {
    AtStep(threadCount, run, states, k);
    run[k].EndSweep? && !states[k].threads[run[k].t].crash
  }

  /** The client is closed and no `Close` is still about to sweep. */
  ghost predicate NoneWaits(s: System) {
    s.clientClosed && forall t: nat :: t < |s.threads| && ForClose(s.threads[t]) ==> s.threads[t].Sweeping?
  }

  /** The client is closed and no `Close` is about to sweep or sweeping. */
  ghost predicate Spent(s: System) {
    s.clientClosed && forall t: nat :: t < |s.threads| ==> !ForClose(s.threads[t])
  }

  lemma StaysSpent(s: System, step: Step)
    requires Enabled(s, step) && s.clientClosed
    ensures NoneWaits(s) ==> NoneWaits(Next(s, step))
    ensures Spent(s) ==> Spent(Next(s, step))
  {
    OthersUntouched(s, step);
    ClosedStep(s, step);
    if !step.Receive? {
      NobodyJoins(s, step);
    }
  }

  lemma SpentNext(threadCount: nat, run: seq<Step>, states: seq<System>, k: nat)
    requires IsTrace(threadCount, run, states) && k < |run| && states[k].clientClosed
    ensures states[k + 1].clientClosed
    ensures NoneWaits(states[k]) ==> NoneWaits(states[k + 1])
    ensures Spent(states[k]) ==> Spent(states[k + 1])
  {
    AtStep(threadCount, run, states, k);
    StaysSpent(states[k], run[k]);
    ClosedStep(states[k], run[k]);
  }

  lemma {:induction false} SpentFrom(threadCount: nat, run: seq<Step>, states: seq<System>, i: nat, k: nat)
    requires IsTrace(threadCount, run, states) && i <= k <= |run| && states[i].clientClosed
    ensures states[k].clientClosed
    ensures NoneWaits(states[i]) ==> NoneWaits(states[k])
    ensures Spent(states[i]) ==> Spent(states[k])
  {
    if i < k {
      SpentFrom(threadCount, run, states, i, k - 1);
      SpentNext(threadCount, run, states, k - 1);
    }
  }

  lemma SweepStarted(s: System, t: Thread)
    requires OneClose(s) && CanBeginSweep(s, t) && !s.threads[t].crash
    ensures NoneWaits(Next(s, BeginSweep(t)))
  {
  }

  lemma SweepEnded(s: System, t: Thread)
    requires OneClose(s) && CanEndSweep(s, t) && !s.threads[t].crash
    ensures Spent(Next(s, EndSweep(t)))
  {
  }

  /** In every run `Close` sweeps at most once, whoever calls it and however often. */
  lemma CloseSweepsOnce(threadCount: nat, run: seq<Step>, states: seq<System>, i: nat, k: nat)
    requires IsTrace(threadCount, run, states) && i < k < |run|
    ensures BeginsCloseSweep(threadCount, run, states, i) ==> !BeginsCloseSweep(threadCount, run, states, k)
    ensures EndsCloseSweep(threadCount, run, states, i) ==>
              !BeginsCloseSweep(threadCount, run, states, k) && !EndsCloseSweep(threadCount, run, states, k)
  {
    var s := states[i];
    AtStep(threadCount, run, states, i);
    AtStep(threadCount, run, states, k);
    RunOneClose(threadCount, run, states, i);
    if BeginsCloseSweep(threadCount, run, states, i) {
      SweepStarted(s, run[i].t);
      SpentFrom(threadCount, run, states, i + 1, k);
    }
    if EndsCloseSweep(threadCount, run, states, i) {
      SweepEnded(s, run[i].t);
      SpentFrom(threadCount, run, states, i + 1, k);
    }
  }

  // ----- when no sweep is under way or to come

  /** The client is closed and no sweep is under way or to come. */
  predicate SweptForGood(s: System) {
    s.clientClosed && forall t: nat :: t < |s.threads| ==> !ClosesClient(s.threads[t])
  }

  /** Between its check and the end of its sweep. */
  predicate CrashUnderWay(s: System) {
    exists t: nat :: t < |s.threads| && ClosesClient(s.threads[t]) && s.threads[t].crash
  }

  lemma StaysSwept(s: System, step: Step)
    requires SweptForGood(s) && Enabled(s, step)
    ensures SweptForGood(Next(s, step))
  {
    OthersUntouched(s, step);
    ClosedStep(s, step);
    if !step.Receive? {
      NobodyJoins(s, step);
    }
  }

  /** Once the sweep of `Close` has ended no sweep is to come, save that of a crash watcher already past its check. */
  lemma SweptOnceCloseEnded(threadCount: nat, run: seq<Step>, states: seq<System>, i: nat, k: nat)
    requires IsTrace(threadCount, run, states) && i < k <= |run| && EndsCloseSweep(threadCount, run, states, i)
    ensures SweptForGood(states[k]) <==> !CrashUnderWay(states[k])
  {
    AtStep(threadCount, run, states, i);
    RunOneClose(threadCount, run, states, i);
    SweepEnded(states[i], run[i].t);
    SpentFrom(threadCount, run, states, i + 1, k);
  }

  // ----- whoever got past the check sees it through

  /** Step `e`, after step `i`, is where `t` lets go of the table, emptied as `Close` or a crash empties it. */
  ghost predicate Cleared(threadCount: nat, run: seq<Step>, states: seq<System>, i: nat, e: nat, t: Thread, crash: bool)
    requires IsTrace(threadCount, run, states)
  {
    && i < e < |run| && run[e] == EndSweep(t)
    && states[e + 1].table ==
         Table(map[], if crash then map[] else states[e].table.pending)
  }

  /** The crash watcher has marked the client as well, after its sweep. */
  ghost predicate Marked(run: seq<Step>, e: nat, m: nat, t: Thread) {
    e < m < |run| && run[m] == MarkCrashed(t)
  }

  ghost predicate SeenThrough(threadCount: nat, run: seq<Step>, states: seq<System>, i: nat, k: nat, t: Thread,
      crash: bool)
    requires IsTrace(threadCount, run, states)
  {
    exists e: nat :: e < k && Cleared(threadCount, run, states, i, e, t, crash) &&
        (crash ==> exists m: nat :: m < k && Marked(run, e, m, t))
  }

  ghost predicate ClearedBefore(threadCount: nat, run: seq<Step>, states: seq<System>, i: nat, k: nat, t: Thread,
      crash: bool)
    requires IsTrace(threadCount, run, states)
  {
    exists e: nat :: e < k && Cleared(threadCount, run, states, i, e, t, crash)
  }

  /** Where the thread is on its way before step `k`. */
  ghost predicate OnItsWay(threadCount: nat, run: seq<Step>, states: seq<System>, i: nat, k: nat, t: Thread,
      crash: bool)
    requires IsTrace(threadCount, run, states) && k <= |run|
  {
    var s := states[k];
    && t < |s.threads|
    && (|| (ClosesClient(s.threads[t]) && s.threads[t].crash == crash)
        || (crash && s.threads[t].Marking? && ClearedBefore(threadCount, run, states, i, k, t, crash))
        || SeenThrough(threadCount, run, states, i, k, t, crash))
  }

  /**
    The control of a thread that is waiting to sweep, sweeping or about to mark changes only by the next
    thing it does.
  */
  lemma NextOnTheWay(s: System, step: Step, t: Thread)
    requires Enabled(s, step) && t < |s.threads|
    ensures t < |Next(s, step).threads|
    ensures ClosesClient(s.threads[t]) && step != EndSweep(t) ==>
              ClosesClient(Next(s, step).threads[t]) && Next(s, step).threads[t].crash == s.threads[t].crash
    ensures s.threads[t].Marking? && step != MarkCrashed(t) ==> Next(s, step).threads[t].Marking?
  {
    OthersUntouched(s, step);
  }

  lemma SweepClears(s: System, t: Thread)
    requires CanEndSweep(s, t)
    ensures var s', crash := Next(s, EndSweep(t)), s.threads[t].crash;
            && s'.table == Table(map[], if crash then map[] else s.table.pending)
            && t < |s'.threads| && s'.threads[t] == if crash then Marking else Idle
  {
  }

  lemma {:induction false} SweepingGoesOn(threadCount: nat, run: seq<Step>, states: seq<System>, i: nat, k: nat,
      t: Thread, crash: bool)
    requires IsTrace(threadCount, run, states) && i < k < |run|
    requires t < |states[k].threads|
    requires ClosesClient(states[k].threads[t]) && states[k].threads[t].crash == crash
    ensures OnItsWay(threadCount, run, states, i, k + 1, t, crash)
  {
    var s := states[k];
    AtStep(threadCount, run, states, k);
    NextOnTheWay(s, run[k], t);
    if run[k] == EndSweep(t) {
      SweepClears(s, t);
      assert Cleared(threadCount, run, states, i, k, t, crash);
    }
  }

  lemma MarkingGoesOn(threadCount: nat, run: seq<Step>, states: seq<System>, i: nat, e: nat, k: nat, t: Thread)
    requires IsTrace(threadCount, run, states) && k < |run| && e < k && Cleared(threadCount, run, states, i, e, t, true)
    requires t < |states[k].threads| && states[k].threads[t].Marking?
    ensures OnItsWay(threadCount, run, states, i, k + 1, t, true)
  {
    AtStep(threadCount, run, states, k);
    NextOnTheWay(states[k], run[k], t);
    assert e < k + 1 && Cleared(threadCount, run, states, i, e, t, true);
    if run[k] == MarkCrashed(t) {
      assert k < k + 1 && Marked(run, e, k, t);
      assert SeenThrough(threadCount, run, states, i, k + 1, t, true);
    }
  }

  lemma StaysSeenThrough(threadCount: nat, run: seq<Step>, states: seq<System>, i: nat, k: nat, t: Thread, crash: bool)
    requires IsTrace(threadCount, run, states) && SeenThrough(threadCount, run, states, i, k, t, crash)
    ensures SeenThrough(threadCount, run, states, i, k + 1, t, crash)
  {
    var e: nat :| e < k && Cleared(threadCount, run, states, i, e, t, crash) &&
        (crash ==> exists m: nat :: m < k && Marked(run, e, m, t));
    if crash {
      var m: nat :| m < k && Marked(run, e, m, t);
      assert m < k + 1 && Marked(run, e, m, t);
    }
    assert e < k + 1 && Cleared(threadCount, run, states, i, e, t, crash);
  }

  lemma OneStepOn(threadCount: nat, run: seq<Step>, states: seq<System>, i: nat, k: nat, t: Thread, crash: bool)
    requires IsTrace(threadCount, run, states) && i < k < |run| && OnItsWay(threadCount, run, states, i, k, t, crash)
    ensures OnItsWay(threadCount, run, states, i, k + 1, t, crash)
  {
    var s := states[k];
    AtStep(threadCount, run, states, k);
    OthersUntouched(s, run[k]);
    if SeenThrough(threadCount, run, states, i, k, t, crash) {
      StaysSeenThrough(threadCount, run, states, i, k, t, crash);
    } else if s.threads[t].Marking? {
      var e: nat :| e < k && Cleared(threadCount, run, states, i, e, t, crash);
      MarkingGoesOn(threadCount, run, states, i, e, k, t);
    } else {
      SweepingGoesOn(threadCount, run, states, i, k, t, crash);
    }
  }

  lemma {:induction false} OnItsWayFrom(threadCount: nat, run: seq<Step>, states: seq<System>, i: nat, k: nat,
      t: Thread, crash: bool)
    requires IsTrace(threadCount, run, states) && i < k <= |run| &&
        OnItsWay(threadCount, run, states, i, i + 1, t, crash)
    ensures OnItsWay(threadCount, run, states, i, k, t, crash)
  {
    if i + 1 < k {
      OnItsWayFrom(threadCount, run, states, i, k - 1, t, crash);
      OneStepOn(threadCount, run, states, i, k - 1, t, crash);
    }
  }

  /**
    A `Close` or crash watcher that comes first, once its thread has nothing left to do, has let go of
    an empty table: the crash watcher has emptied the buffers as well and marked the client closed
    after that, `Close` has left them.
  */
  lemma SweepSeenThrough(threadCount: nat, run: seq<Step>, states: seq<System>, i: nat, k: nat)
    requires IsTrace(threadCount, run, states) && i < k <= |run| && Begins(run[i]) && !EndedBefore(run, i)
    requires run[i].t < |states[k].threads| && states[k].threads[run[i].t].Idle?
    ensures SeenThrough(threadCount, run, states, i, k, run[i].t, run[i].ObserveExit?)
    ensures states[k].clientClosed && (run[i].ObserveExit? ==> states[k].crashed)
  {
    var t, crash := run[i].t, run[i].ObserveExit?;
    BeginsOnce(threadCount, run, states, i);
    AtStep(threadCount, run, states, i);
    assert states[i + 1].threads[t] == Awaiting(crash);
    OnItsWayFrom(threadCount, run, states, i, k, t, crash);
    var e: nat :| e < k && Cleared(threadCount, run, states, i, e, t, crash) &&
        (crash ==> exists m: nat :: m < k && Marked(run, e, m, t));
    if crash {
      var m: nat :| m < k && Marked(run, e, m, t);
      assert Ends(run[m]);
    } else {
      assert Ends(run[i]);
    }
    ClosedExactly(threadCount, run, states, k);
    CrashedExactly(threadCount, run, states, k);
  }
}
