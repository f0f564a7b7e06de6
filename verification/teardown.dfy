/**
  Which sessions the client can still reach.  A session is tracked when it is
  closed, registered, or about to be closed by the teardown that deregistered
  it; an untracked one stays open for good, since `Close` never sees it.
*/
module Teardown {
  import opened Wrappers
  import opened RoutingTable
  import opened SessionDelivery
  import opened RoutingProtocol
  import opened RoutingConservation
  import opened ClientLifecycle

  predicate IsRegistered(s: System, h: Handle) {
    h < |s.sessions| && s.sessions[h].id in s.table.sessions && s.table.sessions[s.sessions[h].id] == h
  }

  predicate IsClosed(s: System, h: Handle) {
    h < |s.sessions| && s.sessions[h].state.closed
  }

  predicate BeingTornDown(s: System, h: Handle) {
    exists t: nat :: t < |s.threads| && s.threads[t] == TearingDown(h)
  }

  predicate Tracked(s: System, h: Handle) {
    IsClosed(s, h) || IsRegistered(s, h) || BeingTornDown(s, h)
  }

  ghost predicate AllTracked(s: System) {
    forall h: nat :: h < |s.sessions| ==> Tracked(s, h)
  }

  /**
    What the locks give in every run: a session being torn down is no longer registered, and one closed
    while registered is under a sweep.
  */
  ghost predicate Orderly(s: System) {
    && (forall t: nat :: t < |s.threads| && s.threads[t].TearingDown? ==> !IsRegistered(s, s.threads[t].h))
    && (forall h: nat :: IsRegistered(s, h) && IsClosed(s, h) ==> TableLocked(s))
    && (forall t: nat :: t < |s.threads| && s.threads[t].Sweeping? ==>
          forall h: nat :: IsRegistered(s, h) ==> h in s.threads[t].todo || IsClosed(s, h))
    && (forall t: nat :: t < |s.threads| && s.threads[t].Sweeping? ==>
          forall h: nat :: h in s.threads[t].todo ==> IsRegistered(s, h))
  }

  /**
    The step takes the id of a registered session away from it: registering an
    id that is live, or rolling back a session whose id has since gone to
    another one.  `deregisterSession` deletes by id, whoever holds it.
  */
  predicate Displaces(s: System, step: Step) {
    match step
    case Register(_, id, _) => id in s.table.sessions
    case Deregister(_, h) => h < |s.sessions| && s.sessions[h].id in s.table.sessions && !IsRegistered(s, h)
    case _ => false
  }

  predicate ClosesThings(c: Control) {
    c.TearingDown? || c.Sweeping?
  }

  /** Nothing about registration or closing happened. */
  ghost predicate Quiet(s: System, s': System) {
    && s'.table.sessions == s.table.sessions
    && |s'.sessions| == |s.sessions| && |s'.threads| == |s.threads|
    && (forall h: nat :: h < |s.sessions| ==>
        s'.sessions[h].id == s.sessions[h].id && s'.sessions[h].state.closed == s.sessions[h].state.closed)
    && (forall t: nat :: t < |s.threads| ==>
        s'.threads[t] == s.threads[t] || (!ClosesThings(s.threads[t]) && !ClosesThings(s'.threads[t])))
  }

  lemma QuietTracks(s: System, s': System)
    requires Quiet(s, s') && Orderly(s)
    ensures Orderly(s') && (AllTracked(s) ==> AllTracked(s'))
  {
    forall h: nat ensures IsRegistered(s', h) == IsRegistered(s, h) && IsClosed(s', h) == IsClosed(s, h) &&
        BeingTornDown(s', h) == BeingTornDown(s, h) {
      if BeingTornDown(s, h) {
        var t: nat :| t < |s.threads| && s.threads[t] == TearingDown(h);
        assert s'.threads[t] == TearingDown(h);
      }
    }
    if TableLocked(s) {
      var t: nat :| t < |s.threads| && s.threads[t].Sweeping?;
      assert s'.threads[t].Sweeping?;
    }
    forall h: nat | AllTracked(s) && h < |s'.sessions| ensures Tracked(s', h) {
      assert Tracked(s, h);
    }
  }

  lemma AdmitQuiet(s: System, t: Thread)
    requires CanAdmit(s, t)
    ensures Quiet(s, DoAdmit(s, t))
  {
  }

  lemma SendQuiet(s: System, t: Thread)
    requires CanSend(s, t)
    ensures Quiet(s, DoSend(s, t))
  {
  }

  lemma DeliveryQuiet(s: System, step: Step)
    requires Enabled(s, step) && (step.Admit? || step.Send? || step.Receive?)
    ensures Quiet(s, Next(s, step))
  {
    match step
    case Admit(t) => AdmitQuiet(s, t);
    case Send(t) => SendQuiet(s, t);
    case Receive(_) =>
  }

  lemma RouteQuiet(s: System, t: Thread, id: SessionId)
    requires CanUseTable(s, t)
    ensures Quiet(s, DoRoute(s, t, id))
  {
  }

  lemma ControlQuiet(s: System, step: Step)
    requires Enabled(s, step) && (step.BeginClose? || step.ObserveExit? || step.MarkCrashed?)
    ensures Quiet(s, Next(s, step))
  {
  }

  /** Only the control of `t` changed, and it was not tearing down `h`. */
  lemma TornDownStable(s: System, s': System, t: Thread, h: Handle)
    requires t < |s.threads| && |s'.threads| == |s.threads| && s'.threads == s.threads[t := s'.threads[t]]
    requires s.threads[t] != TearingDown(h)
    ensures BeingTornDown(s', h) <==> BeingTornDown(s, h) || s'.threads[t] == TearingDown(h)
  {
    if BeingTornDown(s, h) {
      var u: nat :| u < |s.threads| && s.threads[u] == TearingDown(h);
      assert s'.threads[u] == TearingDown(h);
    }
  }

  lemma RegisterOrderly(s: System, t: Thread, id: SessionId, bufferSize: int)
    requires Inv(s) && Orderly(s) && CanUseTable(s, t)
    ensures Orderly(DoRegister(s, t, id, bufferSize))
  {
    var s', h' := DoRegister(s, t, id, bufferSize), |s.sessions|;
    forall u: nat | u < |s.threads| ensures ControlSound(s, s.threads[u]) {}
    forall h: nat ensures IsRegistered(s', h) <==> h == h' || (IsRegistered(s, h) && s.sessions[h].id != id) {}
    forall h: nat ensures IsClosed(s', h) <==> IsClosed(s, h) {}
    assert forall u: nat :: u < |s.threads| && ClosesThings(s'.threads[u]) ==> s'.threads[u] == s.threads[u];
  }

  lemma DeregisterOrderly(s: System, t: Thread, h: Handle)
    requires Inv(s) && Orderly(s) && CanDeregister(s, t, h)
    ensures Orderly(DoDeregister(s, t, h))
  {
    var s', id := DoDeregister(s, t, h), s.sessions[h].id;
    forall k: nat ensures IsRegistered(s', k) <==> IsRegistered(s, k) && s.sessions[k].id != id {}
    assert forall u: nat :: u < |s.threads| && u != t ==> s'.threads[u] == s.threads[u];
  }

  lemma RegisterTracks(s: System, t: Thread, id: SessionId, bufferSize: int)
    requires Inv(s) && Orderly(s) && AllTracked(s) && CanUseTable(s, t)
    ensures AllTracked(DoRegister(s, t, id, bufferSize)) <==> id !in s.table.sessions
  {
    var s', h' := DoRegister(s, t, id, bufferSize), |s.sessions|;
    forall h: nat ensures BeingTornDown(s', h) <==> BeingTornDown(s, h) {
      TornDownStable(s, s', t, h);
    }
    forall h: nat ensures IsRegistered(s', h) <==> h == h' || (IsRegistered(s, h) && s.sessions[h].id != id) {}
    if id in s.table.sessions {
      assert IsRegistered(s, s.table.sessions[id]) && !Tracked(s', s.table.sessions[id]);
    } else {
      forall h: nat | h < |s'.sessions| ensures Tracked(s', h) {
        assert h < |s.sessions| ==> Tracked(s, h);
      }
    }
  }

  lemma DeregisterTracks(s: System, t: Thread, h: Handle)
    requires Inv(s) && Orderly(s) && AllTracked(s) && CanDeregister(s, t, h)
    ensures AllTracked(DoDeregister(s, t, h)) <==> !Displaces(s, Deregister(t, h))
  {
    var s', id := DoDeregister(s, t, h), s.sessions[h].id;
    forall k: nat ensures BeingTornDown(s', k) <==> BeingTornDown(s, k) || k == h {
      TornDownStable(s, s', t, k);
    }
    forall k: nat ensures IsRegistered(s', k) <==> IsRegistered(s, k) && s.sessions[k].id != id {}
    if id in s.table.sessions && s.table.sessions[id] != h {
      assert IsRegistered(s, s.table.sessions[id]) && !Tracked(s', s.table.sessions[id]);
    } else {
      forall k: nat | k < |s'.sessions| ensures Tracked(s', k) {
        assert Tracked(s, k);
      }
    }
  }

  lemma BeginSweepTracks(s: System, t: Thread)
    requires Inv(s) && Orderly(s) && CanBeginSweep(s, t)
    ensures var s' := Next(s, BeginSweep(t)); Orderly(s') && (AllTracked(s) ==> AllTracked(s'))
  {
    var s' := Next(s, BeginSweep(t));
    assert s'.threads[t].Sweeping?;
    forall h: nat ensures IsRegistered(s', h) == IsRegistered(s, h) && IsClosed(s', h) == IsClosed(s, h) {
      TornDownStable(s, s', t, h);
    }
    forall h: nat | AllTracked(s) && h < |s'.sessions| ensures Tracked(s', h) {
      assert Tracked(s, h);
      TornDownStable(s, s', t, h);
    }
  }

  lemma SweepOneTracks(s: System, t: Thread, h: Handle)
    requires Inv(s) && Orderly(s) && CanSweepOne(s, t, h)
    ensures Orderly(DoSweepOne(s, t, h)) && (AllTracked(s) ==> AllTracked(DoSweepOne(s, t, h)))
  {
    var s' := DoSweepOne(s, t, h);
    assert s'.threads[t].Sweeping?;
    forall k: nat ensures IsRegistered(s', k) == IsRegistered(s, k) && IsClosed(s', k) == (IsClosed(s, k) || k == h) {}
    forall k: nat | AllTracked(s) && k < |s'.sessions| ensures Tracked(s', k) {
      assert Tracked(s, k);
      TornDownStable(s, s', t, k);
    }
  }

  lemma CloseSessionOrderly(s: System, t: Thread)
    requires Orderly(s) && CanCloseSession(s, t)
    ensures Orderly(DoCloseSession(s, t))
  {
    var s', h := DoCloseSession(s, t), s.threads[t].h;
    forall k: nat ensures IsRegistered(s', k) == IsRegistered(s, k) && IsClosed(s', k) == (IsClosed(s, k) || k == h) {}
    assert forall u: nat :: u < |s.threads| && u != t ==> s'.threads[u] == s.threads[u];
    if TableLocked(s) {
      var u: nat :| u < |s.threads| && s.threads[u].Sweeping?;
      assert s'.threads[u].Sweeping?;
    }
  }

  lemma CloseSessionTracks(s: System, t: Thread)
    requires Inv(s) && Orderly(s) && CanCloseSession(s, t)
    ensures Orderly(DoCloseSession(s, t)) && (AllTracked(s) ==> AllTracked(DoCloseSession(s, t)))
  {
    var s', h := DoCloseSession(s, t), s.threads[t].h;
    CloseSessionOrderly(s, t);
    forall k: nat ensures IsRegistered(s', k) == IsRegistered(s, k) && IsClosed(s', k) == (IsClosed(s, k) || k == h) {}
    forall k: nat | AllTracked(s) && k < |s'.sessions| ensures Tracked(s', k) {
      assert Tracked(s, k);
      if k != h {
        TornDownStable(s, s', t, k);
      }
    }
  }

  /**
    When a sweep lets go of the table, every session created before is closed, or its own teardown is
    about to close it.
  */
  lemma EndSweepTracks(s: System, t: Thread)
    requires Inv(s) && Orderly(s) && CanEndSweep(s, t)
    ensures var s' := DoEndSweep(s, t);
            && Orderly(s')
            && (AllTracked(s) ==> forall h: nat :: h < |s'.sessions| ==> IsClosed(s', h) || BeingTornDown(s', h))
  {
    var s' := DoEndSweep(s, t);
    forall h: nat ensures !IsRegistered(s', h) && IsClosed(s', h) == IsClosed(s, h) {}
    assert forall u: nat :: u < |s.threads| && u != t ==> !s.threads[u].Sweeping?;
    forall h: nat | AllTracked(s) && h < |s'.sessions| ensures IsClosed(s', h) || BeingTornDown(s', h) {
      assert Tracked(s, h);
      TornDownStable(s, s', t, h);
    }
  }

  // ----- every step, every run

  lemma StepOrderly(s: System, step: Step)
    requires Inv(s) && Orderly(s) && Enabled(s, step)
    ensures Orderly(Next(s, step))
  {
    match step
    case Register(t, id, bufferSize) => RegisterOrderly(s, t, id, bufferSize);
    case Deregister(t, h) => DeregisterOrderly(s, t, h);
    case BeginSweep(t) => BeginSweepTracks(s, t);
    case SweepOne(t, h) => SweepOneTracks(s, t, h);
    case EndSweep(t) => EndSweepTracks(s, t);
    case CloseSession(t) => CloseSessionTracks(s, t);
    case Route(t, id) => RouteQuiet(s, t, id); QuietTracks(s, DoRoute(s, t, id));
    case BeginClose(_) => ControlQuiet(s, step); QuietTracks(s, Next(s, step));
    case ObserveExit(_) => ControlQuiet(s, step); QuietTracks(s, Next(s, step));
    case MarkCrashed(_) => ControlQuiet(s, step); QuietTracks(s, Next(s, step));
    case _ => DeliveryQuiet(s, step); QuietTracks(s, Next(s, step));
  }

  /** A step keeps every session tracked exactly when it displaces none. */
  lemma StepTracksUnlessDisplacing(s: System, step: Step)
    requires Inv(s) && Orderly(s) && AllTracked(s) && Enabled(s, step)
    ensures AllTracked(Next(s, step)) <==> !Displaces(s, step)
  {
    match step
    case Register(t, id, bufferSize) => RegisterTracks(s, t, id, bufferSize);
    case Deregister(t, h) => DeregisterTracks(s, t, h);
    case BeginSweep(t) => BeginSweepTracks(s, t);
    case SweepOne(t, h) => SweepOneTracks(s, t, h);
    case EndSweep(t) =>
      EndSweepTracks(s, t);
      assert forall h: nat :: h < |Next(s, step).sessions| ==> Tracked(Next(s, step), h);
    case CloseSession(t) => CloseSessionTracks(s, t);
    case Route(t, id) => RouteQuiet(s, t, id); QuietTracks(s, DoRoute(s, t, id));
    case BeginClose(_) => ControlQuiet(s, step); QuietTracks(s, Next(s, step));
    case ObserveExit(_) => ControlQuiet(s, step); QuietTracks(s, Next(s, step));
    case MarkCrashed(_) => ControlQuiet(s, step); QuietTracks(s, Next(s, step));
    case _ => DeliveryQuiet(s, step); QuietTracks(s, Next(s, step));
  }

  /** No step of the run displaces a registered session. */
  predicate NeverDisplaces(threadCount: nat, run: seq<Step>)
    requires ValidRun(threadCount, run)
  {
    run == [] ||
    (NeverDisplaces(threadCount, run[..|run| - 1]) && !Displaces(After(threadCount, run[..|run| - 1]), run[|run| - 1]))
  }

  lemma {:induction false} RunOrderly(threadCount: nat, run: seq<Step>)
    requires ValidRun(threadCount, run)
    ensures Orderly(After(threadCount, run))
  {
    if run != [] {
      var before := run[..|run| - 1];
      RunKeeps(threadCount, before);
      RunOrderly(threadCount, before);
      StepOrderly(After(threadCount, before), run[|run| - 1]);
    }
  }

  /**
    In a run that displaces nothing, every session ever created is registered, closed, or about to be
    closed by its teardown.
  */
  lemma {:induction false} SessionsStayTracked(threadCount: nat, run: seq<Step>)
    requires ValidRun(threadCount, run) && NeverDisplaces(threadCount, run)
    ensures AllTracked(After(threadCount, run))
  {
    if run != [] {
      var before := run[..|run| - 1];
      RunKeeps(threadCount, before);
      RunOrderly(threadCount, before);
      SessionsStayTracked(threadCount, before);
      StepTracksUnlessDisplacing(After(threadCount, before), run[|run| - 1]);
    }
  }

  /**
    What a sweep achieves needs no more than the locks: it is exactly the tracked sessions that it
    leaves closed or under teardown.
  */
  lemma EndSweepExactly(s: System, t: Thread, h: Handle)
    requires Inv(s) && Orderly(s) && CanEndSweep(s, t) && h < |s.sessions|
    ensures IsRegistered(s, h) ==> IsClosed(DoEndSweep(s, t), h)
    ensures IsClosed(DoEndSweep(s, t), h) || BeingTornDown(DoEndSweep(s, t), h) <==> Tracked(s, h)
  {
    TornDownStable(s, DoEndSweep(s, t), t, h);
  }

  /**
    Whatever a run did before, once `Close` or the crash watcher lets go of the table every session
    that was registered is closed, and a session is closed or under its own teardown exactly if it
    was tracked.
  */
  lemma SweepClosesExactly(threadCount: nat, run: seq<Step>, h: Handle)
    requires run != [] && ValidRun(threadCount, run) && run[|run| - 1].EndSweep?
    requires h < |After(threadCount, run[..|run| - 1]).sessions|
    ensures var s, s' := After(threadCount, run[..|run| - 1]), After(threadCount, run);
            && (IsRegistered(s, h) ==> IsClosed(s', h))
            && (IsClosed(s', h) || BeingTornDown(s', h) <==> Tracked(s, h))
  {
    var before := run[..|run| - 1];
    RunKeeps(threadCount, before);
    RunOrderly(threadCount, before);
    AfterLast(threadCount, run);
    EndSweepExactly(After(threadCount, before), run[|run| - 1].t, h);
  }

  /**
    Once `Close` or the crash watcher lets go of the table, no session created before is left open,
    except one its own teardown is closing.
  */
  lemma SweepClosesEverySession(threadCount: nat, run: seq<Step>, h: Handle)
    requires run != [] && ValidRun(threadCount, run) && NeverDisplaces(threadCount, run) && run[|run| - 1].EndSweep?
    requires h < |After(threadCount, run).sessions|
    ensures IsClosed(After(threadCount, run), h) || BeingTornDown(After(threadCount, run), h)
  {
    var before := run[..|run| - 1];
    RunKeeps(threadCount, before);
    RunOrderly(threadCount, before);
    SessionsStayTracked(threadCount, before);
    EndSweepTracks(After(threadCount, before), run[|run| - 1].t);
  }

  /**
    No id need be registered while live for a session to leak.  Wherever a
    session has been closed and swept off the table, creating another one under
    its id and then rolling the first one back leaves the second open and off the
    table, where `Close` no longer sees it.
  */
  lemma LateRollbackLeaks(s: System, t: Thread, u: Thread, h: Handle, bufferSize: int)
    requires Inv(s) && Orderly(s) && AllTracked(s)
    requires t != u && CanUseTable(s, t) && CanStart(s, u)
    requires IsClosed(s, h) && s.sessions[h].id !in s.table.sessions
    ensures var reuse, rollback := Register(t, s.sessions[h].id, bufferSize), Deregister(u, h);
            && !Displaces(s, reuse) && Enabled(Next(s, reuse), rollback)
            && !Tracked(Next(Next(s, reuse), rollback), |s.sessions|)
  {
    var s1 := DoRegister(s, t, s.sessions[h].id, bufferSize);
    Reused(s, t, u, h, bufferSize);
    Unreachable(s1, u, h, |s.sessions|);
  }

  /** The new session is registered under the old one's id, open, and not being torn down. */
  lemma Reused(s: System, t: Thread, u: Thread, h: Handle, bufferSize: int)
    requires Inv(s) && t != u && CanUseTable(s, t) && CanStart(s, u) && h < |s.sessions|
    ensures var s1 := DoRegister(s, t, s.sessions[h].id, bufferSize);
            && CanDeregister(s1, u, h) && IsRegistered(s1, |s.sessions|) && Open(s1, |s.sessions|)
            && s1.sessions[h].id == s1.sessions[|s.sessions|].id
  {
    var s1 := DoRegister(s, t, s.sessions[h].id, bufferSize);
    assert forall v: nat :: v < |s.threads| ==> !s.threads[v].Sweeping?;
    RegisteredOpen(s, t, s.sessions[h].id, bufferSize);
  }

  /** Rolling back one session takes the id from another that is registered under it. */
  lemma Unreachable(s: System, u: Thread, h: Handle, k: Handle)
    requires CanDeregister(s, u, h) && k != h && Open(s, k) && s.sessions[h].id == s.sessions[k].id
    ensures !Tracked(DoDeregister(s, u, h), k)
  {
    TornDownStable(s, DoDeregister(s, u, h), u, k);
  }

  /**
    A run of three threads that gets there: one creates a session, another closes the client, a third
    creates a session under the same id, and then the first rolls its own back.
  */
  lemma LeakFromStart(id: SessionId, bufferSize: int) returns (run: seq<Step>)
    ensures ValidRun(3, run) && |After(3, run).sessions| == 2 && !Tracked(After(3, run), 1)
  {
    var s := SweptSession(id, bufferSize);
    var s' := ReuseAndRollBack(s, id, bufferSize);
    run :| ValidRun(3, run) && RoutedBy(run, 0) && After(3, run) == s';
  }

  predicate AllIdle(s: System) {
    s.threads == [Idle, Idle, Idle]
  }

  lemma ReuseAndRollBack(s: System, id: SessionId, bufferSize: int) returns (s': System)
    requires Reachable(3, 0, s) && AllIdle(s)
    requires |s.sessions| == 1 && s.sessions[0].id == id && IsClosed(s, 0) && s.table.sessions == map[]
    ensures Reachable(3, 0, s') && |s'.sessions| == 2 && !Tracked(s', 1)
  {
    ReachableOrderly(3, 0, s);
    OneClosed(s);
    LateRollbackLeaks(s, 2, 0, 0, bufferSize);
    s' := TwoMore(s, Register(2, id, bufferSize), Deregister(0, 0));
  }

  lemma OneClosed(s: System)
    requires AllIdle(s) && |s.sessions| == 1 && IsClosed(s, 0)
    ensures AllTracked(s) && CanUseTable(s, 2) && CanStart(s, 0)
  {
    assert Tracked(s, 0);
  }

  lemma TwoMore(s: System, reuse: Step, rollback: Step) returns (s': System)
    requires Reachable(3, 0, s) && reuse.Register? && rollback.Deregister?
    requires Enabled(s, reuse) && Enabled(Next(s, reuse), rollback)
    ensures Reachable(3, 0, s') && s' == Next(Next(s, reuse), rollback) && |s'.sessions| == |s.sessions| + 1
  {
    ReachStep(3, 0, s, reuse);
    ReachStep(3, 0, Next(s, reuse), rollback);
    s' := Next(Next(s, reuse), rollback);
  }

  lemma ReachableOrderly(threadCount: nat, d: Thread, s: System)
    requires Reachable(threadCount, d, s)
    ensures Inv(s) && Orderly(s)
  {
    var run :| ValidRun(threadCount, run) && RoutedBy(run, d) && After(threadCount, run) == s;
    RunKeeps(threadCount, run);
    RunOrderly(threadCount, run);
  }

  lemma SweepLoneSession(s: System)
    requires s.threads == [Idle, Sweeping(false, {0}), Idle] && |s.sessions| == 1 && !s.sessions[0].state.closed
    ensures CanSweepOne(s, 1, 0) && CanEndSweep(DoSweepOne(s, 1, 0), 1)
    ensures var s' := DoEndSweep(DoSweepOne(s, 1, 0), 1);
            && AllIdle(s') && |s'.sessions| == 1 && s'.sessions[0].id == s.sessions[0].id
            && IsClosed(s', 0) && s'.table.sessions == map[]
  {
    assert s.threads[1].todo - {0} == {};
    assert DoSweepOne(s, 1, 0).threads[1] == Sweeping(false, {});
  }

  /** One session, created and then swept by `Close`. */
  lemma SweptSession(id: SessionId, bufferSize: int) returns (s: System)
    ensures Reachable(3, 0, s) && AllIdle(s)
    ensures |s.sessions| == 1 && s.sessions[0].id == id && IsClosed(s, 0) && s.table.sessions == map[]
  {
    var under := SessionUnderSweep(id, bufferSize);
    SweepLoneSession(under);
    ReachStep(3, 0, under, SweepOne(1, 0));
    var swept := DoSweepOne(under, 1, 0);
    ReachStep(3, 0, swept, EndSweep(1));
    s := DoEndSweep(swept, 1);
  }

  lemma SessionUnderSweep(id: SessionId, bufferSize: int) returns (s: System)
    ensures Reachable(3, 0, s)
    ensures s.threads == [Idle, Sweeping(false, {0}), Idle]
    ensures |s.sessions| == 1 && s.sessions[0].id == id && !s.sessions[0].state.closed
  {
    var created := CreatedSession(id, bufferSize);
    var table := created.table.sessions;
    assert id in table && table.Values == {0};
    ReachStep(3, 0, created, BeginClose(1));
    var closing := Next(created, BeginClose(1));
    assert closing.threads == [Idle, Awaiting(false), Idle];
    ReachStep(3, 0, closing, BeginSweep(1));
    s := Next(closing, BeginSweep(1));
  }

  lemma CreatedSession(id: SessionId, bufferSize: int) returns (s: System)
    ensures Reachable(3, 0, s) && AllIdle(s) && s.table.sessions == map[id := 0] && !s.clientClosed
    ensures |s.sessions| == 1 && s.sessions[0].id == id && !s.sessions[0].state.closed
  {
    ReachStart(3, 0);
    assert AllIdle(Initial(3));
    ReachStep(3, 0, Initial(3), Register(0, id, bufferSize));
    s := DoRegister(Initial(3), 0, id, bufferSize);
  }

  // ----- sessions registered after `Close`

  /** Open, and not about to be closed by its rollback. */
  predicate Open(s: System, h: Handle) {
    h < |s.sessions| && !IsClosed(s, h) && !BeingTornDown(s, h)
  }

  predicate RollsBack(step: Step, h: Handle) {
    step.Deregister? && step.h == h
  }

  /** The steps that register, deregister and close nothing. */
  predicate IsQuiet(step: Step) {
    step.Route? || step.Admit? || step.Send? || step.Receive? || step.BeginClose? || step.ObserveExit? ||
        step.MarkCrashed?
  }

  lemma QuietStep(s: System, step: Step)
    requires Enabled(s, step) && IsQuiet(step)
    ensures Quiet(s, Next(s, step))
  {
    match step
    case Route(t, id) => RouteQuiet(s, t, id);
    case BeginClose(_) => ControlQuiet(s, step);
    case ObserveExit(_) => ControlQuiet(s, step);
    case MarkCrashed(_) => ControlQuiet(s, step);
    case _ => DeliveryQuiet(s, step);
  }

  lemma QuietOpen(s: System, s': System, h: Handle)
    requires Quiet(s, s')
    ensures Open(s', h) <==> Open(s, h)
  {
    if BeingTornDown(s, h) {
      var t: nat :| t < |s.threads| && s.threads[t] == TearingDown(h);
      assert s'.threads[t] == TearingDown(h);
    }
  }

  /** After the sweep of `Close`, a step leaves a session open exactly when it does not roll it back. */
  lemma OpenUnlessRolledBack(s: System, step: Step, h: Handle)
    requires SweptForGood(s) && Enabled(s, step) && Open(s, h)
    ensures Open(Next(s, step), h) <==> !RollsBack(step, h)
  {
    match step
    case Register(t, id, bufferSize) => TornDownStable(s, DoRegister(s, t, id, bufferSize), t, h);
    case Deregister(t, k) => TornDownStable(s, DoDeregister(s, t, k), t, h);
    case CloseSession(t) => TornDownStable(s, DoCloseSession(s, t), t, h);
    case BeginSweep(_) =>
    case SweepOne(_, _) =>
    case EndSweep(_) =>
    case _ =>
      QuietStep(s, step);
      QuietOpen(s, Next(s, step), h);
  }

  lemma ClosedStays(s: System, step: Step, h: Handle)
    requires Enabled(s, step) && IsClosed(s, h)
    ensures IsClosed(Next(s, step), h)
  {
  }

  lemma TeardownGoesOn(s: System, step: Step, h: Handle, t: Thread)
    requires Enabled(s, step) && h < |s.sessions| && t < |s.threads| && s.threads[t] == TearingDown(h)
    ensures if step == CloseSession(t) then IsClosed(Next(s, step), h)
            else t < |Next(s, step).threads| && Next(s, step).threads[t] == TearingDown(h)
  {
    OthersUntouched(s, step);
  }

  lemma NeverReopened(s: System, step: Step, h: Handle)
    requires Enabled(s, step) && h < |s.sessions| && !Open(s, h)
    ensures h < |Next(s, step).sessions| && !Open(Next(s, step), h)
  {
    SessionsStay(s, step);
    if IsClosed(s, h) {
      ClosedStays(s, step, h);
    } else {
      var t: nat :| t < |s.threads| && s.threads[t] == TearingDown(h);
      TeardownGoesOn(s, step, h, t);
    }
  }

  lemma RegisteredOpen(s: System, t: Thread, id: SessionId, bufferSize: int)
    requires Inv(s) && CanUseTable(s, t)
    ensures Open(DoRegister(s, t, id, bufferSize), |s.sessions|)
  {
    assert forall u: nat :: u < |s.threads| ==> ControlSound(s, s.threads[u]);
  }

  lemma OpenStep(s: System, step: Step, h: Handle)
    requires SweptForGood(s) && Enabled(s, step) && h < |s.sessions|
    ensures SweptForGood(Next(s, step)) && h < |Next(s, step).sessions|
    ensures Open(Next(s, step), h) <==> Open(s, h) && !RollsBack(step, h)
  {
    StaysSwept(s, step);
    if Open(s, h) {
      OpenUnlessRolledBack(s, step, h);
    } else {
      NeverReopened(s, step, h);
    }
  }

  predicate RolledBackFrom(run: seq<Step>, k: nat, h: Handle) {
    RolledBackIn(run, k, |run|, h)
  }

  /** Between two steps of the run. */
  predicate RolledBackIn(run: seq<Step>, k: nat, n: nat, h: Handle) {
    exists i :: k <= i < n && i < |run| && RollsBack(run[i], h)
  }

  lemma RolledBackStep(run: seq<Step>, k: nat, n: nat, h: Handle)
    requires k <= n < |run|
    ensures RolledBackIn(run, k, n + 1, h) <==> RolledBackIn(run, k, n, h) || RollsBack(run[n], h)
  {
    if RolledBackIn(run, k, n, h) {
      var i :| k <= i < n && i < |run| && RollsBack(run[i], h);
      assert i < n + 1 && RollsBack(run[i], h);
    }
  }

  /** From then on, whatever else happens, exactly a rollback of its own keeps an open session from staying open. */
  lemma {:induction false} OpenFrom(threadCount: nat, run: seq<Step>, states: seq<System>, k: nat, n: nat, h: Handle)
    requires IsTrace(threadCount, run, states) && k <= n <= |run| && SweptForGood(states[k]) && Open(states[k], h)
    ensures SweptForGood(states[n]) && h < |states[n].sessions|
    ensures Open(states[n], h) <==> !RolledBackIn(run, k, n, h)
  {
    if k < n {
      OpenFrom(threadCount, run, states, k, n - 1, h);
      AtStep(threadCount, run, states, n - 1);
      OpenStep(states[n - 1], run[n - 1], h);
      RolledBackStep(run, k, n - 1, h);
    }
  }

  lemma RegisteredStaysOpen(threadCount: nat, run: seq<Step>, states: seq<System>, k: nat)
    requires IsTrace(threadCount, run, states) && k < |run| && run[k].Register? && SweptForGood(states[k])
    ensures Open(states[|run|], |states[k].sessions|) <==> !RolledBackFrom(run, k + 1, |states[k].sessions|)
  {
    var s := states[k];
    TracePrefix(threadCount, run, states, k);
    AtStep(threadCount, run, states, k);
    RunKeeps(threadCount, run[..k]);
    RegisteredOpen(s, run[k].t, run[k].id, run[k].bufferSize);
    StaysSwept(s, run[k]);
    OpenFrom(threadCount, run, states, k + 1, |run|, |s.sessions|);
  }

  /**
    A session registered after the sweep of `Close` has ended, with no crash watcher past its check
    still to sweep, stays open for good, unless its own rollback closes it: no later `Close` and no
    later crash watcher does.
  */
  lemma LateSessionStaysOpen(threadCount: nat, run: seq<Step>, states: seq<System>, i: nat, k: nat)
    requires IsTrace(threadCount, run, states) && i < k < |run| && run[k].Register?
    requires EndsCloseSweep(threadCount, run, states, i) && !CrashUnderWay(states[k])
    ensures Open(states[|run|], |states[k].sessions|) <==> !RolledBackFrom(run, k + 1, |states[k].sessions|)
  {
    SweptOnceCloseEnded(threadCount, run, states, i, k);
    RegisteredStaysOpen(threadCount, run, states, k);
  }
}
