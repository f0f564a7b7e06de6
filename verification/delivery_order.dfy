/**
  The order in which one session's channel accepts notifications, when a single
  dispatcher thread does the routing, and what becomes of the flushed ones.  The
  flush at registration runs after `sessionsMu` is released, so a direct delivery
  can overtake it: order always holds within the flushed notifications and within
  the directly routed ones, and overall exactly while none of the flushed is sent
  after a direct one.  Nothing routed during the flush is enough for that.
*/
module DeliveryOrder {
  import opened Wrappers
  import opened RoutingTable
  import opened SessionDelivery
  import opened RoutingProtocol
  import opened RoutingConservation
  import opened ClientLifecycle

  predicate KindsIncrease(accepted: seq<Note>, flushed: seq<Note>) {
    forall i, j :: 0 <= i < j < |accepted| && (accepted[i] in flushed <==> accepted[j] in flushed) ==>
        accepted[i] < accepted[j]
  }

  /** Each of the two kinds in arrival order, the flushed ones all older than the direct ones. */
  predicate KindsOrdered(r: SessionRecord) {
    && KindsIncrease(Accepted(r), r.flushed)
    && (forall k, f :: k in Accepted(r) && k !in r.flushed && f in r.flushed ==> f < k)
  }

  predicate RecordOrdered(s: System, r: SessionRecord) {
    && Increasing(r.flushed)
    && (forall f :: f in r.flushed ==> f < |s.arrivals|)
    && KindsOrdered(r)
    && (!r.overtaken ==> Increasing(Accepted(r)))
  }

  predicate FlushAhead(r: SessionRecord, note: Note, rest: seq<Note>) {
    && (forall k :: k in rest ==> k in r.flushed)
    && (forall k :: k in Accepted(r) && k in r.flushed ==> k < note)
    && (!r.overtaken ==> forall k :: k in Accepted(r) ==> k in r.flushed)
  }

  predicate DirectAhead(s: System, h: Handle, note: Note, rest: seq<Note>)
    requires h < |s.sessions|
  {
    var r := s.sessions[h];
    && rest == []
    && (forall k :: k in Accepted(r) && k !in r.flushed ==> k < note)
    && (forall f :: f in r.flushed ==> f < note)
    && (!r.overtaken ==> !Flushing(s, h))
  }

  /**
    What a delivering thread holds is still ahead of what its session accepted; only the dispatcher `d`
    holds direct ones.
  */
  predicate ThreadOrdered(s: System, d: Thread, t: Thread, c: Control) {
    Delivering(c) ==>
      && c.h < |s.sessions|
      && if c.note in s.sessions[c.h].flushed then FlushAhead(s.sessions[c.h], c.note, c.rest)
         else t == d && DirectAhead(s, c.h, c.note, c.rest)
  }

  ghost predicate Ordered(s: System, d: Thread) {
    && (forall h: nat :: h < |s.sessions| ==> RecordOrdered(s, s.sessions[h]))
    && (forall t: nat :: t < |s.threads| ==> ThreadOrdered(s, d, t, s.threads[t]))
    && (forall t: nat, u: nat, h: nat :: Flushes(s, t, h) && Flushes(s, u, h) ==> t == u)
  }

  /** A thread keeps what it delivers, moves on to the next of its flush, or stops delivering. */
  predicate Advances(c: Control, c': Control) {
    Delivering(c') ==>
      && Delivering(c) && c'.h == c.h
      && ((c'.note == c.note && c'.rest == c.rest) || (c.rest != [] && c'.note == c.rest[0] && c'.rest == c.rest[1..]))
  }

  /** Nothing was accepted, registered or routed. */
  ghost predicate Advancing(s: System, s': System) {
    && |s'.sessions| == |s.sessions| && |s'.threads| == |s.threads| && s'.arrivals == s.arrivals
    && (forall h: nat :: h < |s.sessions| ==>
          && Accepted(s'.sessions[h]) == Accepted(s.sessions[h])
          && s'.sessions[h].flushed == s.sessions[h].flushed
          && s'.sessions[h].overtaken == s.sessions[h].overtaken)
    && (forall t: nat :: t < |s.threads| ==> Advances(s.threads[t], s'.threads[t]))
  }

  lemma FlushesBefore(s: System, s': System, d: Thread, t: Thread, h: Handle)
    requires Inv(s) && Ordered(s, d) && Advancing(s, s') && Flushes(s', t, h)
    ensures Flushes(s, t, h)
  {
    assert ThreadOrdered(s, d, t, s.threads[t]) && Advances(s.threads[t], s'.threads[t]);
  }

  lemma AdvancedThreadOrdered(s: System, s': System, d: Thread, t: Thread)
    requires Inv(s) && Ordered(s, d) && Advancing(s, s') && t < |s.threads|
    ensures ThreadOrdered(s', d, t, s'.threads[t])
  {
    var c, c' := s.threads[t], s'.threads[t];
    assert ThreadOrdered(s, d, t, c) && ControlSound(s, c) && Advances(c, c');
    if Delivering(c') {
      var r, r' := s.sessions[c.h], s'.sessions[c.h];
      assert Accepted(r') == Accepted(r) && r'.flushed == r.flushed;
      if c.note in r.flushed {
        assert c'.note == c.note || (c'.note in c.rest && c.note < c'.note);
        assert forall k :: k in c'.rest ==> k in c.rest;
        assert FlushAhead(r', c'.note, c'.rest);
      } else {
        if Flushing(s', c.h) {
          var u: nat :| u < |s'.threads| && Flushes(s', u, c.h);
          FlushesBefore(s, s', d, u, c.h);
        }
        assert DirectAhead(s', c.h, c'.note, c'.rest);
      }
    }
  }

  lemma AdvancingOrdered(s: System, s': System, d: Thread)
    requires Inv(s) && Ordered(s, d) && Advancing(s, s')
    ensures Ordered(s', d)
  {
    forall h: nat | h < |s'.sessions| ensures RecordOrdered(s', s'.sessions[h]) {
      assert RecordOrdered(s, s.sessions[h]);
    }
    forall t: nat, h: nat | Flushes(s', t, h) ensures Flushes(s, t, h) {
      FlushesBefore(s, s', d, t, h);
    }
    forall t: nat | t < |s'.threads| ensures ThreadOrdered(s', d, t, s'.threads[t]) {
      AdvancedThreadOrdered(s, s', d, t);
    }
  }

  lemma AdmitAdvances(s: System, t: Thread)
    requires CanAdmit(s, t)
    ensures Advancing(s, DoAdmit(s, t))
  {
  }

  lemma ReceiveAdvances(s: System, h: Handle)
    requires CanReceive(s, h)
    ensures Advancing(s, DoReceive(s, h))
  {
    assert Accepted(DoReceive(s, h).sessions[h]) == Accepted(s.sessions[h]);
  }

  lemma ClosingAdvances(s: System, t: Thread, h: Handle)
    ensures CanCloseSession(s, t) ==> Advancing(s, DoCloseSession(s, t))
    ensures CanSweepOne(s, t, h) ==> Advancing(s, DoSweepOne(s, t, h))
  {
  }

  lemma TableStepAdvances(s: System, t: Thread, h: Handle)
    ensures CanDeregister(s, t, h) ==> Advancing(s, DoDeregister(s, t, h))
    ensures CanEndSweep(s, t) ==> Advancing(s, DoEndSweep(s, t))
  {
  }

  lemma ControlStepAdvances(s: System, step: Step)
    requires Enabled(s, step)
    requires step.BeginClose? || step.ObserveExit? || step.BeginSweep? || step.MarkCrashed?
    ensures Advancing(s, Next(s, step))
  {
  }

  lemma RouteUnregisteredOrdered(s: System, d: Thread, id: SessionId)
    requires Ordered(s, d)
    ensures Ordered(RouteUnregistered(s, id), d)
  {
    var s' := RouteUnregistered(s, id);
    forall h: nat | h < |s'.sessions| ensures RecordOrdered(s', s'.sessions[h]) {
      assert RecordOrdered(s, s.sessions[h]);
    }
    forall t: nat, h: nat ensures Flushes(s', t, h) <==> Flushes(s, t, h) {}
    forall t: nat | t < |s'.threads| ensures ThreadOrdered(s', d, t, s'.threads[t]) {
      assert ThreadOrdered(s, d, t, s.threads[t]);
    }
  }

  lemma RouteDirectOrdered(s: System, d: Thread, id: SessionId, h: Handle)
    requires Inv(s) && Ordered(s, d) && CanStart(s, d) && h < |s.sessions|
    ensures Ordered(RouteDirect(s, d, id, h), d)
  {
    var s', n := RouteDirect(s, d, id, h), |s.arrivals|;
    assert RecordOrdered(s, s.sessions[h]);
    forall k: nat | k < |s'.sessions| ensures RecordOrdered(s', s'.sessions[k]) {
      assert RecordOrdered(s, s.sessions[k]);
      assert Accepted(s'.sessions[k]) == Accepted(s.sessions[k]);
    }
    forall t: nat, k: nat ensures Flushes(s', t, k) <==> Flushes(s, t, k) {}
    forall k: nat ensures Flushing(s', k) <==> Flushing(s, k) {
      if Flushing(s, k) {
        var t: nat :| t < |s.threads| && Flushes(s, t, k);
        assert Flushes(s', t, k);
      }
    }
    assert RecordSound(s, s.sessions[h]);
    forall t: nat | t < |s'.threads| ensures ThreadOrdered(s', d, t, s'.threads[t]) {
      assert ThreadOrdered(s, d, t, s.threads[t]);
      if t != d && Delivering(s.threads[t]) {
        assert Accepted(s'.sessions[s.threads[t].h]) == Accepted(s.sessions[s.threads[t].h]);
        assert Flushes(s, t, s.threads[t].h);
      }
    }
  }

  lemma RegisterOrdered(s: System, d: Thread, t: Thread, id: SessionId, bufferSize: int)
    requires Inv(s) && Ordered(s, d) && CanUseTable(s, t)
    ensures Ordered(DoRegister(s, t, id, bufferSize), d)
  {
    var s', h' := DoRegister(s, t, id, bufferSize), |s.sessions|;
    assert BufferSound(s, id, Pending(s.table, id));
    forall h: nat | h < |s'.sessions| ensures RecordOrdered(s', s'.sessions[h]) {
      assert h < |s.sessions| ==> RecordOrdered(s, s.sessions[h]);
    }
    forall u: nat, h: nat | Flushes(s', u, h) ensures (u == t && h == h') || (u != t && Flushes(s, u, h)) {
      RegisterFlushes(s, d, t, id, bufferSize, u, h);
    }
    forall u: nat | u < |s'.threads| ensures ThreadOrdered(s', d, u, s'.threads[u]) {
      if u == t {
        RegistrarOrdered(s, d, t, id, bufferSize);
      } else {
        RegisterBystander(s, d, t, id, bufferSize, u);
      }
    }
  }

  lemma RegisterFlushes(s: System, d: Thread, t: Thread, id: SessionId, bufferSize: int, u: Thread, h: Handle)
    requires Inv(s) && Ordered(s, d) && CanUseTable(s, t) && Flushes(DoRegister(s, t, id, bufferSize), u, h)
    ensures (u == t && h == |s.sessions|) || (u != t && Flushes(s, u, h))
  {
    assert u < |s.threads| ==> ThreadOrdered(s, d, u, s.threads[u]);
  }

  lemma RegistrarOrdered(s: System, d: Thread, t: Thread, id: SessionId, bufferSize: int)
    requires Inv(s) && CanUseTable(s, t)
    ensures ThreadOrdered(DoRegister(s, t, id, bufferSize), d, t, DoRegister(s, t, id, bufferSize).threads[t])
  {
    var flush := Pending(s.table, id);
    if flush != [] {
      assert flush[0] in flush && forall k :: k in flush[1..] ==> k in flush;
    }
  }

  lemma RegisterBystander(s: System, d: Thread, t: Thread, id: SessionId, bufferSize: int, u: Thread)
    requires Inv(s) && Ordered(s, d) && CanUseTable(s, t) && u != t && u < |s.threads|
    ensures ThreadOrdered(DoRegister(s, t, id, bufferSize), d, u, s.threads[u])
  {
    var s', c := DoRegister(s, t, id, bufferSize), s.threads[u];
    assert ThreadOrdered(s, d, u, c);
    if Delivering(c) && Flushing(s', c.h) {
      var v: nat :| v < |s'.threads| && Flushes(s', v, c.h);
      RegisterFlushes(s, d, t, id, bufferSize, v, c.h);
    }
  }

  lemma IncreasingAppend(ns: seq<Note>, n: Note)
    requires Increasing(ns) && forall k :: k in ns ==> k < n
    ensures Increasing(ns + [n])
  {
    var more := ns + [n];
    forall i, j | 0 <= i < j < |more|
      ensures more[i] < more[j]
    {
      assert more[i] == ns[i] && ns[i] in ns;
    }
  }

  lemma KindsAppend(accepted: seq<Note>, flushed: seq<Note>, n: Note)
    requires KindsIncrease(accepted, flushed)
    requires forall k :: k in accepted && (k in flushed <==> n in flushed) ==> k < n
    ensures KindsIncrease(accepted + [n], flushed)
  {
    var more := accepted + [n];
    forall i, j | 0 <= i < j < |more| && (more[i] in flushed <==> more[j] in flushed)
      ensures more[i] < more[j]
    {
      assert more[i] == accepted[i] && accepted[i] in accepted;
    }
  }

  /** Accepting one more notification keeps a record ordered, given that it is ahead of what was accepted before. */
  lemma AcceptedOrdered(s: System, r: SessionRecord, n: Note)
    requires RecordOrdered(s, r)
    requires forall k :: k in Accepted(r) && (k in r.flushed <==> n in r.flushed) ==> k < n
    requires n !in r.flushed ==> forall f :: f in r.flushed ==> f < n
    requires !r.overtaken ==> forall k :: k in Accepted(r) ==> k < n
    ensures RecordOrdered(s, RecordAfterSend(r, n))
  {
    var r' := RecordAfterSend(r, n);
    if SendFate(r.state).Sent? {
      assert Accepted(r') == Accepted(r) + [n];
      KindsAppend(Accepted(r), r.flushed, n);
      if !r.overtaken {
        IncreasingAppend(Accepted(r), n);
      }
    } else {
      assert Accepted(r') == Accepted(r);
    }
  }

  lemma SendFlushes(s: System, d: Thread, t: Thread, u: Thread, h: Handle)
    requires Inv(s) && Ordered(s, d) && CanSend(s, t) && Flushes(DoSend(s, t), u, h)
    ensures Flushes(s, u, h)
  {
    assert ThreadOrdered(s, d, u, s.threads[u]);
  }

  /** The sender goes on with the rest of its flush. */
  lemma SenderOrdered(s: System, d: Thread, t: Thread)
    requires Inv(s) && Ordered(s, d) && CanSend(s, t)
    ensures ThreadOrdered(DoSend(s, t), d, t, DoSend(s, t).threads[t])
  {
    var s', c, r := DoSend(s, t), s.threads[t], s.sessions[s.threads[t].h];
    assert ThreadOrdered(s, d, t, c) && ControlSound(s, c);
    if c.rest != [] {
      assert c.rest[0] in c.rest && forall k :: k in c.rest[1..] ==> k in c.rest;
      assert forall k :: k in Accepted(s'.sessions[c.h]) ==> k == c.note || k in Accepted(r);
      assert FlushAhead(s'.sessions[c.h], c.rest[0], c.rest[1..]);
    }
  }

  /** Any other thread: at one session, one flushes and only the dispatcher delivers directly. */
  lemma BystanderOrdered(s: System, d: Thread, t: Thread, u: Thread)
    requires Inv(s) && Ordered(s, d) && CanSend(s, t) && u < |s.threads| && u != t
    ensures ThreadOrdered(DoSend(s, t), d, u, s.threads[u])
  {
    var s', c, cu := DoSend(s, t), s.threads[t], s.threads[u];
    assert ThreadOrdered(s, d, t, c) && ThreadOrdered(s, d, u, cu);
    if Delivering(cu) {
      var r, r' := s.sessions[cu.h], s'.sessions[cu.h];
      if cu.note in r.flushed {
        assert Flushes(s, u, cu.h);
        if cu.h == c.h {
          assert !Flushes(s, t, c.h);
          assert forall k :: k in Accepted(r') ==> k == c.note || k in Accepted(r);
        }
        assert FlushAhead(r', cu.note, cu.rest);
      } else {
        if cu.h == c.h {
          assert forall k :: k in Accepted(r') ==> k == c.note || k in Accepted(r);
        }
        if Flushing(s', cu.h) {
          var v: nat :| v < |s'.threads| && Flushes(s', v, cu.h);
          SendFlushes(s, d, t, v, cu.h);
        }
        assert DirectAhead(s', cu.h, cu.note, cu.rest);
      }
    }
  }

  lemma SendOrdered(s: System, d: Thread, t: Thread)
    requires Inv(s) && Ordered(s, d) && CanSend(s, t)
    ensures Ordered(DoSend(s, t), d)
  {
    var s', c, r := DoSend(s, t), s.threads[t], s.sessions[s.threads[t].h];
    assert ThreadOrdered(s, d, t, c) && RecordOrdered(s, r);
    AcceptedOrdered(s, r, c.note);
    forall h: nat | h < |s'.sessions| ensures RecordOrdered(s', s'.sessions[h]) {
      assert RecordOrdered(s, s.sessions[h]);
    }
    forall u: nat, h: nat | Flushes(s', u, h) ensures Flushes(s, u, h) {
      SendFlushes(s, d, t, u, h);
    }
    SenderOrdered(s, d, t);
    forall u: nat | u < |s'.threads| && u != t ensures ThreadOrdered(s', d, u, s'.threads[u]) {
      BystanderOrdered(s, d, t, u);
    }
  }

  // ----- every run of one dispatcher

  lemma StepOrdered(s: System, d: Thread, step: Step)
    requires Inv(s) && Ordered(s, d) && Enabled(s, step) && (step.Route? ==> step.t == d)
    ensures Ordered(Next(s, step), d)
  {
    match step
    case Route(t, id) =>
      if id in s.table.sessions {
        RouteDirectOrdered(s, d, id, s.table.sessions[id]);
      } else {
        RouteUnregisteredOrdered(s, d, id);
      }
    case Register(t, id, bufferSize) => RegisterOrdered(s, d, t, id, bufferSize);
    case Send(t) => SendOrdered(s, d, t);
    case Admit(t) => AdmitAdvances(s, t); AdvancingOrdered(s, DoAdmit(s, t), d);
    case Receive(h) => ReceiveAdvances(s, h); AdvancingOrdered(s, DoReceive(s, h), d);
    case CloseSession(t) => ClosingAdvances(s, t, 0); AdvancingOrdered(s, DoCloseSession(s, t), d);
    case SweepOne(t, h) => ClosingAdvances(s, t, h); AdvancingOrdered(s, DoSweepOne(s, t, h), d);
    case Deregister(t, h) => TableStepAdvances(s, t, h); AdvancingOrdered(s, DoDeregister(s, t, h), d);
    case EndSweep(t) => TableStepAdvances(s, t, 0); AdvancingOrdered(s, DoEndSweep(s, t), d);
    case _ => ControlStepAdvances(s, step); AdvancingOrdered(s, Next(s, step), d);
  }

  lemma {:induction false} RunOrdered(threadCount: nat, run: seq<Step>, d: Thread)
    requires ValidRun(threadCount, run) && RoutedBy(run, d)
    ensures Ordered(After(threadCount, run), d)
  {
    if run != [] {
      var before := run[..|run| - 1];
      RunKeeps(threadCount, before);
      RunOrdered(threadCount, before, d);
      StepOrdered(After(threadCount, before), d, run[|run| - 1]);
    }
  }

  /**
    With one dispatcher, what a session's channel accepts is an interleaving of
    two subsequences, each in arrival order: one of the flushed pending buffer,
    one of the directly routed notifications.  If nothing was routed to it
    while its flush was in progress, the whole is in arrival order.
  */
  lemma AcceptedInOrder(threadCount: nat, run: seq<Step>, d: Thread, h: Handle)
    requires ValidRun(threadCount, run) && RoutedBy(run, d) && h < |After(threadCount, run).sessions|
    ensures var r := After(threadCount, run).sessions[h];
            Increasing(r.flushed) && KindsOrdered(r) && (!r.overtaken ==> Increasing(Accepted(r)))
  {
    RunOrdered(threadCount, run, d);
    assert RecordOrdered(After(threadCount, run), After(threadCount, run).sessions[h]);
  }

  // ----- exactly when arrival order is kept

  /** The step sends one of the flushed notifications of `h` after a directly routed one. */
  predicate SendsLate(s: System, step: Step, h: Handle) {
    && step.Send? && CanSend(s, step.t) && s.threads[step.t].h == h
    && var c, r := s.threads[step.t], s.sessions[h];
       && SendFate(r.state).Sent? && c.note in r.flushed
       && exists k :: k in Accepted(r) && k !in r.flushed
  }

  lemma SendKeepsOrder(s: System, d: Thread, t: Thread)
    requires Inv(s) && Ordered(s, d) && CanSend(s, t)
    requires Increasing(Accepted(s.sessions[s.threads[t].h]))
    ensures var h := s.threads[t].h; Increasing(Accepted(DoSend(s, t).sessions[h])) <==> !SendsLate(s, Send(t), h)
  {
    var c, r := s.threads[t], s.sessions[s.threads[t].h];
    assert ThreadOrdered(s, d, t, c) && RecordOrdered(s, r);
    var accepted, r' := Accepted(r), RecordAfterSend(r, c.note);
    if !SendFate(r.state).Sent? {
      assert Accepted(r') == accepted;
    } else {
      assert Accepted(r') == accepted + [c.note];
      if SendsLate(s, Send(t), c.h) {
        var k :| k in accepted && k !in r.flushed;
        LateNotIncreasing(accepted, k, c.note);
      } else {
        IncreasingAppend(accepted, c.note);
      }
    }
  }

  lemma LateNotIncreasing(accepted: seq<Note>, k: Note, n: Note)
    requires k in accepted && n < k
    ensures !Increasing(accepted + [n])
  {
    var i :| 0 <= i < |accepted| && accepted[i] == k;
    assert (accepted + [n])[i] == k && (accepted + [n])[|accepted|] == n;
  }

  lemma RouteKeepsAccepted(s: System, t: Thread, id: SessionId, h: Handle)
    requires CanUseTable(s, t) && h < |s.sessions|
    ensures Accepted(DoRoute(s, t, id).sessions[h]) == Accepted(s.sessions[h])
  {
  }

  /** Only a send changes what a session accepted. */
  lemma AcceptedUnlessSent(s: System, step: Step, h: Handle)
    requires Enabled(s, step) && h < |s.sessions| && !(step.Send? && s.threads[step.t].h == h)
    ensures h < |Next(s, step).sessions| && Accepted(Next(s, step).sessions[h]) == Accepted(s.sessions[h])
  {
    match step
    case Route(t, id) => RouteKeepsAccepted(s, t, id, h);
    case Register(t, id, bufferSize) =>
    case Send(t) =>
    case Admit(t) => AdmitAdvances(s, t);
    case Receive(k) => ReceiveAdvances(s, k);
    case CloseSession(t) => ClosingAdvances(s, t, 0);
    case SweepOne(t, k) => ClosingAdvances(s, t, k);
    case Deregister(t, k) => TableStepAdvances(s, t, k);
    case EndSweep(t) => TableStepAdvances(s, t, 0);
    case _ => ControlStepAdvances(s, step);
  }

  /** The step sends `n` to `h`, which is open and whose channel has room. */
  predicate Gets(s: System, step: Step, h: Handle, n: Note)
    requires Enabled(s, step) && h < |s.sessions|
  {
    && step.Send? && s.threads[step.t].h == h && s.threads[step.t].note == n
    && !s.sessions[h].state.closed && |s.sessions[h].state.updates.buf| < s.sessions[h].state.updates.cap
  }

  lemma SentIsLast(s: System, t: Thread)
    requires Inv(s) && CanSend(s, t)
    ensures var c, r := s.threads[t], s.sessions[s.threads[t].h];
            Accepted(DoSend(s, t).sessions[c.h]) ==
            if Gets(s, Send(t), c.h, c.note) then Accepted(r) + [c.note] else Accepted(r)
  {
    var c, r := s.threads[t], s.sessions[s.threads[t].h];
    assert RecordSound(s, r);
    assert r.received + (r.state.updates.buf + [c.note]) == Accepted(r) + [c.note];
  }

  /**
    What a session accepts is what it is sent while open and with room, each behind what it accepted
    before; no other step changes it, and a consumer's receipt takes nothing away.
  */
  lemma AcceptsExactly(s: System, step: Step, h: Handle, n: Note)
    requires Inv(s) && Enabled(s, step) && h < |s.sessions|
    ensures h < |Next(s, step).sessions|
    ensures var before, after := Accepted(s.sessions[h]), Accepted(Next(s, step).sessions[h]);
            && (Gets(s, step, h, n) ==> after == before + [n])
            && ((forall k :: !Gets(s, step, h, k)) ==> after == before)
  {
    if step.Send? && s.threads[step.t].h == h {
      SentIsLast(s, step.t);
    } else {
      AcceptedUnlessSent(s, step, h);
    }
  }

  /** A step keeps what a session accepted in arrival order exactly when it sends no flushed notification late. */
  lemma StepKeepsArrivalOrder(s: System, d: Thread, step: Step, h: Handle)
    requires Inv(s) && Ordered(s, d) && Enabled(s, step) && h < |s.sessions|
    requires Increasing(Accepted(s.sessions[h]))
    ensures h < |Next(s, step).sessions|
    ensures Increasing(Accepted(Next(s, step).sessions[h])) <==> !SendsLate(s, step, h)
  {
    if step.Send? && s.threads[step.t].h == h {
      SendKeepsOrder(s, d, step.t);
    } else {
      AcceptedUnlessSent(s, step, h);
    }
  }

  /** What was accepted stays accepted, so disorder stays too. */
  lemma DisorderStays(s: System, step: Step, h: Handle)
    requires Enabled(s, step) && h < |s.sessions| && !Increasing(Accepted(s.sessions[h]))
    ensures h < |Next(s, step).sessions| && !Increasing(Accepted(Next(s, step).sessions[h]))
  {
    if step.Send? && s.threads[step.t].h == h {
      var c, r := s.threads[step.t], s.sessions[h];
      var was, now := Accepted(r), Accepted(RecordAfterSend(r, c.note));
      assert now == if SendFate(r.state).Sent? then was + [c.note] else was;
      var i, j :| 0 <= i < j < |was| && was[i] >= was[j];
      assert now[i] == was[i] && now[j] == was[j];
    } else {
      AcceptedUnlessSent(s, step, h);
    }
  }

  /** No step of the run sends a flushed notification of `h` late. */
  predicate NeverLate(threadCount: nat, run: seq<Step>, h: Handle)
    requires ValidRun(threadCount, run)
  {
    run == [] ||
    (NeverLate(threadCount, run[..|run| - 1], h) && !SendsLate(After(threadCount, run[..|run| - 1]), run[|run| - 1], h))
  }

  lemma FreshSession(s: System, step: Step, h: Handle)
    requires Enabled(s, step) && |s.sessions| <= h < |Next(s, step).sessions|
    ensures step.Register? && Accepted(Next(s, step).sessions[h]) == [] && !SendsLate(s, step, h)
  {
    match step
    case Route(_, _) =>
    case Send(_) =>
    case _ =>
  }

  lemma {:induction false} NotLateBeforeBirth(threadCount: nat, run: seq<Step>, h: Handle)
    requires ValidRun(threadCount, run) && |After(threadCount, run).sessions| <= h
    ensures NeverLate(threadCount, run, h)
  {
    if run != [] {
      SessionsStay(After(threadCount, run[..|run| - 1]), run[|run| - 1]);
      NotLateBeforeBirth(threadCount, run[..|run| - 1], h);
    }
  }

  /**
    Over any run of one dispatcher, a session's channel accepts in arrival order exactly when no flushed
    notification was sent late.
  */
  lemma {:induction false} ArrivalOrderExactly(threadCount: nat, run: seq<Step>, d: Thread, h: Handle)
    requires ValidRun(threadCount, run) && RoutedBy(run, d) && h < |After(threadCount, run).sessions|
    ensures Increasing(Accepted(After(threadCount, run).sessions[h])) <==> NeverLate(threadCount, run, h)
  {
    if run != [] {
      var before, step := run[..|run| - 1], run[|run| - 1];
      var s := After(threadCount, before);
      RunKeeps(threadCount, before);
      RunOrdered(threadCount, before, d);
      if h < |s.sessions| {
        ArrivalOrderExactly(threadCount, before, d, h);
        if Increasing(Accepted(s.sessions[h])) {
          StepKeepsArrivalOrder(s, d, step, h);
        } else {
          DisorderStays(s, step, h);
        }
      } else {
        FreshSession(s, step, h);
        NotLateBeforeBirth(threadCount, before, h);
      }
    }
  }

  // ----- what becomes of the flushed notifications

  /** A step drops a flushed notification exactly when it is its send into an open session whose channel is full. */
  lemma FlushedDroppedExactly(s: System, step: Step, h: Handle, n: Note)
    requires Enabled(s, step) && h < |s.sessions| && n in s.sessions[h].flushed && n !in s.sessions[h].overflow
    ensures h < |Next(s, step).sessions|
    ensures n in Next(s, step).sessions[h].overflow <==>
            && step.Send? && s.threads[step.t].h == h && s.threads[step.t].note == n
            && SendFate(s.sessions[h].state).Dropped?
  {
    FlushStays(s, step, h);
  }

  /**
    No step changes what a session flushes, its capacity, or that it was overtaken; only a drop changes
    its overflow.
  */
  lemma FlushStays(s: System, step: Step, h: Handle)
    requires Enabled(s, step) && h < |s.sessions|
    ensures h < |Next(s, step).sessions|
    ensures var r, r' := s.sessions[h], Next(s, step).sessions[h];
            && r'.flushed == r.flushed && r'.state.updates.cap == r.state.updates.cap && (r.overtaken ==> r'.overtaken)
            && r'.overflow == if step.Send? && s.threads[step.t].h == h && SendFate(r.state).Dropped?
                              then r.overflow + [s.threads[step.t].note] else r.overflow
  {
    match step
    case Route(t, id) => RouteKeepsFlush(s, t, id, h);
    case Send(t) => SendKeepsFlush(s, t, h);
    case Receive(k) => ReceiveKeepsFlush(s, k, h);
    case CloseSession(t) => CloseKeepsFlush(s, s.threads[t].h, h);
    case SweepOne(_, k) => CloseKeepsFlush(s, k, h);
    case _ => assert Next(s, step).sessions[h] == s.sessions[h];
  }

  lemma ReceiveKeepsFlush(s: System, k: Handle, h: Handle)
    requires CanReceive(s, k) && h < |s.sessions|
    ensures var r, r' := s.sessions[h], DoReceive(s, k).sessions[h];
            && r'.flushed == r.flushed && r'.state.updates.cap == r.state.updates.cap
            && r'.overtaken == r.overtaken && r'.overflow == r.overflow
  {
  }

  lemma CloseKeepsFlush(s: System, k: Handle, h: Handle)
    requires k < |s.sessions| && h < |s.sessions|
    ensures var r, r' := s.sessions[h], Closed(s, k).sessions[h];
            && r'.flushed == r.flushed && r'.state.updates.cap == r.state.updates.cap
            && r'.overtaken == r.overtaken && r'.overflow == r.overflow
  {
  }

  lemma SendKeepsFlush(s: System, t: Thread, h: Handle)
    requires CanSend(s, t) && h < |s.sessions|
    ensures var r, r' := s.sessions[h], DoSend(s, t).sessions[h];
            && r'.flushed == r.flushed && r'.state.updates.cap == r.state.updates.cap && r'.overtaken == r.overtaken
            && r'.overflow == if s.threads[t].h == h && SendFate(r.state).Dropped?
                              then r.overflow + [s.threads[t].note] else r.overflow
  {
  }

  lemma RouteKeepsFlush(s: System, t: Thread, id: SessionId, h: Handle)
    requires CanUseTable(s, t) && h < |s.sessions|
    ensures var r, r' := s.sessions[h], DoRoute(s, t, id).sessions[h];
            r' == r.(overtaken := r'.overtaken) && (r.overtaken ==> r'.overtaken)
  {
  }

  /**
    No more is flushed than a pending buffer holds, and none of it is dropped by a channel that has
    room for it while nothing overtakes.
  */
  predicate FlushKept(r: SessionRecord) {
    && |r.flushed| <= PENDING_UPDATES_CAP
    && (r.state.updates.cap >= |r.flushed| && !r.overtaken ==> forall n :: n in r.flushed ==> n !in r.overflow)
  }

  lemma {:induction false} IncreasingFits(a: seq<Note>, b: seq<Note>)
    requires Increasing(a) && Increasing(b) && forall k :: k in a ==> k in b
    ensures |a| <= |b|
    decreases |a|
  {
    if a != [] {
      var front, last := a[..|a| - 1], a[|a| - 1];
      assert last in b;
      var j :| 0 <= j < |b| && b[j] == last;
      forall k | k in front ensures k in b[..j] {
        var i :| 0 <= i < |front| && front[i] == k;
        assert a[i] == k && k in a && k < last;
        var m :| 0 <= m < |b| && b[m] == k;
        assert m < j && b[..j][m] == k;
      }
      IncreasingFits(front, b[..j]);
    }
  }

  /** While nothing overtakes the flush, what the session accepted fits what is flushed with one place to spare. */
  lemma RoomForFlushed(s: System, d: Thread, t: Thread)
    requires Inv(s) && Ordered(s, d) && CanSend(s, t)
    requires var c, r := s.threads[t], s.sessions[s.threads[t].h];
             c.note in r.flushed && !r.overtaken && FlushKept(r) && r.state.updates.cap >= |r.flushed|
    ensures !SendFate(s.sessions[s.threads[t].h].state).Dropped?
  {
    var c, r := s.threads[t], s.sessions[s.threads[t].h];
    assert ThreadOrdered(s, d, t, c) && RecordOrdered(s, r);
    IncreasingAppend(Accepted(r), c.note);
    IncreasingFits(Accepted(r) + [c.note], r.flushed);
  }

  lemma PendingFits(s: System, id: SessionId)
    requires Inv(s)
    ensures |Pending(s.table, id)| <= PENDING_UPDATES_CAP
  {
    TableFollowsHistory(s.log, id);
  }

  lemma NewFlush(s: System, step: Step, h: Handle)
    requires Inv(s) && Enabled(s, step) && |s.sessions| <= h < |Next(s, step).sessions|
    ensures FlushKept(Next(s, step).sessions[h])
  {
    PendingFits(s, step.id);
  }

  lemma StepKeepsFlush(s: System, d: Thread, step: Step, h: Handle)
    requires Inv(s) && Ordered(s, d) && Enabled(s, step) && h < |s.sessions| && FlushKept(s.sessions[h])
    ensures h < |Next(s, step).sessions| && FlushKept(Next(s, step).sessions[h])
  {
    FlushStays(s, step, h);
    if step.Send? && s.threads[step.t].h == h {
      var c, r := s.threads[step.t], s.sessions[h];
      if c.note in r.flushed && !r.overtaken && r.state.updates.cap >= |r.flushed| {
        RoomForFlushed(s, d, step.t);
      }
    }
  }

  lemma {:induction false} RunKeepsFlush(threadCount: nat, run: seq<Step>, d: Thread, h: Handle)
    requires ValidRun(threadCount, run) && RoutedBy(run, d) && h < |After(threadCount, run).sessions|
    ensures FlushKept(After(threadCount, run).sessions[h])
  {
    if run != [] {
      var before, step := run[..|run| - 1], run[|run| - 1];
      var s := After(threadCount, before);
      RunKeeps(threadCount, before);
      RunOrdered(threadCount, before, d);
      if h < |s.sessions| {
        RunKeepsFlush(threadCount, before, d, h);
        StepKeepsFlush(s, d, step, h);
      } else {
        NewFlush(s, step, h);
      }
    }
  }

  /**
    With one dispatcher and a channel that has room for what is flushed, as the default has for any
    flush, no flushed notification is dropped, unless something was routed to the session during it.
  */
  lemma FlushLosesNothing(threadCount: nat, run: seq<Step>, d: Thread, h: Handle, n: Note)
    requires ValidRun(threadCount, run) && RoutedBy(run, d) && h < |After(threadCount, run).sessions|
    ensures var r := After(threadCount, run).sessions[h];
            && |r.flushed| <= 64
            && (r.state.updates.cap >= |r.flushed| && !r.overtaken && n in r.flushed ==> n !in r.overflow)
  {
    RunKeepsFlush(threadCount, run, d, h);
  }

  // ----- what a session is made with

  /** Session `h` is for `id`, with room for `cap` notifications, and flushes `flushed`. */
  predicate Made(s: System, h: Handle, id: SessionId, cap: nat, flushed: seq<Note>) {
    h < |s.sessions| && s.sessions[h].id == id && s.sessions[h].state.updates.cap == cap &&
        s.sessions[h].flushed == flushed
  }

  function Capacity(bufferSize: int): nat {
    if bufferSize <= 0 then 128 else bufferSize
  }

  lemma Born(s: System, t: Thread, id: SessionId, bufferSize: int)
    requires CanUseTable(s, t)
    ensures Made(DoRegister(s, t, id, bufferSize), |s.sessions|, id, Capacity(bufferSize), Pending(s.table, id))
  {
  }

  lemma StaysMade(s: System, step: Step, h: Handle, id: SessionId, cap: nat, flushed: seq<Note>)
    requires Enabled(s, step) && Made(s, h, id, cap, flushed)
    ensures Made(Next(s, step), h, id, cap, flushed)
  {
    FlushStays(s, step, h);
    IdStays(s, step, h);
  }

  lemma IdStays(s: System, step: Step, h: Handle)
    requires Enabled(s, step) && h < |s.sessions|
    ensures h < |Next(s, step).sessions| && Next(s, step).sessions[h].id == s.sessions[h].id
  {
    SessionsStay(s, step);
    match step
    case Route(t, id) => RouteKeepsFlush(s, t, id, h);
    case _ =>
  }

  /**
    In every run a session keeps the id and the channel capacity it was registered with, 128 unless a
    positive one is asked for, and what it flushes is what was pending for it then.
  */
  lemma {:induction false} MadeAsRegistered(threadCount: nat, run: seq<Step>, states: seq<System>, i: nat, k: nat)
    requires IsTrace(threadCount, run, states) && i < k <= |run| && run[i].Register?
    ensures Made(states[k], |states[i].sessions|, run[i].id, Capacity(run[i].bufferSize),
                 Pending(states[i].table, run[i].id))
  {
    AtStep(threadCount, run, states, k - 1);
    if i + 1 == k {
      Born(states[i], run[i].t, run[i].id, run[i].bufferSize);
    } else {
      MadeAsRegistered(threadCount, run, states, i, k - 1);
      StaysMade(states[k - 1], run[k - 1], |states[i].sessions|, run[i].id, Capacity(run[i].bufferSize),
                Pending(states[i].table, run[i].id));
    }
  }

  // ----- when a session counts as overtaken

  /** The step routes a notification to `h` while what `h` flushes is still being delivered. */
  predicate RoutesInto(s: System, step: Step, h: Handle) {
    && step.Route? && step.id in s.table.sessions && s.table.sessions[step.id] == h
    && Flushing(s, h)
  }

  lemma RouteMarks(s: System, t: Thread, id: SessionId, h: Handle)
    requires CanUseTable(s, t) && h < |s.sessions|
    ensures var r, r' := s.sessions[h], DoRoute(s, t, id).sessions[h];
            r'.overtaken <==> r.overtaken || RoutesInto(s, Route(t, id), h)
  {
  }

  lemma OvertakenStep(s: System, step: Step, h: Handle)
    requires Enabled(s, step) && h < |s.sessions|
    ensures h < |Next(s, step).sessions|
    ensures Next(s, step).sessions[h].overtaken <==> s.sessions[h].overtaken || RoutesInto(s, step, h)
  {
    match step
    case Route(t, id) => RouteMarks(s, t, id, h);
    case Send(t) => SendKeepsFlush(s, t, h);
    case _ =>
  }

  lemma BornFresh(s: System, step: Step, h: Handle)
    requires Enabled(s, step) && |s.sessions| <= h < |Next(s, step).sessions|
    ensures !Next(s, step).sessions[h].overtaken && !RoutesInto(s, step, h)
  {
    FreshSession(s, step, h);
  }

  predicate RoutedInto(run: seq<Step>, states: seq<System>, k: nat, h: Handle)
    requires k <= |run| < |states|
  {
    exists i :: 0 <= i < k && RoutesInto(states[i], run[i], h)
  }

  lemma RoutedIntoNext(run: seq<Step>, states: seq<System>, k: nat, h: Handle)
    requires k < |run| < |states|
    ensures RoutedInto(run, states, k + 1, h) <==> RoutedInto(run, states, k, h) || RoutesInto(states[k], run[k], h)
  {
  }

  lemma UnbornUnrouted(s: System, step: Step, h: Handle)
    requires Enabled(s, step) && |Next(s, step).sessions| <= h
    ensures |s.sessions| <= h && !RoutesInto(s, step, h)
  {
    SessionsStay(s, step);
  }

  /** In every run, a session counts as overtaken exactly once some step has routed to it during its flush. */
  lemma {:induction false} OvertakenExactly(threadCount: nat, run: seq<Step>, states: seq<System>, k: nat, h: Handle)
    requires IsTrace(threadCount, run, states) && k <= |run|
    ensures if h < |states[k].sessions| then states[k].sessions[h].overtaken <==> RoutedInto(run, states, k, h)
            else !RoutedInto(run, states, k, h)
  {
    if k > 0 {
      var s, step := states[k - 1], run[k - 1];
      OvertakenExactly(threadCount, run, states, k - 1, h);
      AtStep(threadCount, run, states, k - 1);
      RoutedIntoNext(run, states, k - 1, h);
      if h < |s.sessions| {
        OvertakenStep(s, step, h);
      } else if h < |states[k].sessions| {
        BornFresh(s, step, h);
      } else {
        UnbornUnrouted(s, step, h);
      }
    }
  }

  // ----- the comment on registration

  /** An uninterrupted delivery into an open session with room. */
  lemma OpenDelivery(s: System, t: Thread)
    requires CanAdmit(s, t)
    requires SendFate(s.sessions[s.threads[t].h].state).Sent?
    ensures var c, s' := s.threads[t], DoAdmit(s, t);
            && CanSend(s', t)
            && DoSend(s', t).threads == s.threads[t := Continue(c.h, c.rest)]
            && DoSend(s', t).sessions == s.sessions[c.h := RecordAfterSend(s.sessions[c.h], c.note)]
            && Accepted(DoSend(s', t).sessions[c.h]) == Accepted(s.sessions[c.h]) + [c.note]
            && DoSend(s', t).sessions[c.h].state.updates.buf == s.sessions[c.h].state.updates.buf + [c.note]
  {
    var c, r := s.threads[t], s.sessions[s.threads[t].h];
    assert Accepted(RecordAfterSend(r, c.note)) == Accepted(r) + [c.note];
  }

  lemma RouteOvertakes(s: System, f: Thread, d: Thread, h: Handle)
    requires CanUseTable(s, d) && Flushes(s, f, h)
    requires s.sessions[h].id in s.table.sessions && s.table.sessions[s.sessions[h].id] == h
    ensures var s1 := DoRoute(s, d, s.sessions[h].id);
            && s1.threads == s.threads[d := Entering(h, |s.arrivals|, [])]
            && s1.sessions == s.sessions[h := s.sessions[h].(overtaken := true)]
  {
  }

  /**
    The comment on `registerSession` says flushing before it returns preserves
    ordering; the lock does not.  From every state in which an open, registered
    session with room for two is still being flushed by `f`, an idle dispatcher
    can deliver a newer notification first.
  */
  lemma FlushCanBeOvertaken(s: System, f: Thread, d: Thread)
      returns (s1: System, s2: System, s3: System, s4: System, s5: System)
    requires Inv(s) && f != d && CanUseTable(s, d) && CanAdmit(s, f) && Flushes(s, f, s.threads[f].h)
    requires s.sessions[s.threads[f].h].id in s.table.sessions
    requires s.table.sessions[s.sessions[s.threads[f].h].id] == s.threads[f].h
    requires !s.sessions[s.threads[f].h].state.closed
    requires |s.sessions[s.threads[f].h].state.updates.buf| + 2 <= s.sessions[s.threads[f].h].state.updates.cap
    ensures s1 == DoRoute(s, d, s.sessions[s.threads[f].h].id)
    ensures CanAdmit(s1, d) && s2 == DoAdmit(s1, d)
    ensures CanSend(s2, d) && s3 == DoSend(s2, d)
    ensures CanAdmit(s3, f) && s4 == DoAdmit(s3, f)
    ensures CanSend(s4, f) && s5 == DoSend(s4, f)
    ensures s.threads[f].h < |s5.sessions|
    ensures var r := s5.sessions[s.threads[f].h]; r.overtaken && !Increasing(Accepted(r))
  {
    var c := s.threads[f];
    var r, n := s.sessions[c.h], |s.arrivals|;
    assert ControlSound(s, c) && RecordSound(s, r);
    s1 := DoRoute(s, d, r.id);
    RouteOvertakes(s, f, d, c.h);
    assert Accepted(s1.sessions[c.h]) == Accepted(r);
    OpenDelivery(s1, d);
    s2 := DoAdmit(s1, d);
    s3 := DoSend(s2, d);
    assert s3.threads[f] == c;
    OpenDelivery(s3, f);
    s4 := DoAdmit(s3, f);
    s5 := DoSend(s4, f);
    NewerFirst(Accepted(r), n, c.note);
  }

  lemma NewerFirst(accepted: seq<Note>, newer: Note, older: Note)
    requires older < newer
    ensures !Increasing(accepted + [newer] + [older])
  {
    var all := accepted + [newer] + [older];
    assert all[|accepted|] == newer && all[|accepted| + 1] == older;
  }

  // ----- two runs from the start

  /** One notification arrived for an id that thread 1 then registered; its flush is under way. */
  predicate EarlyArrival(s: System, id: SessionId) {
    && s.threads == [Idle, Entering(0, 0, [])] && id in s.table.sessions && s.table.sessions[id] == 0
    && s.sessions == [SessionRecord(id, Opened(0), [], [], [0], false)]
  }

  /** `count` notifications arrived for an id, and nothing else happened. */
  predicate JustArrived(s: System, id: SessionId, buffer: seq<Note>) {
    s.threads == [Idle, Idle] && s.sessions == [] && s.table == Table(map[], map[id := buffer])
  }

  lemma OneArrived(id: SessionId) returns (s: System)
    ensures Reachable(2, 0, s) && JustArrived(s, id, [0]) && |s.arrivals| == 1
  {
    ReachStart(2, 0);
    assert Initial(2).threads == [Idle, Idle];
    ReachStep(2, 0, Initial(2), Route(0, id));
    s := DoRoute(Initial(2), 0, id);
    assert [] + [0] == [0];
  }

  lemma TwoArrived(id: SessionId) returns (s: System)
    ensures Reachable(2, 0, s) && JustArrived(s, id, [0, 1])
  {
    var s1 := OneArrived(id);
    ReachStep(2, 0, s1, Route(0, id));
    s := DoRoute(s1, 0, id);
    assert [0] + [1] == [0, 1];
  }

  lemma FlushStarted(s: System, id: SessionId, buffer: seq<Note>, bufferSize: int)
    requires JustArrived(s, id, buffer) && buffer != []
    ensures CanUseTable(s, 1)
    ensures var s' := DoRegister(s, 1, id, bufferSize);
            && s'.threads == [Idle, Entering(0, buffer[0], buffer[1..])]
            && id in s'.table.sessions && s'.table.sessions[id] == 0
            && s'.sessions == [SessionRecord(id, Opened(bufferSize), [], [], buffer, false)]
  {
  }

  lemma EarlyArrivalReached(id: SessionId) returns (s: System)
    ensures Reachable(2, 0, s) && EarlyArrival(s, id)
  {
    var s1 := OneArrived(id);
    FlushStarted(s1, id, [0], 0);
    ReachStep(2, 0, s1, Register(1, id, 0));
    s := DoRegister(s1, 1, id, 0);
    assert [0][1..] == [];
  }

  /** A direct notification can overtake that flush. */
  lemma OvertakenFromStart(id: SessionId) returns (run: seq<Step>)
    ensures ValidRun(2, run) && RoutedBy(run, 0) && |After(2, run).sessions| > 0
    ensures !Increasing(Accepted(After(2, run).sessions[0]))
  {
    var s := EarlyArrivalReached(id);
    var s5 := Overtaken(s, id);
    run :| ValidRun(2, run) && RoutedBy(run, 0) && After(2, run) == s5;
  }

  lemma Overtaken(s: System, id: SessionId) returns (s5: System)
    requires Reachable(2, 0, s) && EarlyArrival(s, id)
    ensures Reachable(2, 0, s5) && |s5.sessions| > 0 && !Increasing(Accepted(s5.sessions[0]))
  {
    ReachableKeeps(2, 0, s);
    assert Flushes(s, 1, 0);
    var s1, s2, s3, s4;
    s1, s2, s3, s4, s5 := FlushCanBeOvertaken(s, 1, 0);
    ReachStep(2, 0, s, Route(0, id));
    ReachStep(2, 0, s1, Admit(0));
    ReachStep(2, 0, s2, Send(0));
    ReachStep(2, 0, s3, Admit(1));
    ReachStep(2, 0, s4, Send(1));
  }

  lemma ReachableKeeps(threadCount: nat, d: Thread, s: System)
    requires Reachable(threadCount, d, s)
    ensures Inv(s)
  {
    var run :| ValidRun(threadCount, run) && RoutedBy(run, d) && After(threadCount, run) == s;
    RunKeeps(threadCount, run);
  }

  /** Two notifications arrived before the registration, and there is room for one. */
  lemma SecondDropped(s: System, id: SessionId)
    requires s.threads == [Idle, Entering(0, 0, [1])]
    requires s.sessions == [SessionRecord(id, Opened(1), [], [], [0, 1], false)]
    ensures CanAdmit(s, 1) && CanSend(DoAdmit(s, 1), 1)
    ensures var s' := DoSend(DoAdmit(s, 1), 1);
            && CanAdmit(s', 1) && CanSend(DoAdmit(s', 1), 1)
            && |DoSend(DoAdmit(s', 1), 1).sessions| == 1
            && var r := DoSend(DoAdmit(s', 1), 1).sessions[0];
               r.flushed == [0, 1] && r.overflow == [1] && !r.overtaken
  {
    var s' := DoSend(DoAdmit(s, 1), 1);
    assert s'.threads[1] == Entering(0, 1, []);
    assert s'.sessions[0].state.updates.buf == [0];
  }

  /** An early notification is lost without anything overtaking, when the channel has less room than the flush needs. */
  lemma LostFromStart(id: SessionId) returns (run: seq<Step>)
    ensures ValidRun(2, run) && RoutedBy(run, 0) && |After(2, run).sessions| == 1
    ensures var r := After(2, run).sessions[0]; r.flushed == [0, 1] && r.overflow == [1] && !r.overtaken
  {
    var s0 := TwoArrived(id);
    FlushStarted(s0, id, [0, 1], 1);
    assert [0, 1][1..] == [1];
    ReachStep(2, 0, s0, Register(1, id, 1));
    var s4 := FlushedInto(DoRegister(s0, 1, id, 1), id);
    run :| ValidRun(2, run) && RoutedBy(run, 0) && After(2, run) == s4;
  }

  lemma FlushedInto(s: System, id: SessionId) returns (s4: System)
    requires Reachable(2, 0, s) && s.threads == [Idle, Entering(0, 0, [1])]
    requires s.sessions == [SessionRecord(id, Opened(1), [], [], [0, 1], false)]
    ensures Reachable(2, 0, s4) && |s4.sessions| == 1
    ensures var r := s4.sessions[0]; r.flushed == [0, 1] && r.overflow == [1] && !r.overtaken
  {
    SecondDropped(s, id);
    ReachStep(2, 0, s, Admit(1));
    var s1 := DoAdmit(s, 1);
    ReachStep(2, 0, s1, Send(1));
    var s2 := DoSend(s1, 1);
    ReachStep(2, 0, s2, Admit(1));
    var s3 := DoAdmit(s2, 1);
    ReachStep(2, 0, s3, Send(1));
    s4 := DoSend(s3, 1);
  }
}
