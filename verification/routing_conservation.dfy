/**
  What every step of the routing protocol keeps: each notification that arrived
  is in exactly one place, once; nothing is sent on or closed twice on a shut
  channel; the drop counters count exactly the notifications dropped.
*/
module RoutingConservation {
  import opened Wrappers
  import opened RoutingTable
  import opened SessionDelivery
  import opened RoutingProtocol

  /** Where the notification is, read off the state itself. */
  ghost predicate IsAt(s: System, n: Note, p: Place) {
    match p
    case InPending(id) => id in s.table.pending && n in s.table.pending[id]
    case HeldBy(t) => t < |s.threads| && Holds(s.threads[t], n)
    case InChannel(h) => h < |s.sessions| && n in s.sessions[h].state.updates.buf
    case Received(h) => h < |s.sessions| && n in s.sessions[h].received
    case DroppedBy(h) => h < |s.sessions| && n in s.sessions[h].overflow
    case RefusedByPending => n in s.refused
    case DiscardedByClose => n in s.discarded
  }

  ghost predicate Accounted(s: System) {
    && |s.place| == |s.arrivals|
    && forall n: Note, p: Place :: IsAt(s, n, p) <==> n < |s.arrivals| && s.place[n] == p
  }

  predicate Increasing(ns: seq<Note>) {
    forall i, j :: 0 <= i < j < |ns| ==> ns[i] < ns[j]
  }

  predicate Distinct(ns: seq<Note>) {
    forall i, j :: 0 <= i < j < |ns| ==> ns[i] != ns[j]
  }

  /** Everything `h` accepted, in the order its channel accepted it. */
  function Accepted(r: SessionRecord): seq<Note> {
    r.received + r.state.updates.buf
  }

  /** `n` arrived, and for the id of session `h`. */
  predicate MeantFor(s: System, h: Handle, n: Note) {
    h < |s.sessions| && n < |s.arrivals| && s.arrivals[n] == s.sessions[h].id
  }

  predicate FlushSound(s: System, h: Handle, n: Note, rest: seq<Note>) {
    Increasing(rest) && forall k :: k in rest ==> n < k && MeantFor(s, h, k)
  }

  /** What a delivering thread holds is in arrival order and meant for the session it delivers to. */
  predicate ControlSound(s: System, c: Control) {
    match c
    case Entering(h, n, rest) => MeantFor(s, h, n) && FlushSound(s, h, n, rest)
    case Dispatching(h, n, rest) => MeantFor(s, h, n) && FlushSound(s, h, n, rest)
    case TearingDown(h) => h < |s.sessions|
    case Sweeping(_, todo) => forall h :: h in todo ==> h < |s.sessions|
    case _ => true
  }

  predicate RecordSound(s: System, r: SessionRecord) {
    && Sound(r.state)
    && Distinct(Accepted(r))
    && (forall n :: n in Accepted(r) ==> n < |s.arrivals| && s.arrivals[n] == r.id)
    && Distinct(r.overflow)
    && r.state.dropped == |r.overflow|
  }

  predicate BufferSound(s: System, id: SessionId, buffer: seq<Note>) {
    Increasing(buffer) && forall n :: n in buffer ==> n < |s.arrivals| && s.arrivals[n] == id
  }

  predicate TableSound(s: System) {
    && (forall id :: id in s.table.sessions ==>
        s.table.sessions[id] < |s.sessions| && s.sessions[s.table.sessions[id]].id == id)
    && (forall id :: id in s.table.pending ==> BufferSound(s, id, s.table.pending[id]))
  }

  ghost predicate Structured(s: System) {
    && !s.panicked
    && TableSound(s)
    && (forall t: nat :: t < |s.threads| ==> ControlSound(s, s.threads[t]))
    && (forall h: nat :: h < |s.sessions| ==> RecordSound(s, s.sessions[h]))
    && (forall t: nat, u: nat :: t < |s.threads| && u < |s.threads| ==>
          s.threads[t].Sweeping? && s.threads[u].Sweeping? ==> t == u)
  }

  ghost predicate Inv(s: System) {
    s.table == Replay(s.log) && Structured(s) && Accounted(s)
  }

  // ----- structure

  /** `s'` differs from `s` in the control of `t` and the record of `h` only; history may have grown. */
  ghost predicate Touches(s: System, s': System, t: Thread, h: Handle) {
    && h <= |s.sessions| <= |s'.sessions| <= Max(|s.sessions|, h + 1)
    && |s.arrivals| <= |s'.arrivals|
    && (forall n: nat :: n < |s.arrivals| ==> s'.arrivals[n] == s.arrivals[n])
    && |s.threads| == |s'.threads|
    && (forall k: nat :: k < |s.sessions| ==> s'.sessions[k].id == s.sessions[k].id)
    && (forall k: nat :: k < |s.sessions| && k != h ==> s'.sessions[k] == s.sessions[k])
    && (forall u: nat :: u < |s.threads| && u != t ==> s'.threads[u] == s.threads[u])
  }

  lemma RecordStable(s: System, s': System, t: Thread, h: Handle, r: SessionRecord)
    requires Touches(s, s', t, h) && RecordSound(s, r)
    ensures RecordSound(s', r)
  {
  }

  lemma ControlStable(s: System, s': System, t: Thread, h: Handle, c: Control)
    requires Touches(s, s', t, h) && ControlSound(s, c)
    ensures ControlSound(s', c)
  {
  }

  lemma TouchedStructured(s: System, s': System, t: Thread, h: Handle)
    requires Structured(s) && Touches(s, s', t, h)
    requires !s'.panicked && TableSound(s')
    requires t < |s'.threads| ==> ControlSound(s', s'.threads[t])
    requires t < |s'.threads| && s'.threads[t].Sweeping? ==> s.threads[t].Sweeping? || !TableLocked(s)
    requires h < |s'.sessions| ==> RecordSound(s', s'.sessions[h])
    ensures Structured(s')
  {
    forall u: nat | u < |s'.threads| && u != t ensures ControlSound(s', s'.threads[u]) {
      ControlStable(s, s', t, h, s.threads[u]);
    }
    forall k: nat | k < |s'.sessions| && k != h ensures RecordSound(s', s'.sessions[k]) {
      RecordStable(s, s', t, h, s.sessions[k]);
    }
  }

  lemma ContinueSound(s: System, h: Handle, n: Note, rest: seq<Note>)
    requires FlushSound(s, h, n, rest)
    ensures ControlSound(s, Continue(h, rest))
  {
    if rest != [] {
      assert forall k :: k in rest[1..] ==> k in rest;
      assert rest[0] in rest;
    }
  }

  lemma RecordSentSound(s: System, r: SessionRecord, n: Note)
    requires RecordSound(s, r) && n !in Accepted(r) && n !in r.overflow
    requires n < |s.arrivals| && s.arrivals[n] == r.id
    ensures RecordSound(s, RecordAfterSend(r, n))
    ensures Accepted(RecordAfterSend(r, n)) == if SendFate(r.state).Sent? then Accepted(r) + [n] else Accepted(r)
  {
    if SendFate(r.state).Sent? {
      assert Accepted(RecordAfterSend(r, n)) == Accepted(r) + [n];
    }
  }

  lemma BufferAppended(s: System, s': System, id: SessionId, buffer: seq<Note>)
    requires BufferSound(s, id, buffer) && s'.arrivals == s.arrivals + [id]
    ensures BufferSound(s', id, buffer + [|s.arrivals|])
  {
    forall i | 0 <= i < |buffer| ensures buffer[i] < |s.arrivals| {
      assert buffer[i] in buffer;
    }
  }

  lemma RouteUnregisteredStructured(s: System, id: SessionId)
    requires Structured(s)
    ensures Structured(RouteUnregistered(s, id))
  {
    var s' := RouteUnregistered(s, id);
    forall i | i in s'.table.pending ensures BufferSound(s', i, s'.table.pending[i]) {
      if i in s.table.pending && s'.table.pending[i] == s.table.pending[i] {
        assert BufferSound(s, i, s.table.pending[i]);
      } else {
        BufferAppended(s, s', id, Pending(s.table, id));
      }
    }
    TouchedStructured(s, s', |s.threads|, |s.sessions|);
  }

  lemma RouteDirectStructured(s: System, t: Thread, id: SessionId, h: Handle)
    requires Structured(s) && t < |s.threads| && h < |s.sessions| && s.sessions[h].id == id
    ensures Structured(RouteDirect(s, t, id, h))
  {
    var s' := RouteDirect(s, t, id, h);
    assert RecordSound(s, s.sessions[h]);
    assert Accepted(s'.sessions[h]) == Accepted(s.sessions[h]);
    assert Touches(s, s', t, h);
    RecordStable(s, s', t, h, s.sessions[h]);
    TouchedStructured(s, s', t, h);
  }

  lemma RouteStructured(s: System, t: Thread, id: SessionId)
    requires Structured(s) && CanUseTable(s, t)
    ensures Structured(DoRoute(s, t, id))
  {
    if id in s.table.sessions {
      RouteDirectStructured(s, t, id, s.table.sessions[id]);
    } else {
      RouteUnregisteredStructured(s, id);
    }
  }

  lemma RegisterStructured(s: System, t: Thread, id: SessionId, bufferSize: int)
    requires Structured(s) && CanUseTable(s, t)
    ensures Structured(DoRegister(s, t, id, bufferSize))
  {
    var s', h, flush := DoRegister(s, t, id, bufferSize), |s.sessions|, Pending(s.table, id);
    RegisteredTableSound(s, t, id, bufferSize);
    RegisteredControlSound(s, t, id, bufferSize);
    assert Touches(s, s', t, h);
    assert s'.threads[t] == Continue(h, flush) && !s'.threads[t].Sweeping?;
    TouchedStructured(s, s', t, h);
  }

  lemma RegisteredTableSound(s: System, t: Thread, id: SessionId, bufferSize: int)
    requires TableSound(s) && CanUseTable(s, t)
    ensures TableSound(DoRegister(s, t, id, bufferSize))
  {
    var s' := DoRegister(s, t, id, bufferSize);
    forall i | i in s'.table.pending ensures BufferSound(s', i, s'.table.pending[i]) {
      assert BufferSound(s, i, s.table.pending[i]);
    }
  }

  /** The registrar goes on to flush what was pending, which is all meant for the new session. */
  lemma RegisteredControlSound(s: System, t: Thread, id: SessionId, bufferSize: int)
    requires TableSound(s) && CanUseTable(s, t)
    ensures var s', h, flush := DoRegister(s, t, id, bufferSize), |s.sessions|, Pending(s.table, id);
            ControlSound(s', Continue(h, flush))
  {
    var flush := Pending(s.table, id);
    if flush != [] {
      assert BufferSound(s, id, flush);
      RegisteredMeantFor(s, t, id, bufferSize, flush);
      TailIncreasing(flush);
    }
  }

  lemma RegisteredMeantFor(s: System, t: Thread, id: SessionId, bufferSize: int, flush: seq<Note>)
    requires CanUseTable(s, t) && BufferSound(s, id, flush)
    ensures forall k :: k in flush ==> MeantFor(DoRegister(s, t, id, bufferSize), |s.sessions|, k)
  {
  }

  lemma TailIncreasing(flush: seq<Note>)
    requires flush != [] && Increasing(flush)
    ensures Increasing(flush[1..]) && forall k :: k in flush[1..] ==> flush[0] < k && k in flush
  {
    forall k | k in flush[1..] ensures flush[0] < k && k in flush {
      var i :| 0 <= i < |flush[1..]| && flush[1..][i] == k;
      assert flush[i + 1] == k;
    }
    forall i, j | 0 <= i < j < |flush[1..]| ensures flush[1..][i] < flush[1..][j] {
      assert flush[i + 1] < flush[j + 1];
    }
  }

  lemma AdmitStructured(s: System, t: Thread)
    requires Structured(s) && CanAdmit(s, t)
    ensures Structured(DoAdmit(s, t))
  {
    var c, s' := s.threads[t], DoAdmit(s, t);
    assert ControlSound(s, c);
    ContinueSound(s, c.h, c.note, c.rest);
    assert s'.sessions == s.sessions && s'.table == s.table && s'.arrivals == s.arrivals;
    assert Touches(s, s', t, |s.sessions|);
    ControlStable(s, s', t, |s.sessions|, s'.threads[t]);
    TouchedStructured(s, s', t, |s.sessions|);
  }

  /** What a thread is about to send was neither accepted nor dropped before. */
  lemma HeldNotSent(s: System, t: Thread)
    requires Inv(s) && CanSend(s, t)
    ensures var c := s.threads[t]; c.note !in Accepted(s.sessions[c.h]) && c.note !in s.sessions[c.h].overflow
  {
    var c := s.threads[t];
    assert IsAt(s, c.note, HeldBy(t));
    assert !IsAt(s, c.note, InChannel(c.h)) && !IsAt(s, c.note, Received(c.h)) && !IsAt(s, c.note, DroppedBy(c.h));
  }

  lemma SentTouches(s: System, t: Thread)
    requires CanSend(s, t)
    ensures Touches(s, DoSend(s, t), t, s.threads[t].h)
  {
  }

  lemma SendStructured(s: System, t: Thread)
    requires Structured(s) && CanSend(s, t)
    requires var c := s.threads[t]; c.note !in Accepted(s.sessions[c.h]) && c.note !in s.sessions[c.h].overflow
    ensures Structured(DoSend(s, t))
  {
    var c, s' := s.threads[t], DoSend(s, t);
    assert ControlSound(s, c);
    ContinueSound(s, c.h, c.note, c.rest);
    assert RecordSound(s, s.sessions[c.h]);
    RecordSentSound(s, s.sessions[c.h], c.note);
    SentTouches(s, t);
    ControlStable(s, s', t, c.h, s'.threads[t]);
    RecordStable(s, s', t, c.h, s'.sessions[c.h]);
    TouchedStructured(s, s', t, c.h);
  }

  lemma DeregisterStructured(s: System, t: Thread, h: Handle)
    requires Structured(s) && CanDeregister(s, t, h)
    ensures Structured(DoDeregister(s, t, h))
  {
    var s' := DoDeregister(s, t, h);
    assert TableSound(s');
    TouchedStructured(s, s', t, |s.sessions|);
  }

  lemma EndSweepStructured(s: System, t: Thread)
    requires Structured(s) && CanEndSweep(s, t)
    ensures Structured(DoEndSweep(s, t))
  {
    var s' := DoEndSweep(s, t);
    assert TableSound(s');
    TouchedStructured(s, s', t, |s.sessions|);
  }

  lemma CloseSessionStructured(s: System, t: Thread)
    requires Structured(s) && CanCloseSession(s, t)
    ensures Structured(DoCloseSession(s, t))
  {
    var s', h := DoCloseSession(s, t), s.threads[t].h;
    assert RecordSound(s, s.sessions[h]);
    assert Accepted(s'.sessions[h]) == Accepted(s.sessions[h]);
    TouchedStructured(s, s', t, h);
  }

  lemma SweepOneStructured(s: System, t: Thread, h: Handle)
    requires Structured(s) && CanSweepOne(s, t, h)
    ensures Structured(DoSweepOne(s, t, h))
  {
    var s' := DoSweepOne(s, t, h);
    assert RecordSound(s, s.sessions[h]) && ControlSound(s, s.threads[t]);
    assert Accepted(s'.sessions[h]) == Accepted(s.sessions[h]);
    TouchedStructured(s, s', t, h);
  }

  lemma ReceiveStructured(s: System, h: Handle)
    requires Structured(s) && CanReceive(s, h)
    ensures Structured(DoReceive(s, h))
  {
    var s' := DoReceive(s, h);
    assert RecordSound(s, s.sessions[h]);
    assert Accepted(s'.sessions[h]) == Accepted(s.sessions[h]);
    TouchedStructured(s, s', |s.threads|, h);
  }
  // ----- places

  lemma ContinueHolds(h: Handle, rest: seq<Note>, n: Note)
    ensures Holds(Continue(h, rest), n) <==> n in rest
  {
    if rest != [] {
      assert rest == [rest[0]] + rest[1..];
    }
  }

  /** The thread's own notification leaves it, for a place where no thread holds it. */
  lemma ReleaseAccounted(s: System, s': System, t: Thread, p': Place)
    requires Inv(s) && t < |s.threads| && Delivering(s.threads[t])
    requires var c := s.threads[t];
             s'.threads == s.threads[t := Continue(c.h, c.rest)] && s'.arrivals == s.arrivals &&
                 s'.place == Placed(s, c.note, p').place
    requires !p'.HeldBy?
    requires forall n: Note, p: Place :: !p.HeldBy? ==>
        (IsAt(s', n, p) <==> IsAt(s, n, p) || (n == s.threads[t].note && p == p'))
    ensures Accounted(s')
  {
    var c := s.threads[t];
    assert ControlSound(s, c);
    assert IsAt(s, c.note, HeldBy(t));
    forall n: Note, p: Place ensures IsAt(s', n, p) <==> n < |s'.arrivals| && s'.place[n] == p {
      assert IsAt(s, n, p) <==> n < |s.arrivals| && s.place[n] == p;
      ContinueHolds(c.h, c.rest, n);
    }
  }

  /** The newcomer is in its one place; everything else is where it was. */
  lemma NewcomerAccounted(s: System, s': System, p': Place)
    requires Accounted(s) && |s'.arrivals| == |s.arrivals| + 1 && s'.place == s.place + [p']
    requires forall n: Note, p: Place :: IsAt(s', n, p) <==> IsAt(s, n, p) || (n == |s.arrivals| && p == p')
    ensures Accounted(s')
  {
  }

  lemma RouteDirectAccounted(s: System, t: Thread, id: SessionId, h: Handle)
    requires Accounted(s) && CanStart(s, t) && h < |s.sessions|
    ensures Accounted(RouteDirect(s, t, id, h))
  {
    NewcomerAccounted(s, RouteDirect(s, t, id, h), HeldBy(t));
  }

  lemma RouteUnregisteredAccounted(s: System, id: SessionId)
    requires Accounted(s) && id !in s.table.sessions
    ensures Accounted(RouteUnregistered(s, id))
  {
    NewcomerAccounted(s, RouteUnregistered(s, id),
      if RouteOutcome(s.table, id).Refused? then RefusedByPending else InPending(id));
  }

  lemma RouteAccounted(s: System, t: Thread, id: SessionId)
    requires Inv(s) && CanUseTable(s, t)
    ensures Accounted(DoRoute(s, t, id))
  {
    if id in s.table.sessions {
      RouteDirectAccounted(s, t, id, s.table.sessions[id]);
    } else {
      RouteUnregisteredAccounted(s, id);
    }
  }

  lemma RegisterAccounted(s: System, t: Thread, id: SessionId, bufferSize: int)
    requires Inv(s) && CanUseTable(s, t)
    ensures Accounted(DoRegister(s, t, id, bufferSize))
  {
    var s', flush := DoRegister(s, t, id, bufferSize), Pending(s.table, id);
    forall n: Note, p: Place ensures IsAt(s', n, p) <==> n < |s'.arrivals| && s'.place[n] == p {
      assert IsAt(s, n, p) <==> n < |s.arrivals| && s.place[n] == p;
      assert n in flush <==> IsAt(s, n, InPending(id));
      assert !IsAt(s, n, HeldBy(t));
      ContinueHolds(|s.sessions|, flush, n);
    }
  }

  lemma AdmitAccounted(s: System, t: Thread)
    requires Inv(s) && CanAdmit(s, t)
    ensures Accounted(DoAdmit(s, t))
  {
    var c, s' := s.threads[t], DoAdmit(s, t);
    if s.sessions[c.h].state.closed {
      ReleaseAccounted(s, s', t, DiscardedByClose);
    } else {
      forall n: Note, p: Place ensures IsAt(s', n, p) <==> n < |s'.arrivals| && s'.place[n] == p {
        assert IsAt(s, n, p) <==> n < |s.arrivals| && s.place[n] == p;
      }
    }
  }

  lemma SendAccounted(s: System, t: Thread)
    requires Inv(s) && CanSend(s, t)
    ensures Accounted(DoSend(s, t))
  {
    var c, s' := s.threads[t], DoSend(s, t);
    assert RecordSound(s, s.sessions[c.h]);
    ReleaseAccounted(s, s', t, PlaceOf(SendFate(s.sessions[c.h].state), c.h));
  }

  lemma DeregisterAccounted(s: System, t: Thread, h: Handle)
    requires Inv(s) && CanDeregister(s, t, h)
    ensures Accounted(DoDeregister(s, t, h))
  {
    var s', id := DoDeregister(s, t, h), s.sessions[h].id;
    forall n: Note, p: Place ensures IsAt(s', n, p) <==> n < |s'.arrivals| && s'.place[n] == p {
      assert IsAt(s, n, p) <==> n < |s.arrivals| && s.place[n] == p;
      assert n in Pending(s.table, id) <==> IsAt(s, n, InPending(id));
    }
  }

  lemma EndSweepAccounted(s: System, t: Thread)
    requires Inv(s) && CanEndSweep(s, t)
    ensures Accounted(DoEndSweep(s, t))
  {
    var s' := DoEndSweep(s, t);
    forall n: Note, p: Place ensures IsAt(s', n, p) <==> n < |s'.arrivals| && s'.place[n] == p {
      assert IsAt(s, n, p) <==> n < |s.arrivals| && s.place[n] == p;
      if n < |s.arrivals| {
        assert IsAt(s, n, s.place[n]);
      }
      forall id | id in s.table.pending && n in s.table.pending[id]
          ensures n < |s.arrivals| && s.place[n] == InPending(id) {
        assert IsAt(s, n, InPending(id));
      }
    }
  }

  lemma CloseSessionAccounted(s: System, t: Thread)
    requires Inv(s) && CanCloseSession(s, t)
    ensures Accounted(DoCloseSession(s, t))
  {
    var s' := DoCloseSession(s, t);
    forall n: Note, p: Place ensures IsAt(s', n, p) <==> n < |s'.arrivals| && s'.place[n] == p {
      assert IsAt(s, n, p) <==> n < |s.arrivals| && s.place[n] == p;
    }
  }

  lemma SweepOneAccounted(s: System, t: Thread, h: Handle)
    requires Inv(s) && CanSweepOne(s, t, h)
    ensures Accounted(DoSweepOne(s, t, h))
  {
    var s' := DoSweepOne(s, t, h);
    forall n: Note, p: Place ensures IsAt(s', n, p) <==> n < |s'.arrivals| && s'.place[n] == p {
      assert IsAt(s, n, p) <==> n < |s.arrivals| && s.place[n] == p;
    }
  }

  lemma ReceiveAccounted(s: System, h: Handle)
    requires Inv(s) && CanReceive(s, h)
    ensures Accounted(DoReceive(s, h))
  {
    var s', r := DoReceive(s, h), s.sessions[h];
    var buf := r.state.updates.buf;
    assert RecordSound(s, r);
    assert buf[0] !in buf[1..] by {
      assert forall i :: 0 <= i < |buf| ==> Accepted(r)[|r.received| + i] == buf[i];
    }
    assert IsAt(s, buf[0], InChannel(h));
    forall n: Note, p: Place ensures IsAt(s', n, p) <==> n < |s'.arrivals| && s'.place[n] == p {
      assert IsAt(s, n, p) <==> n < |s.arrivals| && s.place[n] == p;
      assert n in buf <==> n == buf[0] || n in buf[1..];
    }
  }

  // ----- every step, every run

  lemma ControlStepKeeps(s: System, step: Step)
    requires Inv(s) && Enabled(s, step)
    requires step.BeginClose? || step.ObserveExit? || step.BeginSweep? || step.MarkCrashed?
    ensures Structured(Next(s, step)) && Accounted(Next(s, step))
  {
    var s' := Next(s, step);
    TouchedStructured(s, s', step.t, |s.sessions|);
    forall n: Note, p: Place ensures IsAt(s', n, p) <==> n < |s'.arrivals| && s'.place[n] == p {
      assert IsAt(s, n, p) <==> n < |s.arrivals| && s.place[n] == p;
    }
  }

  lemma ReplayOneMore(log: seq<Event<Handle, Note>>, e: Event<Handle, Note>)
    ensures Replay(log + [e]) == Apply(Replay(log), e)
  {
    assert (log + [e])[..|log|] == log;
  }

  lemma RouteLogs(s: System, t: Thread, id: SessionId)
    requires s.table == Replay(s.log) && CanUseTable(s, t)
    ensures DoRoute(s, t, id).table == Replay(DoRoute(s, t, id).log)
  {
    ReplayOneMore(s.log, Arrived(id, |s.arrivals|));
  }

  lemma LogKeeps(s: System, step: Step)
    requires s.table == Replay(s.log) && Enabled(s, step)
    ensures Next(s, step).table == Replay(Next(s, step).log)
  {
    match step
    case Route(t, id) => RouteLogs(s, t, id);
    case Register(t, id, _) => ReplayOneMore(s.log, Registered(id, |s.sessions|));
    case Deregister(t, h) => ReplayOneMore(s.log, Deregistered(s.sessions[h].id));
    case EndSweep(t) => ReplayOneMore(s.log, Event.Swept(s.threads[t].crash));
    case _ =>
  }

  lemma SessionsStay(s: System, step: Step)
    requires Enabled(s, step)
    ensures |s.sessions| <= |Next(s, step).sessions|
  {
  }

  lemma StepKeeps(s: System, step: Step)
    requires Inv(s) && Enabled(s, step)
    ensures Inv(Next(s, step))
  {
    LogKeeps(s, step);
    match step
    case Route(t, id) => RouteStructured(s, t, id); RouteAccounted(s, t, id);
    case Register(t, id, bufferSize) => RegisterStructured(s, t, id, bufferSize); RegisterAccounted(s, t, id,
        bufferSize);
    case Admit(t) => AdmitStructured(s, t); AdmitAccounted(s, t);
    case Send(t) => HeldNotSent(s, t); SendStructured(s, t); SendAccounted(s, t);
    case Deregister(t, h) => DeregisterStructured(s, t, h); DeregisterAccounted(s, t, h);
    case CloseSession(t) => CloseSessionStructured(s, t); CloseSessionAccounted(s, t);
    case SweepOne(t, h) => SweepOneStructured(s, t, h); SweepOneAccounted(s, t, h);
    case EndSweep(t) => EndSweepStructured(s, t); EndSweepAccounted(s, t);
    case Receive(h) => ReceiveStructured(s, h); ReceiveAccounted(s, h);
    case _ => ControlStepKeeps(s, step);
  }

  lemma {:induction false} RunKeeps(threadCount: nat, run: seq<Step>)
    requires ValidRun(threadCount, run)
    ensures Inv(After(threadCount, run))
  {
    if run != [] {
      RunKeeps(threadCount, run[..|run| - 1]);
      StepKeeps(After(threadCount, run[..|run| - 1]), run[|run| - 1]);
    }
  }

  /** After any run, every notification that arrived is in exactly one place, and nothing else is anywhere. */
  lemma NotificationsConserved(threadCount: nat, run: seq<Step>, n: Note)
    requires ValidRun(threadCount, run)
    ensures var s := After(threadCount, run);
            if n < |s.arrivals| then exists p :: IsAt(s, n, p) && forall q :: IsAt(s, n, q) ==> q == p
            else forall q :: !IsAt(s, n, q)
  {
    RunKeeps(threadCount, run);
    var s := After(threadCount, run);
    assert n < |s.arrivals| ==> IsAt(s, n, s.place[n]);
  }

  /**
    After any run, each session accepted a notification at most once and only
    ones meant for its id, and its drop counter counts exactly the
    notifications its full channel refused.
  */
  lemma {:induction false} SessionsAccountForTheirs(threadCount: nat, run: seq<Step>, h: Handle)
    requires ValidRun(threadCount, run) && h < |After(threadCount, run).sessions|
    ensures var s := After(threadCount, run);
            var r := s.sessions[h];
            && Distinct(Accepted(r))
            && (forall n :: n in Accepted(r) ==> n < |s.arrivals| && s.arrivals[n] == r.id)
            && Distinct(r.overflow) && r.state.dropped == |r.overflow|
            && (forall n :: n in r.overflow ==> n !in Accepted(r))
  {
    RunKeeps(threadCount, run);
    var s := After(threadCount, run);
    assert RecordSound(s, s.sessions[h]);
    forall n | n in s.sessions[h].overflow ensures n !in Accepted(s.sessions[h]) {
      assert IsAt(s, n, DroppedBy(h));
      assert !IsAt(s, n, InChannel(h)) && !IsAt(s, n, Received(h));
    }
  }

  /** The session the step is about to send to or to close, if it is about to. */
  function Touched(s: System, step: Step): Option<Handle>
    requires Enabled(s, step)
  {
    match step
    case Send(t) => Some(s.threads[t].h)
    case CloseSession(t) => Some(s.threads[t].h)
    case SweepOne(_, h) => Some(h)
    case _ => None
  }

  lemma RoutePanicsNot(s: System, t: Thread, id: SessionId)
    requires CanUseTable(s, t)
    ensures DoRoute(s, t, id).panicked == s.panicked
  {
  }

  /**
    In any state whatever, a step panics exactly when it sends to, or closes, a session whose flag says
    open while its channel is shut: as a send on a closed channel and a second close do in Go.
  */
  lemma PanicsExactly(s: System, step: Step)
    requires Enabled(s, step)
    ensures Next(s, step).panicked <==>
            || s.panicked
            || (&& Touched(s, step).Some?
                && var r := s.sessions[Touched(s, step).value];
                   !r.state.closed && r.state.updates.shut)
  {
    match step
    case Route(t, id) => RoutePanicsNot(s, t, id);
    case _ =>
  }

  /** No run sends on a shut channel or shuts one twice. */
  lemma {:induction false} ChannelsNeverPanic(threadCount: nat, run: seq<Step>)
    requires ValidRun(threadCount, run)
    ensures !After(threadCount, run).panicked
    ensures forall r :: r in After(threadCount, run).sessions ==> r.state.closed == r.state.updates.shut
  {
    RunKeeps(threadCount, run);
    var s := After(threadCount, run);
    forall r | r in s.sessions ensures r.state.closed == r.state.updates.shut {
      var h :| 0 <= h < |s.sessions| && s.sessions[h] == r;
      assert RecordSound(s, s.sessions[h]);
    }
  }

  predicate Shut(s: System, h: Handle) {
    h < |s.sessions| && s.sessions[h].state.updates.shut
  }

  /** Once shut, a channel is only ever drained: nothing is sent on it, no drop counted, and it is not shut again. */
  lemma ShutIsFinal(s: System, step: Step, h: Handle)
    requires Inv(s) && Enabled(s, step) && Shut(s, h)
    ensures Shut(Next(s, step), h)
    ensures var before, after := s.sessions[h].state, Next(s, step).sessions[h].state;
            if step == Receive(h) then after == before.(updates := before.updates.(buf := before.updates.buf[1..]))
            else after == before
  {
    assert RecordSound(s, s.sessions[h]);
    ClosedIsFinal(s, step, h);
  }

  lemma ClosedIsFinal(s: System, step: Step, h: Handle)
    requires Enabled(s, step) && h < |s.sessions| && s.sessions[h].state.closed
    ensures h < |Next(s, step).sessions|
    ensures var before, after := s.sessions[h].state, Next(s, step).sessions[h].state;
            if step == Receive(h) then after == before.(updates := before.updates.(buf := before.updates.buf[1..]))
            else after == before
  {
    match step
    case Route(t, id) => RouteKeepsState(s, t, id, h);
    case Send(t) => SendKeepsShut(s, t, h);
    case CloseSession(t) => CloseKeepsShut(s, s.threads[t].h, h);
    case SweepOne(t, k) => CloseKeepsShut(s, k, h);
    case _ =>
  }

  lemma CloseKeepsShut(s: System, k: Handle, h: Handle)
    requires k < |s.sessions| && h < |s.sessions| && s.sessions[h].state.closed
    ensures |Closed(s, k).sessions| == |s.sessions| && Closed(s, k).sessions[h].state == s.sessions[h].state
  {
  }

  lemma RouteKeepsState(s: System, t: Thread, id: SessionId, h: Handle)
    requires CanUseTable(s, t) && h < |s.sessions|
    ensures h < |DoRoute(s, t, id).sessions| && DoRoute(s, t, id).sessions[h].state == s.sessions[h].state
  {
  }

  lemma SendKeepsShut(s: System, t: Thread, h: Handle)
    requires CanSend(s, t) && h < |s.sessions| && s.sessions[h].state.closed
    ensures h < |DoSend(s, t).sessions| && DoSend(s, t).sessions[h].state == s.sessions[h].state
  {
  }

  // ----- who gives a notification up

  /** The step meets the closed session it delivers to, with `n` in hand. */
  predicate MeetsClosed(s: System, step: Step, n: Note)
    requires Enabled(s, step)
  {
    (step.Admit? || step.Send?) && s.threads[step.t].note == n && s.sessions[s.threads[step.t].h].state.closed
  }

  /** The step empties a buffer that holds `n` without handing it on. */
  predicate Empties(s: System, step: Step, n: Note)
    requires Enabled(s, step)
  {
    || (step.Deregister? && n in Pending(s.table, s.sessions[step.h].id))
    || (step.EndSweep? && s.threads[step.t].crash && exists id :: id in s.table.pending && n in s.table.pending[id])
  }

  lemma SendDiscards(s: System, t: Thread, n: Note)
    requires Inv(s) && CanSend(s, t)
    ensures n in DoSend(s, t).discarded <==> n in s.discarded || MeetsClosed(s, Send(t), n)
    ensures DoSend(s, t).refused == s.refused
  {
    assert RecordSound(s, s.sessions[s.threads[t].h]);
  }

  lemma AdmitDiscards(s: System, t: Thread, n: Note)
    requires CanAdmit(s, t)
    ensures n in DoAdmit(s, t).discarded <==> n in s.discarded || MeetsClosed(s, Admit(t), n)
    ensures DoAdmit(s, t).refused == s.refused
  {
  }

  lemma EndSweepDiscards(s: System, t: Thread, n: Note)
    requires CanEndSweep(s, t)
    ensures n in DoEndSweep(s, t).discarded <==> n in s.discarded || Empties(s, EndSweep(t), n)
    ensures DoEndSweep(s, t).refused == s.refused
  {
    if id :| id in s.table.pending && n in s.table.pending[id] {
      assert n in (set id, n | id in s.table.pending && n in s.table.pending[id] :: n);
    }
  }

  lemma RouteRefuses(s: System, t: Thread, id: SessionId, n: Note)
    requires Inv(s) && CanUseTable(s, t)
    ensures DoRoute(s, t, id).discarded == s.discarded
    ensures n in DoRoute(s, t, id).refused <==>
            n in s.refused || (n == |s.arrivals| && id !in s.table.sessions && |Pending(s.table, id)| >= 64)
  {
  }

  /**
    A notification is discarded exactly where a delivery finds its session closed, a rollback empties
    the buffer it is in, or a crash empties all; and refused exactly where it arrives for an
    unregistered id whose buffer holds 64.
  */
  lemma GivenUpExactly(s: System, step: Step, n: Note)
    requires Inv(s) && Enabled(s, step)
    ensures n in Next(s, step).discarded <==> n in s.discarded || MeetsClosed(s, step, n) || Empties(s, step, n)
    ensures n in Next(s, step).refused <==>
            || n in s.refused
            || (step.Route? && n == |s.arrivals| && step.id !in s.table.sessions &&
                |Pending(s.table, step.id)| >= 64)
  {
    match step
    case Route(t, id) => RouteRefuses(s, t, id, n);
    case Send(t) => SendDiscards(s, t, n);
    case Admit(t) => AdmitDiscards(s, t, n);
    case EndSweep(t) => EndSweepDiscards(s, t, n);
    case _ =>
  }

  // ----- the history a run leaves

  /** What a step adds to the history of the table. */
  function Logs(s: System, step: Step): seq<Event<Handle, Note>>
    requires Enabled(s, step)
  {
    match step
    case Route(_, id) => [Arrived(id, |s.arrivals|)]
    case Register(_, id, _) => [Registered(id, |s.sessions|)]
    case Deregister(_, h) => [Deregistered(s.sessions[h].id)]
    case EndSweep(t) => [Event.Swept(s.threads[t].crash)]
    case _ => []
  }

  lemma RouteAdds(s: System, t: Thread, id: SessionId)
    requires Inv(s) && CanUseTable(s, t)
    ensures DoRoute(s, t, id).log == s.log + [Arrived(id, |s.arrivals|)]
    ensures DoRoute(s, t, id).arrivals == s.arrivals + [id]
  {
  }

  lemma StepLogs(s: System, step: Step)
    requires Inv(s) && Enabled(s, step)
    ensures Next(s, step).log == s.log + Logs(s, step)
    ensures Next(s, step).arrivals == s.arrivals + if step.Route? then [step.id] else []
  {
    match step
    case Route(t, id) => RouteAdds(s, t, id);
    case _ =>
      assert s.log + [] == s.log && s.arrivals + [] == s.arrivals;
  }

  /** The history of the first `k` steps. */
  function History(threadCount: nat, run: seq<Step>, states: seq<System>, k: nat): seq<Event<Handle, Note>>
    requires IsTrace(threadCount, run, states) && k <= |run|
  {
    if k == 0 then []
    else
      assert Follows(run, states, k - 1);
      History(threadCount, run, states, k - 1) + Logs(states[k - 1], run[k - 1])
  }

  /** The ids routed in the first `k` steps. */
  function Routed(run: seq<Step>, k: nat): seq<SessionId>
    requires k <= |run|
  {
    if k == 0 then [] else Routed(run, k - 1) + if run[k - 1].Route? then [run[k - 1].id] else []
  }

  /** Whatever state of the run, it keeps the invariant. */
  lemma TraceKeeps(threadCount: nat, run: seq<Step>, states: seq<System>, k: nat)
    requires IsTrace(threadCount, run, states) && k <= |run|
    ensures Inv(states[k])
  {
    TracePrefix(threadCount, run, states, k);
    RunKeeps(threadCount, run[..k]);
  }

  lemma HistoryNext(threadCount: nat, run: seq<Step>, states: seq<System>, k: nat)
    requires IsTrace(threadCount, run, states) && k < |run|
    ensures Enabled(states[k], run[k])
    ensures states[k + 1].log == states[k].log + Logs(states[k], run[k])
    ensures states[k + 1].arrivals == states[k].arrivals + if run[k].Route? then [run[k].id] else []
  {
    AtStep(threadCount, run, states, k);
    TraceKeeps(threadCount, run, states, k);
    StepLogs(states[k], run[k]);
  }

  /**
    After every prefix of every run the history is the steps' own: an arrival for each routing step,
    numbered in order, a registration for each new session, a rollback and a sweep where they end.
  */
  lemma {:induction false} HistoryExactly(threadCount: nat, run: seq<Step>, states: seq<System>, k: nat)
    requires IsTrace(threadCount, run, states) && k <= |run|
    ensures states[k].log == History(threadCount, run, states, k) && states[k].arrivals == Routed(run, k)
  {
    if k > 0 {
      HistoryExactly(threadCount, run, states, k - 1);
      HistoryNext(threadCount, run, states, k - 1);
    }
  }

  /** In every interleaving the pending buffers are what the table's own history says they are. */
  lemma {:induction false} PendingFollowsHistory(threadCount: nat, run: seq<Step>, id: SessionId)
    requires ValidRun(threadCount, run)
    ensures var s := After(threadCount, run);
            && Pending(s.table, id) == First(Unclaimed(s.log, id), 64)
            && !(id in s.table.sessions && id in s.table.pending)
  {
    RunKeeps(threadCount, run);
    TableFollowsHistory(After(threadCount, run).log, id);
  }
}
