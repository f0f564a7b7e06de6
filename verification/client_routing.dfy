/**
  The client's routing state changed in place: registration with its flush,
  routing, rollback, `Close` and the crash watcher.  Each method is stated
  against the table and session transformers; it runs alone here, and
  `RoutingProtocol` interleaves the same transformers.
*/
module ClientRouting {
  import opened Wrappers
  import opened RoutingTable
  import opened SessionDelivery

  datatype ClientError = ErrClosed | ErrNotStarted | TransportError(cause: string)

  class Client<N, H> {
    var started: bool
    var closed: bool
    var transportErr: Option<ClientError>
    var sessions: map<SessionId, Session<N, H>>
    var pending: map<SessionId, seq<N>>

    function View(): Table<Session<N, H>, N>
      reads this
    {
      Table(sessions, pending)
    }

    ghost predicate Valid()
      reads this, sessions.Values
    {
      && (forall id :: id in sessions ==> sessions[id].id == id && sessions[id].Valid())
      && sessions.Keys !! pending.Keys
    }

    constructor ()
      ensures Valid() && View() == Table(map[], map[]) && !started && !closed && transportErr == None
    {
      started, closed, transportErr := false, false, None;
      sessions, pending := map[], map[];
    }

    method EnsureStarted() returns (err: Option<ClientError>)
      ensures err.None? <==> started && !closed
      ensures closed && transportErr.Some? ==> err == transportErr
      ensures closed && transportErr.None? ==> err == Some(ErrClosed)
      ensures !closed && !started ==> err == Some(ErrNotStarted)
    {
      if closed {
        if transportErr.Some? {
          return transportErr;
        }
        return Some(ErrClosed);
      }
      if !started {
        return Some(ErrNotStarted);
      }
      return None;
    }

    /** Registers `s` and delivers to it everything that was pending for its id. */
    method RegisterSession(s: Session<N, H>)
      requires Valid() && s.Valid()
      modifies this, s
      ensures Valid() && View() == AfterRegister(old(View()), s.id, s)
      ensures s.State() == DeliverAll(old(s.State()), Pending(old(View()), s.id))
      ensures closed == old(closed) && started == old(started) && transportErr == old(transportErr)
      ensures s.subscribers == old(s.subscribers)
    {
      var flush := if s.id in pending then pending[s.id] else [];
      sessions := sessions[s.id := s];
      pending := pending - {s.id};
      var i := 0;
      while i < |flush|
        modifies s`buf, s`dropped
        invariant 0 <= i <= |flush| && s.Valid()
        invariant s.State() == DeliverAll(old(s.State()), flush[..i])
      {
        assert flush[..i + 1][..|flush[..i + 1]| - 1] == flush[..i];
        var _ := s.Deliver(flush[i]);
        i := i + 1;
      }
      assert flush[..|flush|] == flush;
    }

    method DeregisterSession(id: SessionId)
      requires Valid()
      modifies this`sessions, this`pending
      ensures Valid() && View() == AfterDeregister(old(View()), id)
    {
      sessions := sessions - {id};
      pending := pending - {id};
    }

    /** Rolls a session back: it ends closed and its id is neither registered nor pending. */
    method TeardownSession(s: Session<N, H>)
      requires Valid() && s.Valid()
      modifies this`sessions, this`pending, s
      ensures Valid() && View() == AfterDeregister(old(View()), s.id)
      ensures s.State() == AfterClose(old(s.State())) && s.closed && s.subscribers == old(s.subscribers)
    {
      DeregisterSession(s.id);
      s.Close();
    }

    /** A notification reaches its session, or is buffered, or finds the buffer full; no other session changes. */
    method RouteSessionUpdate(id: SessionId, n: N)
      requires Valid()
      modifies this`pending, sessions.Values
      ensures Valid() && View() == AfterRoute(old(View()), id, n)
      ensures forall other :: other in sessions && other != id ==>
          sessions[other].State() == old(sessions[other].State())
      ensures id in sessions ==> sessions[id].State() == AfterSend(old(sessions[id].State()), n)
      ensures forall i :: i in sessions ==>
        sessions[i].subscribers == old(sessions[i].subscribers) && sessions[i].subSeq == old(sessions[i].subSeq)
    {
      if id in sessions {
        var _ := sessions[id].Deliver(n);
        return;
      }
      var buffer := if id in pending then pending[id] else [];
      if |buffer| >= PENDING_UPDATES_CAP {
        return;
      }
      pending := pending[id := buffer + [n]];
    }

    function SweptState(s: SessionState<N>, swept: bool): SessionState<N> {
      if swept then AfterClose(s) else s
    }

    /** The `sessionsMu` section shared by `Close` and the crash watcher. */
    method Sweep(crash: bool)
      requires Valid()
      modifies this`sessions, this`pending, sessions.Values
      ensures Valid() && View() == AfterSweep(old(View()), crash)
      ensures forall id :: id in old(sessions) ==>
        && old(sessions)[id].State() == AfterClose(old(sessions[id].State())) && old(sessions)[id].closed
        && old(sessions)[id].subscribers == old(sessions[id].subscribers)
    {
      var todo := sessions.Keys;
      while todo != {}
        modifies sessions.Values
        invariant todo <= sessions.Keys
        invariant forall id :: id in sessions ==>
          && sessions[id].Valid() && sessions[id].subscribers == old(sessions[id].subscribers)
          && sessions[id].State() == SweptState(old(sessions[id].State()), id !in todo)
        decreases todo
      {
        var id :| id in todo;
        assert forall other :: other in sessions && other != id ==> sessions[other] != sessions[id];
        sessions[id].Close();
        todo := todo - {id};
      }
      sessions := map[];
      if crash {
        pending := map[];
      }
    }

    /** Closing twice is the same as closing once. */
    method Close()
      requires Valid()
      modifies this`closed, this`sessions, this`pending, sessions.Values
      ensures Valid() && closed
      ensures old(closed) ==> View() == old(View())
      ensures !old(closed) ==> View() == AfterSweep(old(View()), false)
      ensures forall id :: id in old(sessions) ==>
        && old(sessions)[id].State() ==
            (if old(closed) then old(sessions[id].State()) else AfterClose(old(sessions[id].State())))
        && old(sessions)[id].subscribers == old(sessions[id].subscribers)
    {
      if closed {
        return;
      }
      closed := true;
      Sweep(false);
    }

    /**
      What the crash watcher does once the process has exited; afterwards `EnsureStarted` reports the
      transport error.
    */
    method WatchSubprocess(cause: string)
      requires Valid()
      modifies this`closed, this`transportErr, this`sessions, this`pending, sessions.Values
      ensures Valid() && closed
      ensures old(closed) ==> View() == old(View()) && transportErr == old(transportErr)
      ensures !old(closed) ==> View() == AfterSweep(old(View()), true) && transportErr == Some(TransportError(cause))
      ensures forall id :: id in old(sessions) ==>
        && old(sessions)[id].State() ==
            (if old(closed) then old(sessions[id].State()) else AfterClose(old(sessions[id].State())))
        && old(sessions)[id].subscribers == old(sessions[id].subscribers)
    {
      if closed {
        return;
      }
      Sweep(true);
      closed := true;
      transportErr := Some(TransportError(cause));
    }
  }
}
