/**
  One session's side of delivery: the bounded `updates` channel, the `closed`
  flag and the drop counter, all guarded by the session's own mutex.  The
  functions are the critical sections of that mutex as state transformers; the
  class performs them in place.
*/
module SessionDelivery {
  import opened Wrappers
  import opened RoutingTable

  const DEFAULT_BUFFER: nat := 128

  /** A Go channel: a send that finds it shut, and a second close, both panic. */
  datatype Channel<N> = Channel(buf: seq<N>, cap: nat, shut: bool)

  datatype SessionState<N> = SessionState(closed: bool, updates: Channel<N>, dropped: nat)

  /** What became of one notification in `deliver`. */
  datatype Fate = Sent | Dropped | Discarded | Panicked

  function BufferSize(requested: int): nat {
    if requested <= 0 then DEFAULT_BUFFER else requested
  }

  function Opened<N>(bufferSize: int): SessionState<N> {
    SessionState(false, Channel([], BufferSize(bufferSize), false), 0)
  }

  /** `deliver`'s second critical section: re-check `closed`, then the non-blocking send. */
  function SendFate<N>(s: SessionState<N>): Fate {
    if s.closed then Discarded
    else if s.updates.shut then Panicked
    else if |s.updates.buf| < s.updates.cap then Sent
    else Dropped
  }

  function AfterSend<N>(s: SessionState<N>, n: N): SessionState<N> {
    match SendFate(s)
    case Sent => s.(updates := s.updates.(buf := s.updates.buf + [n]))
    case Dropped => s.(dropped := s.dropped + 1)
    case _ => s
  }

  predicate ClosePanics<N>(s: SessionState<N>) {
    !s.closed && s.updates.shut
  }

  function AfterClose<N>(s: SessionState<N>): SessionState<N> {
    if s.closed then s else s.(closed := true, updates := s.updates.(shut := true))
  }

  /** The flag and the channel agree; this is what keeps sends and closes from panicking. */
  predicate Sound<N>(s: SessionState<N>) {
    s.closed == s.updates.shut && |s.updates.buf| <= s.updates.cap
  }

  /** `deliver` of each notification in turn, with no other thread in between. */
  function DeliverAll<N>(s: SessionState<N>, ns: seq<N>): SessionState<N> {
    if ns == [] then s else AfterSend(DeliverAll(s, ns[..|ns| - 1]), ns[|ns| - 1])
  }

  /** A flush into an open session keeps the longest prefix that fits and counts the rest as dropped. */
  lemma {:induction false} FlushKeepsPrefix<N>(s: SessionState<N>, ns: seq<N>)
    requires Sound(s) && !s.closed
    ensures var room := s.updates.cap - |s.updates.buf|;
            DeliverAll(s, ns) == s.(updates := s.updates.(buf := s.updates.buf + First(ns, room)),
                                    dropped := s.dropped + |ns| - |First(ns, room)|)
  {
    if ns == [] {
      assert s.updates.buf + First(ns, s.updates.cap - |s.updates.buf|) == s.updates.buf;
    } else {
      var front, last := ns[..|ns| - 1], ns[|ns| - 1];
      FlushKeepsPrefix(s, front);
      var room := s.updates.cap - |s.updates.buf|;
      if |ns| <= room {
        assert s.updates.buf + ns == (s.updates.buf + front) + [last];
      } else {
        assert front[..room] == ns[..room];
      }
    }
  }

  /** A full pending buffer fits the default channel: a flush that no other thread disturbs drops nothing. */
  lemma DefaultBufferLosesNothing<N>(bufferSize: int, es: seq<Event<SessionState<N>, N>>, id: SessionId)
    requires bufferSize <= 0
    ensures var pending := Pending(Replay(es), id);
            DeliverAll(Opened(bufferSize), pending) ==
                SessionState(false, Channel(pending, 128, false), 0)
  {
    TableFollowsHistory(es, id);
    FlushKeepsPrefix(Opened(bufferSize), Pending(Replay(es), id));
    assert [] + Pending(Replay(es), id) == Pending(Replay(es), id);
  }

  /** A session; `H` is a registered set of update handlers. */
  class Session<N, H> {
    const id: SessionId
    const capacity: nat
    var closed: bool
    var buf: seq<N>
    var shut: bool
    var dropped: nat
    var subscribers: map<nat, H>
    var subSeq: nat

    function State(): SessionState<N>
      reads this
    {
      SessionState(closed, Channel(buf, capacity, shut), dropped)
    }

    ghost predicate Valid()
      reads this
    {
      Sound(State()) && forall k :: k in subscribers ==> k <= subSeq
    }

    constructor (id: SessionId, bufferSize: int)
      ensures Valid() && this.id == id && State() == Opened(bufferSize) && subscribers == map[]
      ensures !closed && buf == [] && dropped == 0 && capacity == if bufferSize <= 0 then 128 else bufferSize
    {
      this.id, capacity := id, if bufferSize <= 0 then DEFAULT_BUFFER else bufferSize;
      closed, buf, shut, dropped := false, [], false, 0;
      subscribers, subSeq := map[], 0;
    }

    /**
      The first critical section of `deliver`: a closed session delivers nothing, an open one snapshots
      its handlers.
    */
    method Admit() returns (admitted: bool, handlers: map<nat, H>)
      ensures admitted == !closed
      ensures handlers == if admitted then subscribers else map[]
    {
      if closed {
        return false, map[];
      }
      return true, subscribers;
    }

    /** The second critical section of `deliver`. */
    method Send(n: N) returns (fate: Fate)
      requires Valid()
      modifies this`buf, this`dropped
      ensures Valid() && State() == AfterSend(old(State()), n)
      ensures fate == SendFate(old(State())) && fate != Panicked
    {
      if closed {
        return Discarded;
      }
      if |buf| < capacity {
        buf := buf + [n];
        fate := Sent;
      } else {
        dropped := dropped + 1;
        fate := Dropped;
      }
    }

    /** `deliver` when no other thread touches the session in between. */
    method Deliver(n: N) returns (fate: Fate)
      requires Valid()
      modifies this`buf, this`dropped
      ensures Valid() && State() == AfterSend(old(State()), n)
      ensures fate == SendFate(old(State())) && fate != Panicked
    {
      var admitted, _ := Admit();
      if !admitted {
        return Discarded;
      }
      fate := Send(n);
    }

    method Close()
      requires Valid()
      modifies this`closed, this`shut
      ensures Valid() && State() == AfterClose(old(State())) && !ClosePanics(old(State()))
      ensures closed
    {
      if closed {
        return;
      }
      closed := true;
      shut := true;
    }

    method Receive() returns (n: Option<N>)
      requires Valid()
      modifies this`buf
      ensures Valid() && State() == old(State()).(updates := old(State()).updates.(buf := buf))
      ensures old(buf) == (if n.Some? then [n.value] else []) + buf
      ensures n.None? ==> old(buf) == []
    {
      if buf == [] {
        return None;
      }
      n := Some(buf[0]);
      buf := buf[1..];
    }

    /** Subscriptions get ids no other live subscription has, so each can be undone on its own. */
    method Subscribe(h: H) returns (subscription: nat)
      requires Valid()
      modifies this`subscribers, this`subSeq
      ensures Valid() && subscription !in old(subscribers)
      ensures subscribers == old(subscribers)[subscription := h]
    {
      subSeq := subSeq + 1;
      subscription := subSeq;
      subscribers := subscribers[subSeq := h];
    }

    /** What the closure returned by `Subscribe` does. */
    method Unsubscribe(subscription: nat)
      requires Valid()
      modifies this`subscribers
      ensures Valid() && subscribers == old(subscribers) - {subscription}
    {
      subscribers := subscribers - {subscription};
    }
  }
}
