/**
  The routing table that a client keeps under `sessionsMu`: which session each
  id is registered to, and the notifications buffered for ids that are not
  registered yet.  Every operation below is one critical section of
  `sessionsMu`.  `S` is the session (an object, or a handle for one) and `N`
  the notification.
*/
module RoutingTable {
  import opened Wrappers

  const PENDING_UPDATES_CAP: nat := 64

  datatype Table<S, N> = Table(sessions: map<SessionId, S>, pending: map<SessionId, seq<N>>)

  datatype Routing<S> = ToSession(session: S) | Buffered | Refused

  /** A missing Go map entry reads as the nil slice. */
  function Pending<S, N>(tb: Table<S, N>, id: SessionId): seq<N> {
    if id in tb.pending then tb.pending[id] else []
  }

  function RouteOutcome<S, N>(tb: Table<S, N>, id: SessionId): Routing<S> {
    if id in tb.sessions then ToSession(tb.sessions[id])
    else if |Pending(tb, id)| >= PENDING_UPDATES_CAP then Refused
    else Buffered
  }

  function AfterRoute<S, N>(tb: Table<S, N>, id: SessionId, n: N): Table<S, N> {
    if RouteOutcome(tb, id) == Buffered then tb.(pending := tb.pending[id := Pending(tb, id) + [n]]) else tb
  }

  /** The flush list handed to the registrar is `Pending(tb, id)` of the table before. */
  function AfterRegister<S, N>(tb: Table<S, N>, id: SessionId, s: S): Table<S, N> {
    Table(tb.sessions[id := s], tb.pending - {id})
  }

  function AfterDeregister<S, N>(tb: Table<S, N>, id: SessionId): Table<S, N> {
    Table(tb.sessions - {id}, tb.pending - {id})
  }

  /** `Close` resets `sessions` only; the crash watcher resets `pendingUpdates` as well. */
  function AfterSweep<S, N>(tb: Table<S, N>, crash: bool): Table<S, N> {
    Table(map[], if crash then map[] else tb.pending)
  }

  // ----- the table as a function of its own history

  datatype Event<S, N> =
    | Arrived(id: SessionId, note: N)
    | Registered(id: SessionId, session: S)
    | Deregistered(id: SessionId)
    | Swept(crash: bool)

  function Apply<S, N>(tb: Table<S, N>, e: Event<S, N>): Table<S, N> {
    match e
    case Arrived(id, n) => AfterRoute(tb, id, n)
    case Registered(id, s) => AfterRegister(tb, id, s)
    case Deregistered(id) => AfterDeregister(tb, id)
    case Swept(crash) => AfterSweep(tb, crash)
  }

  function Replay<S, N>(es: seq<Event<S, N>>): Table<S, N> {
    if es == [] then Table(map[], map[]) else Apply(Replay(es[..|es| - 1]), es[|es| - 1])
  }

  /** Whether `e` ends whatever registration `id` had. */
  predicate Unregisters<S, N>(e: Event<S, N>, id: SessionId) {
    e.Swept? || (e.Deregistered? && e.id == id)
  }

  /** The most recent registration of `id` that no later event undid. */
  function Owner<S, N>(es: seq<Event<S, N>>, id: SessionId): Option<S> {
    if es == [] then None
    else
      var e := es[|es| - 1];
      if e.Registered? && e.id == id then Some(e.session)
      else if Unregisters(e, id) then None
      else Owner(es[..|es| - 1], id)
  }

  /** Whether `e` empties the buffer of `id`, given what `id` was registered to before. */
  predicate Restarts<S, N>(e: Event<S, N>, id: SessionId) {
    (e.Swept? && e.crash) || ((e.Deregistered? || e.Registered?) && e.id == id)
  }

  /** Every notification that arrived for `id` while unregistered, since its buffer was last emptied. */
  function Unclaimed<S, N>(es: seq<Event<S, N>>, id: SessionId): seq<N> {
    if es == [] then []
    else
      var before, e := es[..|es| - 1], es[|es| - 1];
      if Restarts(e, id) then []
      else if e.Arrived? && e.id == id && Owner(before, id).None? then Unclaimed(before, id) + [e.note]
      else Unclaimed(before, id)
  }

  function First<N>(s: seq<N>, k: nat): seq<N> {
    if |s| <= k then s else s[..k]
  }

  /** No id is both registered and pending, which is what makes the flush at registration complete. */
  ghost predicate Disjoint<S, N>(tb: Table<S, N>) {
    tb.sessions.Keys !! tb.pending.Keys
  }

  /**
    The table after any history: an id is registered to its last undone
    registration, is never also pending, and its buffer is exactly the first 64
    notifications that arrived for it since the buffer was last emptied.
  */
  lemma {:induction false} TableFollowsHistory<S, N>(es: seq<Event<S, N>>, id: SessionId)
    ensures Owner(es, id) == if id in Replay(es).sessions then Some(Replay(es).sessions[id]) else None
    ensures Pending(Replay(es), id) == First(Unclaimed(es, id), 64)
    ensures id in Replay(es).sessions ==> id !in Replay(es).pending && Unclaimed(es, id) == []
  {
    if es != [] {
      var before, e := es[..|es| - 1], es[|es| - 1];
      TableFollowsHistory(before, id);
    }
  }

  lemma ReplayDisjoint<S, N>(es: seq<Event<S, N>>)
    ensures Disjoint(Replay(es))
  {
    forall id | id in Replay(es).sessions ensures id !in Replay(es).pending {
      TableFollowsHistory(es, id);
    }
  }
}
