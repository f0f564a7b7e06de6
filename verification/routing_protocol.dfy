/**
  Routing and delivery as a step machine: one step per critical section, any
  number of threads.  A notification is named by its position in the order of
  arrival, so "arrived earlier" is "<".

  A handler that calls back into the SDK while `deliver` runs it counts as
  another thread: `deliver` holds no lock there.
*/
module RoutingProtocol {
  import opened Wrappers
  import opened RoutingTable
  import opened SessionDelivery

  type Note = nat
  type Handle = nat
  type Thread = nat

  /** What a thread does next. */
  datatype Control =
    | Idle
    // about to take the session lock in `deliver`; `rest` of the flush follows
    | Entering(h: Handle, note: Note, rest: seq<Note>)
    // running handlers between the two critical sections of `deliver`
    | Dispatching(h: Handle, note: Note, rest: seq<Note>)
    | TearingDown(h: Handle)                               // deregistered, `close` not called yet
    // about to take `sessionsMu` in `Close` or in the crash watcher
    | Awaiting(crash: bool)
    | Sweeping(crash: bool, todo: set<Handle>)             // holds `sessionsMu`; `todo` still to be closed
    | Marking                                              // crash watcher, before it marks the client closed

  /** Where a notification is. */
  datatype Place =
    | InPending(id: SessionId)
    | HeldBy(t: Thread)
    | InChannel(h: Handle)
    | Received(h: Handle)
    | DroppedBy(h: Handle)
    | RefusedByPending
    | DiscardedByClose

  /** A session object with the history of what happened to the notifications sent to it. */
  datatype SessionRecord = SessionRecord(
    id: SessionId,
    state: SessionState<Note>,
    received: seq<Note>,
    overflow: seq<Note>,
    flushed: seq<Note>,      // what registration took over from the pending buffer
    overtaken: bool          // a notification was routed here while that flush was in progress
  )

  datatype System = System(
    table: Table<Handle, Note>,
    sessions: seq<SessionRecord>,
    threads: seq<Control>,
    clientClosed: bool,
    crashed: bool,
    arrivals: seq<SessionId>,
    refused: set<Note>,
    discarded: set<Note>,
    panicked: bool,
    log: seq<Event<Handle, Note>>,
    place: seq<Place>
  )

  datatype Step =
    | Route(t: Thread, id: SessionId)
    | Register(t: Thread, id: SessionId, bufferSize: int)
    | Admit(t: Thread)
    | Send(t: Thread)
    | Deregister(t: Thread, h: Handle)
    | CloseSession(t: Thread)
    | BeginClose(t: Thread)
    | ObserveExit(t: Thread)
    | BeginSweep(t: Thread)
    | SweepOne(t: Thread, h: Handle)
    | EndSweep(t: Thread)
    | MarkCrashed(t: Thread)
    | Receive(h: Handle)

  function Initial(threadCount: nat): System {
    System(Table(map[], map[]), [], seq(threadCount, _ => Idle), false, false, [], {}, {}, false, [], [])
  }

  predicate Delivering(c: Control) {
    c.Entering? || c.Dispatching?
  }

  /** The sweep is the one critical section of `sessionsMu` with steps inside it. */
  predicate TableLocked(s: System) {
    exists t: nat :: t < |s.threads| && s.threads[t].Sweeping?
  }

  predicate CanStart(s: System, t: Thread) {
    t < |s.threads| && s.threads[t].Idle?
  }

  /** An idle thread that can take `sessionsMu`. */
  predicate CanUseTable(s: System, t: Thread) {
    CanStart(s, t) && !TableLocked(s)
  }

  predicate CanAdmit(s: System, t: Thread) {
    t < |s.threads| && s.threads[t].Entering? && s.threads[t].h < |s.sessions|
  }

  predicate CanSend(s: System, t: Thread) {
    t < |s.threads| && s.threads[t].Dispatching? && s.threads[t].h < |s.sessions|
  }

  predicate CanDeregister(s: System, t: Thread, h: Handle) {
    CanUseTable(s, t) && h < |s.sessions|
  }

  predicate CanCloseSession(s: System, t: Thread) {
    t < |s.threads| && s.threads[t].TearingDown? && s.threads[t].h < |s.sessions|
  }

  predicate CanBeginSweep(s: System, t: Thread) {
    t < |s.threads| && s.threads[t].Awaiting? && !TableLocked(s)
  }

  predicate CanSweepOne(s: System, t: Thread, h: Handle) {
    t < |s.threads| && s.threads[t].Sweeping? && h in s.threads[t].todo && h < |s.sessions|
  }

  predicate CanEndSweep(s: System, t: Thread) {
    t < |s.threads| && s.threads[t].Sweeping? && s.threads[t].todo == {}
  }

  predicate CanMark(s: System, t: Thread) {
    t < |s.threads| && s.threads[t].Marking?
  }

  predicate CanReceive(s: System, h: Handle) {
    h < |s.sessions| && s.sessions[h].state.updates.buf != []
  }

  predicate Enabled(s: System, step: Step) {
    match step
    case Route(t, _) => CanUseTable(s, t)
    case Register(t, _, _) => CanUseTable(s, t)
    case Admit(t) => CanAdmit(s, t)
    case Send(t) => CanSend(s, t)
    case Deregister(t, h) => CanDeregister(s, t, h)
    case CloseSession(t) => CanCloseSession(s, t)
    case BeginClose(t) => CanStart(s, t)
    case ObserveExit(t) => CanStart(s, t)
    case BeginSweep(t) => CanBeginSweep(s, t)
    case SweepOne(t, h) => CanSweepOne(s, t, h)
    case EndSweep(t) => CanEndSweep(s, t)
    case MarkCrashed(t) => CanMark(s, t)
    case Receive(h) => CanReceive(s, h)
  }

  /** The control of a thread that has dealt with one notification and still has `rest` to flush. */
  function Continue(h: Handle, rest: seq<Note>): Control {
    if rest == [] then Idle else Entering(h, rest[0], rest[1..])
  }

  predicate Holds(c: Control, n: Note) {
    Delivering(c) && (n == c.note || n in c.rest)
  }

  predicate Flushes(s: System, t: Thread, h: Handle) {
    t < |s.threads| && h < |s.sessions| && Delivering(s.threads[t]) && s.threads[t].h == h &&
        s.threads[t].note in s.sessions[h].flushed
  }

  /** Some thread is still flushing what `h` took over at registration. */
  predicate Flushing(s: System, h: Handle) {
    exists t: nat :: t < |s.threads| && Flushes(s, t, h)
  }

  /** Moves every notification that `moved` selects to `p`. */
  function Moved(place: seq<Place>, from: Place, p: Place): (r: seq<Place>)
    ensures |r| == |place|
    ensures forall k :: 0 <= k < |r| ==> r[k] == if place[k] == from then p else place[k]
  {
    seq(|place|, k requires 0 <= k < |place| => if place[k] == from then p else place[k])
  }

  function PendingDiscarded(place: seq<Place>): (r: seq<Place>)
    ensures |r| == |place|
    ensures forall k :: 0 <= k < |r| ==> r[k] == if place[k].InPending? then DiscardedByClose else place[k]
  {
    seq(|place|, k requires 0 <= k < |place| => if place[k].InPending? then DiscardedByClose else place[k])
  }

  function Logged(s: System, e: Event<Handle, Note>): System {
    s.(table := Apply(s.table, e), log := s.log + [e])
  }

  function WithThread(s: System, t: Thread, c: Control): System
    requires t < |s.threads|
  {
    s.(threads := s.threads[t := c])
  }

  function Placed(s: System, n: Note, p: Place): System {
    s.(place := if n < |s.place| then s.place[n := p] else s.place)
  }

  /** A direct delivery starts; it may get ahead of a flush still in progress for the same session. */
  function RouteDirect(s: System, t: Thread, id: SessionId, h: Handle): System
    requires t < |s.threads| && h < |s.sessions|
  {
    var n, r := |s.arrivals|, s.sessions[h];
    s.(sessions := s.sessions[h := r.(overtaken := r.overtaken || Flushing(s, h))],
       threads := s.threads[t := Entering(h, n, [])],
       arrivals := s.arrivals + [id],
       log := s.log + [Arrived(id, n)],
       place := s.place + [HeldBy(t)])
  }

  function RouteUnregistered(s: System, id: SessionId): System {
    var n, refuse := |s.arrivals|, RouteOutcome(s.table, id).Refused?;
    s.(table := AfterRoute(s.table, id, n),
       arrivals := s.arrivals + [id],
       refused := if refuse then s.refused + {n} else s.refused,
       log := s.log + [Arrived(id, n)],
       place := s.place + [if refuse then RefusedByPending else InPending(id)])
  }

  /** `routeSessionUpdate` up to and including its `sessionsMu` section; the table only ever holds existing handles. */
  function DoRoute(s: System, t: Thread, id: SessionId): System
    requires CanUseTable(s, t)
  {
    match RouteOutcome(s.table, id)
    case ToSession(h) => if h < |s.sessions| then RouteDirect(s, t, id, h) else s
    case _ => RouteUnregistered(s, id)
  }

  /** `newSession`: the object, its registration, and the flush list taken over. */
  function DoRegister(s: System, t: Thread, id: SessionId, bufferSize: int): System
    requires CanUseTable(s, t)
  {
    var h, flush := |s.sessions|, Pending(s.table, id);
    WithThread(Logged(s, Registered(id, h)), t, Continue(h, flush)).(
      sessions := s.sessions + [SessionRecord(id, Opened(bufferSize), [], [], flush, false)],
      place := Moved(s.place, InPending(id), HeldBy(t)))
  }

  function DoAdmit(s: System, t: Thread): System
    requires CanAdmit(s, t)
  {
    var c := s.threads[t];
    if s.sessions[c.h].state.closed then
      Placed(WithThread(s, t, Continue(c.h, c.rest)), c.note, DiscardedByClose).(discarded := s.discarded + {c.note})
    else
      WithThread(s, t, Dispatching(c.h, c.note, c.rest))
  }

  function RecordAfterSend(r: SessionRecord, n: Note): SessionRecord {
    r.(state := AfterSend(r.state, n), overflow := if SendFate(r.state).Dropped? then r.overflow + [n] else r.overflow)
  }

  function PlaceOf(fate: Fate, h: Handle): Place {
    match fate
    case Sent => InChannel(h)
    case Dropped => DroppedBy(h)
    case _ => DiscardedByClose
  }

  function DoSend(s: System, t: Thread): System
    requires CanSend(s, t)
  {
    var c := s.threads[t];
    var fate := SendFate(s.sessions[c.h].state);
    Placed(WithThread(s, t, Continue(c.h, c.rest)), c.note, PlaceOf(fate, c.h)).(
      sessions := s.sessions[c.h := RecordAfterSend(s.sessions[c.h], c.note)],
      discarded := if fate.Discarded? then s.discarded + {c.note} else s.discarded,
      panicked := s.panicked || fate.Panicked?)
  }

  function DoDeregister(s: System, t: Thread, h: Handle): System
    requires CanDeregister(s, t, h)
  {
    var id := s.sessions[h].id;
    WithThread(Logged(s, Deregistered(id)), t, TearingDown(h)).(
      discarded := s.discarded + (set n | n in Pending(s.table, id)),
      place := Moved(s.place, InPending(id), DiscardedByClose))
  }

  /** `session.close`, wherever it is called from. */
  function Closed(s: System, h: Handle): System
    requires h < |s.sessions|
  {
    var r := s.sessions[h];
    s.(sessions := s.sessions[h := r.(state := AfterClose(r.state))], panicked := s.panicked || ClosePanics(r.state))
  }

  function DoEndSweep(s: System, t: Thread): System
    requires CanEndSweep(s, t)
  {
    var crash := s.threads[t].crash;
    var swept := WithThread(Logged(s, Event.Swept(crash)), t, if crash then Marking else Idle);
    if !crash then swept else
      swept.(discarded := s.discarded + (set id, n | id in s.table.pending && n in s.table.pending[id] :: n),
             place := PendingDiscarded(s.place))
  }

  function DoReceive(s: System, h: Handle): System
    requires CanReceive(s, h)
  {
    var r := s.sessions[h];
    var n, ch := r.state.updates.buf[0], r.state.updates;
    Placed(s, n, Received(h)).(
      sessions := s.sessions[h := r.(received := r.received + [n],
          state := r.state.(updates := ch.(buf := ch.buf[1..])))])
  }

  function DoCloseSession(s: System, t: Thread): System
    requires CanCloseSession(s, t)
  {
    WithThread(Closed(s, s.threads[t].h), t, Idle)
  }

  function DoSweepOne(s: System, t: Thread, h: Handle): System
    requires CanSweepOne(s, t, h)
  {
    WithThread(Closed(s, h), t, s.threads[t].(todo := s.threads[t].todo - {h}))
  }

  function Next(s: System, step: Step): System
    requires Enabled(s, step)
  {
    match step
    case Route(t, id) => DoRoute(s, t, id)
    case Register(t, id, bufferSize) => DoRegister(s, t, id, bufferSize)
    case Admit(t) => DoAdmit(s, t)
    case Send(t) => DoSend(s, t)
    case Deregister(t, h) => DoDeregister(s, t, h)
    case CloseSession(t) => DoCloseSession(s, t)
    case BeginClose(t) => if s.clientClosed then s else WithThread(s, t, Awaiting(false)).(clientClosed := true)
    case ObserveExit(t) => if s.clientClosed then s else WithThread(s, t, Awaiting(true))
    case BeginSweep(t) => WithThread(s, t, Sweeping(s.threads[t].crash, s.table.sessions.Values))
    case SweepOne(t, h) => DoSweepOne(s, t, h)
    case EndSweep(t) => DoEndSweep(s, t)
    case MarkCrashed(t) => WithThread(s, t, Idle).(clientClosed := true, crashed := true)
    case Receive(h) => DoReceive(s, h)
  }

  predicate ValidRun(threadCount: nat, run: seq<Step>)
    decreases |run|, 0
  {
    run == [] ||
    (ValidRun(threadCount, run[..|run| - 1]) && Enabled(After(threadCount, run[..|run| - 1]), run[|run| - 1]))
  }

  /** The state after a run. */
  function After(threadCount: nat, run: seq<Step>): System
    requires ValidRun(threadCount, run)
    decreases |run|, 1
  {
    if run == [] then Initial(threadCount) else Next(After(threadCount, run[..|run| - 1]), run[|run| - 1])
  }

  predicate RoutedBy(run: seq<Step>, d: Thread) {
    forall i :: 0 <= i < |run| && run[i].Route? ==> run[i].t == d
  }

  /** Some run in which `d` does the routing ends in `s`. */
  ghost predicate Reachable(threadCount: nat, d: Thread, s: System) {
    exists run :: ValidRun(threadCount, run) && RoutedBy(run, d) && After(threadCount, run) == s
  }

  lemma ReachStart(threadCount: nat, d: Thread)
    ensures Reachable(threadCount, d, Initial(threadCount))
  {
    assert ValidRun(threadCount, []) && RoutedBy([], d) && After(threadCount, []) == Initial(threadCount);
  }

  lemma ReachStep(threadCount: nat, d: Thread, s: System, step: Step)
    requires Reachable(threadCount, d, s) && Enabled(s, step) && (step.Route? ==> step.t == d)
    ensures Reachable(threadCount, d, Next(s, step))
  {
    var run :| ValidRun(threadCount, run) && RoutedBy(run, d) && After(threadCount, run) == s;
    assert (run + [step])[..|run|] == run;
    assert ValidRun(threadCount, run + [step]) && RoutedBy(run + [step], d);
    assert After(threadCount, run + [step]) == Next(s, step);
  }

  lemma AfterLast(threadCount: nat, run: seq<Step>)
    requires ValidRun(threadCount, run) && run != []
    ensures var before := run[..|run| - 1];
            && ValidRun(threadCount, before) && Enabled(After(threadCount, before), run[|run| - 1])
            && After(threadCount, run) == Next(After(threadCount, before), run[|run| - 1])
  {
  }

  // ----- the states of a run

  /** Step `k` of the run is possible in the `k`-th state and leads to the next one. */
  predicate Follows(run: seq<Step>, states: seq<System>, k: nat) {
    k < |run| && k + 1 < |states| && Enabled(states[k], run[k]) && states[k + 1] == Next(states[k], run[k])
  }

  /** `states` are the states a run goes through: `states[k]` is the one before step `k`. */
  predicate IsTrace(threadCount: nat, run: seq<Step>, states: seq<System>) {
    && |states| == |run| + 1
    && states[0] == Initial(threadCount)
    && forall k: nat :: k < |run| ==> Follows(run, states, k)
  }

  /** Every run has its trace. */
  ghost function States(threadCount: nat, run: seq<Step>): seq<System>
    requires ValidRun(threadCount, run)
  {
    (if run == [] then [] else States(threadCount, run[..|run| - 1])) + [After(threadCount, run)]
  }

  lemma FollowsOn(run: seq<Step>, states: seq<System>, last: System, k: nat)
    requires run != [] && |states| == |run|
    requires if k < |run| - 1 then Follows(run[..|run| - 1], states, k)
             else k == |run| - 1 && Enabled(states[k], run[k]) && last == Next(states[k], run[k])
    ensures Follows(run, states + [last], k)
  {
  }

  lemma {:induction false} StatesTrace(threadCount: nat, run: seq<Step>)
    requires ValidRun(threadCount, run)
    ensures IsTrace(threadCount, run, States(threadCount, run))
    ensures States(threadCount, run)[|run|] == After(threadCount, run)
  {
    if run != [] {
      var before := run[..|run| - 1];
      StatesTrace(threadCount, before);
      AfterLast(threadCount, run);
      forall k: nat | k < |run| ensures Follows(run, States(threadCount, run), k) {
        assert k < |before| ==> Follows(before, States(threadCount, before), k);
        FollowsOn(run, States(threadCount, before), After(threadCount, run), k);
      }
    }
  }

  /** A trace tells what the state is after each prefix of its run. */
  lemma {:induction false} TracePrefix(threadCount: nat, run: seq<Step>, states: seq<System>, k: nat)
    requires IsTrace(threadCount, run, states) && k <= |run|
    ensures ValidRun(threadCount, run[..k]) && After(threadCount, run[..k]) == states[k]
  {
    if k == 0 {
      assert run[..0] == [];
    } else {
      TracePrefix(threadCount, run, states, k - 1);
      assert Follows(run, states, k - 1);
      assert run[..k][..k - 1] == run[..k - 1] && run[..k][k - 1] == run[k - 1];
    }
  }

  lemma AtStep(threadCount: nat, run: seq<Step>, states: seq<System>, k: nat)
    requires IsTrace(threadCount, run, states) && k < |run|
    ensures Enabled(states[k], run[k]) && states[k + 1] == Next(states[k], run[k])
  {
    assert Follows(run, states, k);
  }
}
