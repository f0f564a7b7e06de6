/**
  Deadlock freedom of the SDK's locking.  A thread is the sequence of lock
  operations it still has to do; locks are ranked, and every operation of the
  SDK only ever takes a lock ranked above all it holds.
*/
module LockOrder {

  type Thread = nat

  /** `cost.mu` is CostTracker's, `budget.mu` BudgetTracker's, `turns.mu` the turn counter's. */
  datatype Lock = ClientMu | SessionsMu | SessionMu(h: nat) | HooksMu | BudgetMu | CostMu | TurnsMu

  datatype Mode = Read | Write

  datatype Op = Acquire(lock: Lock, mode: Mode) | Release(lock: Lock)

  datatype ThreadState = ThreadState(held: map<Lock, Mode>, todo: seq<Op>)

  function Rank(l: Lock): nat {
    match l
    case ClientMu => 0
    case SessionsMu => 1
    case SessionMu(_) => 2
    case HooksMu => 3
    case BudgetMu => 4
    case CostMu => 5
    case TurnsMu => 6
  }

  const TOP_RANK := 7

  /**
    Run with `held` in hand, `p` takes locks in rank order, releases only what it holds, and ends with
    `after` in hand.
  */
  predicate Runs(held: map<Lock, Mode>, p: seq<Op>, after: map<Lock, Mode>)
    decreases |p|
  {
    if p == [] then held == after
    else
      match p[0]
      case Acquire(l, m) => (forall k :: k in held ==> Rank(k) < Rank(l)) && Runs(held[l := m], p[1..], after)
      case Release(l) => l in held && Runs(held - {l}, p[1..], after)
  }

  predicate InOrder(held: map<Lock, Mode>, todo: seq<Op>) {
    Runs(held, todo, map[])
  }

  predicate AllInOrder(ts: seq<ThreadState>) {
    forall t: nat :: t < |ts| ==> InOrder(ts[t].held, ts[t].todo)
  }

  predicate Wants(ts: seq<ThreadState>, t: Thread, l: Lock, m: Mode) {
    t < |ts| && ts[t].todo != [] && ts[t].todo[0] == Acquire(l, m)
  }

  predicate HoldsLock(ts: seq<ThreadState>, t: Thread, l: Lock) {
    t < |ts| && l in ts[t].held
  }

  /** A writer waits for every holder; a reader waits for a writer that holds the lock or is waiting for it. */
  ghost predicate Enabled(ts: seq<ThreadState>, t: Thread) {
    && t < |ts| && ts[t].todo != []
    && match ts[t].todo[0]
       case Release(_) => true
       case Acquire(l, Write) => forall u: nat :: !HoldsLock(ts, u, l)
       case Acquire(l, Read) =>
         && (forall u: nat :: HoldsLock(ts, u, l) ==> ts[u].held[l] == Read)
         && (forall u: nat :: u != t ==> !Wants(ts, u, l, Write))
  }

  function Advance(ts: seq<ThreadState>, t: Thread): seq<ThreadState>
    requires t < |ts| && ts[t].todo != []
  {
    var s := ts[t];
    ts[t := match s.todo[0]
            case Acquire(l, m) => ThreadState(s.held[l := m], s.todo[1..])
            case Release(l) => ThreadState(s.held - {l}, s.todo[1..])]
  }

  /** A holder of `l` that is itself blocked is blocked higher up; so some thread can move. */
  lemma HolderMoves(ts: seq<ThreadState>, u: Thread, l: Lock) returns (mover: Thread)
    requires AllInOrder(ts) && HoldsLock(ts, u, l)
    ensures Enabled(ts, mover)
    decreases TOP_RANK - Rank(l), 0
  {
    assert InOrder(ts[u].held, ts[u].todo);
    mover := SomeoneMoves(ts, u);
  }

  /** A thread held up on a lock nobody holds is a reader behind a writer, and that writer can move. */
  lemma WaitingWriter(ts: seq<ThreadState>, t: Thread, l: Lock) returns (mover: Thread)
    requires t < |ts| && ts[t].todo != [] && ts[t].todo[0].Acquire? && ts[t].todo[0].lock == l
    requires !Enabled(ts, t) && forall u: nat :: !HoldsLock(ts, u, l)
    ensures Enabled(ts, mover)
  {
    mover :| Wants(ts, mover, l, Write);
    assert Wants(ts, mover, l, Write);
    assert ts[mover].todo[0] == Acquire(l, Write);
  }

  /** Whatever `t` is about to do, some thread can move. */
  lemma SomeoneMoves(ts: seq<ThreadState>, t: Thread) returns (mover: Thread)
    requires AllInOrder(ts) && t < |ts| && ts[t].todo != []
    ensures Enabled(ts, mover)
    decreases TOP_RANK - (if ts[t].todo[0].Acquire? then Rank(ts[t].todo[0].lock) else TOP_RANK), 1
  {
    if Enabled(ts, t) {
      return t;
    }
    assert InOrder(ts[t].held, ts[t].todo);
    var l := ts[t].todo[0].lock;
    if u: nat :| HoldsLock(ts, u, l) {
      mover := HolderMoves(ts, u, l);
    } else {
      // a reader held up only by a waiting writer, which nothing holds up
      mover := WaitingWriter(ts, t, l);
    }
  }

  lemma AdvanceKeepsOrder(ts: seq<ThreadState>, t: Thread)
    requires AllInOrder(ts) && t < |ts| && ts[t].todo != []
    ensures AllInOrder(Advance(ts, t))
  {
    assert InOrder(ts[t].held, ts[t].todo);
  }

  /** The lock operations left to do, over all threads. */
  function Left(ts: seq<ThreadState>): nat {
    if ts == [] then 0 else |ts[0].todo| + Left(ts[1..])
  }

  lemma {:induction false} AdvanceUsesOne(ts: seq<ThreadState>, t: Thread)
    requires t < |ts| && ts[t].todo != []
    ensures Left(Advance(ts, t)) == Left(ts) - 1
  {
    if t == 0 {
      assert Advance(ts, t)[1..] == ts[1..];
    } else {
      AdvanceUsesOne(ts[1..], t - 1);
      assert Advance(ts, t)[1..] == Advance(ts[1..], t - 1);
    }
  }

  /** A schedule picks an enabled thread at every step. */
  ghost predicate Schedule(ts: seq<ThreadState>, picks: seq<Thread>)
    decreases |picks|
  {
    picks == [] || (Enabled(ts, picks[0]) && Schedule(Advance(ts, picks[0]), picks[1..]))
  }

  ghost function AfterSchedule(ts: seq<ThreadState>, picks: seq<Thread>): seq<ThreadState>
    requires Schedule(ts, picks)
    decreases |picks|
  {
    if picks == [] then ts else AfterSchedule(Advance(ts, picks[0]), picks[1..])
  }

  ghost predicate Finished(ts: seq<ThreadState>) {
    forall t: nat :: t < |ts| ==> ts[t] == ThreadState(map[], [])
  }

  /** No schedule gets stuck: it has either finished every thread, or can go on; and none is longer than the work. */
  lemma {:induction false} NoScheduleSticks(ts: seq<ThreadState>, picks: seq<Thread>)
    requires AllInOrder(ts) && Schedule(ts, picks)
    ensures var now := AfterSchedule(ts, picks); Finished(now) || exists t :: Enabled(now, t)
    ensures |picks| + Left(AfterSchedule(ts, picks)) == Left(ts)
    decreases |picks|
  {
    if picks == [] {
      if t: nat :| t < |ts| && ts[t].todo != [] {
        var mover := SomeoneMoves(ts, t);
      } else {
        forall t: nat | t < |ts| ensures ts[t] == ThreadState(map[], []) {
          assert InOrder(ts[t].held, ts[t].todo);
        }
      }
    } else {
      AdvanceKeepsOrder(ts, picks[0]);
      AdvanceUsesOne(ts, picks[0]);
      NoScheduleSticks(Advance(ts, picks[0]), picks[1..]);
    }
  }

  // ----- what the locks are for

  /** A lock that one thread holds for writing no other thread holds. */
  ghost predicate Exclusive(ts: seq<ThreadState>) {
    forall t: nat, u: nat, l: Lock :: t != u && HoldsLock(ts, t, l) && HoldsLock(ts, u, l) ==>
        ts[t].held[l] == Read
  }

  lemma AdvanceExclusive(ts: seq<ThreadState>, t: Thread)
    requires Exclusive(ts) && Enabled(ts, t)
    ensures Exclusive(Advance(ts, t))
  {
    var ts' := Advance(ts, t);
    forall u: nat, v: nat, l: Lock | u != v && HoldsLock(ts', u, l) && HoldsLock(ts', v, l)
      ensures ts'[u].held[l] == Read
    {
      var op := ts[t].todo[0];
      if !(op.Acquire? && op.lock == l) {
        assert HoldsLock(ts, u, l) && HoldsLock(ts, v, l) && ts'[u].held[l] == ts[u].held[l];
      } else if u == t {
        assert HoldsLock(ts, v, l) && op.mode == Read;
      } else {
        assert HoldsLock(ts, u, l);
      }
    }
  }

  /** Under every schedule a critical section entered for writing excludes every other thread. */
  lemma {:induction false} ScheduleExclusive(ts: seq<ThreadState>, picks: seq<Thread>)
    requires Exclusive(ts) && Schedule(ts, picks)
    ensures Exclusive(AfterSchedule(ts, picks))
    decreases |picks|
  {
    if picks != [] {
      AdvanceExclusive(ts, picks[0]);
      ScheduleExclusive(Advance(ts, picks[0]), picks[1..]);
    }
  }

  /** Why the order has to be strict for readers too: a second read of a lock behind a waiting writer never comes. */
  lemma ReadingTwiceDeadlocks(l: Lock, rest: seq<Op>)
    ensures var ts := [ThreadState(map[l := Read], [Acquire(l, Read)] + rest), ThreadState(map[], Section(l))];
            Exclusive(ts) && !Finished(ts) && forall t :: !Enabled(ts, t)
  {
    var ts := [ThreadState(map[l := Read], [Acquire(l, Read)] + rest), ThreadState(map[], Section(l))];
    assert HoldsLock(ts, 0, l);
    assert Wants(ts, 1, l, Write);
    assert ts[0].todo[0] == Acquire(l, Read);
  }

  // ----- the SDK's programs

  function Section(l: Lock): seq<Op> {
    [Acquire(l, Write), Release(l)]
  }

  function ReadSection(l: Lock): seq<Op> {
    [Acquire(l, Read), Release(l)]
  }

  /** A critical section with something done inside. */
  function Locked(l: Lock, m: Mode, body: seq<Op>): seq<Op> {
    [Acquire(l, m)] + (body + [Release(l)])
  }

  /** `Cancel` marks the session and then makes its RPC with nothing held. */
  function CancelProgram(h: nat): seq<Op> {
    Section(SessionMu(h))
  }

  /** The budget handler: record the usage, check the budget, cancel. */
  function BudgetHandler(h: nat): seq<Op> {
    Section(CostMu) + (Locked(BudgetMu, Read, Section(CostMu)) + CancelProgram(h))
  }

  function TurnsHandler(h: nat): seq<Op> {
    Section(TurnsMu) + CancelProgram(h)
  }

  /** Dispatching hooks: each event reads the hook table and then runs callbacks with nothing more held than before. */
  function Dispatches(callbacks: seq<seq<Op>>): seq<Op> {
    if callbacks == [] then [] else ReadSection(HooksMu) + (callbacks[0] + Dispatches(callbacks[1..]))
  }

  /** One delivery: what the hooks it dispatches do, what its handlers do, and what the drop callback does. */
  datatype Delivery = Delivery(hooks: seq<seq<Op>>, handlers: seq<Op>, dropped: seq<Op>)

  /** `deliver`: hooks and the drop callback run under the session lock, the handlers under none. */
  function DeliverProgram(h: nat, d: Delivery): seq<Op> {
    Locked(SessionMu(h), Write, Dispatches(d.hooks)) + (d.handlers + Locked(SessionMu(h), Write, d.dropped))
  }

  function FlushProgram(h: nat, flush: seq<Delivery>): seq<Op> {
    if flush == [] then [] else DeliverProgram(h, flush[0]) + FlushProgram(h, flush[1..])
  }

  /** `routeSessionUpdate` delivers at most one notification, `registerSession` any number. */
  function RouteProgram(h: nat, flush: seq<Delivery>): seq<Op> {
    Section(SessionsMu) + FlushProgram(h, flush)
  }

  function TeardownProgram(h: nat, hooks: seq<seq<Op>>): seq<Op> {
    Section(SessionsMu) + (Section(SessionMu(h)) + Dispatches(hooks))
  }

  function Each(hs: seq<nat>): seq<Op> {
    if hs == [] then [] else Section(SessionMu(hs[0])) + Each(hs[1..])
  }

  /** `Close` and the crash watcher close every session inside their `sessionsMu` section. */
  function CloseProgram(hs: seq<nat>, hooks: seq<seq<Op>>): seq<Op> {
    Section(ClientMu) + (Locked(SessionsMu, Write, Each(hs)) + Dispatches(hooks))
  }

  function WatchProgram(hs: seq<nat>): seq<Op> {
    Section(ClientMu) + (Locked(SessionsMu, Write, Each(hs)) + Section(ClientMu))
  }

  function CancelAllProgram(hs: seq<nat>): seq<Op> {
    ReadSection(SessionsMu) + Each(hs)
  }

  // ----- what the application's callbacks may do

  function Holding(l: Lock, m: Mode): map<Lock, Mode> {
    map[l := m]
  }

  /** Callbacks that, run with `held` in hand, take only locks above and give back what they take. */
  predicate CallbacksInOrder(held: map<Lock, Mode>, callbacks: seq<seq<Op>>) {
    forall i :: 0 <= i < |callbacks| ==> Runs(held, callbacks[i], held)
  }

  /** Hooks and the drop callback keep the order under the session lock, handlers with nothing held. */
  predicate DeliveryInOrder(h: nat, d: Delivery) {
    && CallbacksInOrder(Holding(SessionMu(h), Write), d.hooks)
    && InOrder(map[], d.handlers)
    && Runs(Holding(SessionMu(h), Write), d.dropped, Holding(SessionMu(h), Write))
  }

  predicate DeliveriesInOrder(h: nat, flush: seq<Delivery>) {
    forall i :: 0 <= i < |flush| ==> DeliveryInOrder(h, flush[i])
  }

  ghost predicate SdkProgram(p: seq<Op>) {
    || (exists h: nat, flush: seq<Delivery> :: DeliveriesInOrder(h, flush) && p == RouteProgram(h, flush))
    || (exists h: nat, hooks: seq<seq<Op>> :: CallbacksInOrder(map[], hooks) && p == TeardownProgram(h, hooks))
    || (exists hs: seq<nat>, hooks: seq<seq<Op>> :: CallbacksInOrder(map[], hooks) && p == CloseProgram(hs, hooks))
    || (exists hs: seq<nat> :: p == WatchProgram(hs))
    || (exists hs: seq<nat> :: p == CancelAllProgram(hs))
  }

  // ----- the SDK's programs keep the order

  lemma {:induction false} RunsConcat(held: map<Lock, Mode>, p: seq<Op>, mid: map<Lock, Mode>, q: seq<Op>,
      after: map<Lock, Mode>)
    requires Runs(held, p, mid) && Runs(mid, q, after)
    ensures Runs(held, p + q, after)
    decreases |p|
  {
    if p == [] {
      assert p + q == q;
    } else {
      assert (p + q)[1..] == p[1..] + q;
      match p[0]
      case Acquire(l, m) => RunsConcat(held[l := m], p[1..], mid, q, after);
      case Release(l) => RunsConcat(held - {l}, p[1..], mid, q, after);
    }
  }

  /** A section of a lock above all that is held, around a body that gives back what it takes. */
  lemma LockedRuns(held: map<Lock, Mode>, l: Lock, m: Mode, body: seq<Op>)
    requires (forall k :: k in held ==> Rank(k) < Rank(l)) && Runs(held[l := m], body, held[l := m])
    ensures Runs(held, Locked(l, m, body), held)
  {
    assert l !in held && held[l := m] - {l} == held;
    var release := [Release(l)];
    assert release[1..] == [] && Runs(held, [], held);
    assert release[0] == Release(l) && l in held[l := m];
    assert Runs(held[l := m], release, held);
    RunsConcat(held[l := m], body, held[l := m], [Release(l)], held);
    assert Locked(l, m, body)[1..] == body + [Release(l)];
  }

  lemma SectionRuns(held: map<Lock, Mode>, l: Lock)
    requires forall k :: k in held ==> Rank(k) < Rank(l)
    ensures Runs(held, Section(l), held) && Runs(held, ReadSection(l), held)
  {
    LockedRuns(held, l, Write, []);
    LockedRuns(held, l, Read, []);
    assert Locked(l, Write, []) == Section(l) && Locked(l, Read, []) == ReadSection(l);
  }

  lemma {:induction false} EachRuns(held: map<Lock, Mode>, hs: seq<nat>)
    requires forall k :: k in held ==> Rank(k) < Rank(SessionMu(0))
    ensures Runs(held, Each(hs), held)
  {
    if hs != [] {
      SectionRuns(held, SessionMu(hs[0]));
      EachRuns(held, hs[1..]);
      RunsConcat(held, Section(SessionMu(hs[0])), held, Each(hs[1..]), held);
    }
  }

  lemma {:induction false} DispatchesRun(held: map<Lock, Mode>, callbacks: seq<seq<Op>>)
    requires (forall k :: k in held ==> Rank(k) < Rank(HooksMu)) && CallbacksInOrder(held, callbacks)
    ensures Runs(held, Dispatches(callbacks), held)
  {
    if callbacks != [] {
      SectionRuns(held, HooksMu);
      DispatchesRun(held, callbacks[1..]);
      RunsConcat(held, callbacks[0], held, Dispatches(callbacks[1..]), held);
      RunsConcat(held, ReadSection(HooksMu), held, callbacks[0] + Dispatches(callbacks[1..]), held);
    }
  }

  lemma DeliverInOrder(h: nat, d: Delivery)
    requires DeliveryInOrder(h, d)
    ensures InOrder(map[], DeliverProgram(h, d))
  {
    var none: map<Lock, Mode> := map[];
    DispatchesRun(Holding(SessionMu(h), Write), d.hooks);
    LockedRuns(none, SessionMu(h), Write, Dispatches(d.hooks));
    LockedRuns(none, SessionMu(h), Write, d.dropped);
    RunsConcat(none, d.handlers, none, Locked(SessionMu(h), Write, d.dropped), none);
    RunsConcat(none, Locked(SessionMu(h), Write, Dispatches(d.hooks)), none,
        d.handlers + Locked(SessionMu(h), Write, d.dropped), none);
  }

  lemma {:induction false} FlushInOrder(h: nat, flush: seq<Delivery>)
    requires DeliveriesInOrder(h, flush)
    ensures InOrder(map[], FlushProgram(h, flush))
  {
    if flush != [] {
      DeliverInOrder(h, flush[0]);
      FlushInOrder(h, flush[1..]);
      RunsConcat(map[], DeliverProgram(h, flush[0]), map[], FlushProgram(h, flush[1..]), map[]);
    }
  }

  lemma BudgetHandlerInOrder(h: nat)
    ensures InOrder(map[], BudgetHandler(h))
  {
    var none: map<Lock, Mode> := map[];
    SectionRuns(none, CostMu);
    SectionRuns(none, SessionMu(h));
    SectionRuns(none[BudgetMu := Read], CostMu);
    LockedRuns(none, BudgetMu, Read, Section(CostMu));
    RunsConcat(none, Locked(BudgetMu, Read, Section(CostMu)), none, CancelProgram(h), none);
    RunsConcat(none, Section(CostMu), none, Locked(BudgetMu, Read, Section(CostMu)) + CancelProgram(h), none);
  }

  /** The handlers the SDK itself installs keep the order, cancelling their own session included. */
  lemma OwnHandlersInOrder(h: nat)
    ensures InOrder(map[], BudgetHandler(h)) && InOrder(map[], TurnsHandler(h))
  {
    BudgetHandlerInOrder(h);
    SectionRuns(map[], TurnsMu);
    SectionRuns(map[], SessionMu(h));
    RunsConcat(map[], Section(TurnsMu), map[], CancelProgram(h), map[]);
  }

  lemma TeardownInOrder(h: nat, hooks: seq<seq<Op>>)
    requires CallbacksInOrder(map[], hooks)
    ensures InOrder(map[], TeardownProgram(h, hooks))
  {
    SectionRuns(map[], SessionsMu);
    SectionRuns(map[], SessionMu(h));
    DispatchesRun(map[], hooks);
    RunsConcat(map[], Section(SessionMu(h)), map[], Dispatches(hooks), map[]);
    RunsConcat(map[], Section(SessionsMu), map[], Section(SessionMu(h)) + Dispatches(hooks), map[]);
  }

  /** The sweep of every session, after the client's own section and before something else. */
  lemma SweepInOrder(hs: seq<nat>, last: seq<Op>)
    requires InOrder(map[], last)
    ensures InOrder(map[], Section(ClientMu) + (Locked(SessionsMu, Write, Each(hs)) + last))
  {
    var none: map<Lock, Mode> := map[];
    SectionRuns(none, ClientMu);
    EachRuns(none[SessionsMu := Write], hs);
    LockedRuns(none, SessionsMu, Write, Each(hs));
    RunsConcat(none, Locked(SessionsMu, Write, Each(hs)), none, last, none);
    RunsConcat(none, Section(ClientMu), none, Locked(SessionsMu, Write, Each(hs)) + last, none);
  }

  lemma SdkProgramInOrder(p: seq<Op>)
    requires SdkProgram(p)
    ensures InOrder(map[], p)
  {
    if h: nat, flush: seq<Delivery> :| DeliveriesInOrder(h, flush) && p == RouteProgram(h, flush) {
      FlushInOrder(h, flush);
      SectionRuns(map[], SessionsMu);
      RunsConcat(map[], Section(SessionsMu), map[], FlushProgram(h, flush), map[]);
    } else if h: nat, hooks: seq<seq<Op>> :| CallbacksInOrder(map[], hooks) && p == TeardownProgram(h, hooks) {
      TeardownInOrder(h, hooks);
    } else if hs: seq<nat>, hooks: seq<seq<Op>> :| CallbacksInOrder(map[], hooks) && p == CloseProgram(hs, hooks) {
      DispatchesRun(map[], hooks);
      SweepInOrder(hs, Dispatches(hooks));
    } else if hs: seq<nat> :| p == WatchProgram(hs) {
      SectionRuns(map[], ClientMu);
      SweepInOrder(hs, Section(ClientMu));
    } else {
      var hs: seq<nat> :| p == CancelAllProgram(hs);
      EachRuns(map[], hs);
      SectionRuns(map[], SessionsMu);
      RunsConcat(map[], ReadSection(SessionsMu), map[], Each(hs), map[]);
    }
  }

  // ----- which locks the SDK's own programs take, and which of them inside another

  /** The locks a program takes, in order. */
  function Takes(p: seq<Op>): seq<Op> {
    if p == [] then []
    else if p[0].Acquire? then [p[0]] + Takes(p[1..])
    else Takes(p[1..])
  }

  /** The pairs of a lock held and a lock taken while it is, for a program started with `held` in hand. */
  function Nests(held: set<Lock>, p: seq<Op>): set<(Lock, Lock)>
    decreases |p|
  {
    if p == [] then {}
    else
      match p[0]
      case Acquire(l, _) => (set k | k in held :: (k, l)) + Nests(held + {l}, p[1..])
      case Release(l) => Nests(held - {l}, p[1..])
  }

  /** What is in hand after the program. */
  function HeldAfter(held: set<Lock>, p: seq<Op>): set<Lock>
    decreases |p|
  {
    if p == [] then held
    else
      match p[0]
      case Acquire(l, _) => HeldAfter(held + {l}, p[1..])
      case Release(l) => HeldAfter(held - {l}, p[1..])
  }

  lemma {:induction false} TakesConcat(p: seq<Op>, q: seq<Op>)
    ensures Takes(p + q) == Takes(p) + Takes(q)
  {
    if p == [] {
      assert p + q == q;
    } else {
      assert (p + q)[1..] == p[1..] + q;
      TakesConcat(p[1..], q);
    }
  }

  lemma {:induction false} NestsConcat(held: set<Lock>, p: seq<Op>, q: seq<Op>)
    ensures Nests(held, p + q) == Nests(held, p) + Nests(HeldAfter(held, p), q)
    ensures HeldAfter(held, p + q) == HeldAfter(HeldAfter(held, p), q)
    decreases |p|
  {
    if p == [] {
      assert p + q == q;
    } else {
      assert (p + q)[1..] == p[1..] + q;
      match p[0]
      case Acquire(l, _) => NestsConcat(held + {l}, p[1..], q);
      case Release(l) => NestsConcat(held - {l}, p[1..], q);
    }
  }

  /** What a program does with locks, seen from outside: what it takes, what it nests, and that it lets go of all. */
  predicate Locks(held: set<Lock>, p: seq<Op>, takes: seq<Op>, nests: set<(Lock, Lock)>) {
    Takes(p) == takes && Nests(held, p) == nests && HeldAfter(held, p) == held
  }

  lemma LocksConcat(held: set<Lock>, p: seq<Op>, q: seq<Op>, t: seq<Op>, n: set<(Lock, Lock)>, t': seq<Op>,
      n': set<(Lock, Lock)>)
    requires Locks(held, p, t, n) && Locks(held, q, t', n')
    ensures Locks(held, p + q, t + t', n + n')
  {
    TakesConcat(p, q);
    NestsConcat(held, p, q);
  }

  lemma OneOp(held: set<Lock>, op: Op)
    ensures Takes([op]) == if op.Acquire? then [op] else []
    ensures HeldAfter(held, [op]) == if op.Acquire? then held + {op.lock} else held - {op.lock}
    ensures Nests(held, [op]) == if op.Acquire? then set k | k in held :: (k, op.lock) else {}
  {
    assert [op][1..] == [];
    assert Takes([]) == [] && HeldAfter(held, []) == held;
    assert [op] + [] == [op];
  }

  /** A section adds its own lock, outside everything its body takes and inside everything held. */
  lemma LocksSection(held: set<Lock>, l: Lock, m: Mode, body: seq<Op>, t: seq<Op>, n: set<(Lock, Lock)>)
    requires l !in held && Locks(held + {l}, body, t, n)
    ensures Locks(held, Locked(l, m, body), [Acquire(l, m)] + t, (set k | k in held :: (k, l)) + n)
  {
    var acquire, release := [Acquire(l, m)], [Release(l)];
    OneOp(held, Acquire(l, m));
    OneOp(held + {l}, Release(l));
    TakesConcat(acquire, body + release);
    TakesConcat(body, release);
    NestsConcat(held, acquire, body + release);
    NestsConcat(held + {l}, body, release);
    assert held + {l} - {l} == held;
    assert t + [] == t;
  }

  lemma LocksBare(held: set<Lock>, l: Lock, m: Mode)
    requires l !in held
    ensures Locks(held, Locked(l, m, []), [Acquire(l, m)], set k | k in held :: (k, l))
    ensures Section(l) == Locked(l, Write, []) && ReadSection(l) == Locked(l, Read, [])
  {
    assert Locks(held + {l}, [], [], {});
    LocksSection(held, l, m, [], [], {});
    assert [Acquire(l, m)] + [] == [Acquire(l, m)];
    assert [] + [Release(l)] == [Release(l)];
  }

  /** Taking the lock of each session in turn. */
  function SessionLocks(hs: seq<nat>): seq<Op> {
    seq(|hs|, i requires 0 <= i < |hs| => Acquire(SessionMu(hs[i]), Write))
  }

  lemma {:induction false} EachLocks(held: set<Lock>, hs: seq<nat>)
    requires forall l :: l in held ==> !l.SessionMu?
    ensures Locks(held, Each(hs), SessionLocks(hs), set k, h | k in held && h in hs :: (k, SessionMu(h)))
  {
    if hs != [] {
      var first, rest := SessionMu(hs[0]), hs[1..];
      var outer := set k, h | k in held && h in rest :: (k, SessionMu(h));
      LocksBare(held, first, Write);
      EachLocks(held, rest);
      LocksConcat(held, Section(first), Each(rest), [Acquire(first, Write)], set k | k in held :: (k, first),
                  SessionLocks(rest), outer);
      assert SessionLocks(hs) == [Acquire(first, Write)] + SessionLocks(rest);
      assert (set k, h | k in held && h in hs :: (k, SessionMu(h))) == (set k | k in held :: (k, first)) + outer;
    }
  }

  /** The pairs of `sessionsMu` and the lock of one of these sessions. */
  function UnderTable(hs: seq<nat>): set<(Lock, Lock)> {
    set h | h in hs :: (SessionsMu, SessionMu(h))
  }

  lemma SweepLocks(hs: seq<nat>)
    ensures Locks({}, Section(ClientMu) + Locked(SessionsMu, Write, Each(hs)),
                  [Acquire(ClientMu, Write), Acquire(SessionsMu, Write)] + SessionLocks(hs), UnderTable(hs))
  {
    LocksBare({}, ClientMu, Write);
    EachLocks({SessionsMu}, hs);
    assert (set k, h | k in {SessionsMu} && h in hs :: (k, SessionMu(h))) == UnderTable(hs);
    assert {} + {SessionsMu} == {SessionsMu};
    LocksSection({}, SessionsMu, Write, Each(hs), SessionLocks(hs), UnderTable(hs));
    LocksConcat({}, Section(ClientMu), Locked(SessionsMu, Write, Each(hs)), [Acquire(ClientMu, Write)], {},
                [Acquire(SessionsMu, Write)] + SessionLocks(hs), UnderTable(hs));
    assert [Acquire(ClientMu, Write)] + ([Acquire(SessionsMu, Write)] + SessionLocks(hs)) ==
           [Acquire(ClientMu, Write), Acquire(SessionsMu, Write)] + SessionLocks(hs);
  }

  /**
    `Close` and the crash watcher close the sessions inside their `sessionsMu` section, after letting
    go of the client's lock, which the watcher takes again at the end.
  */
  lemma SweepsNestSessions(hs: seq<nat>)
    ensures Locks({}, CloseProgram(hs, []),
                  [Acquire(ClientMu, Write), Acquire(SessionsMu, Write)] + SessionLocks(hs), UnderTable(hs))
    ensures Locks({}, WatchProgram(hs),
                  [Acquire(ClientMu, Write), Acquire(SessionsMu, Write)] + SessionLocks(hs) +
                      [Acquire(ClientMu, Write)],
                  UnderTable(hs))
  {
    var sweep := Section(ClientMu) + Locked(SessionsMu, Write, Each(hs));
    var takes := [Acquire(ClientMu, Write), Acquire(SessionsMu, Write)] + SessionLocks(hs);
    SweepLocks(hs);
    assert CloseProgram(hs, []) == sweep;
    LocksBare({}, ClientMu, Write);
    LocksConcat({}, sweep, Section(ClientMu), takes, UnderTable(hs), [Acquire(ClientMu, Write)], {});
    assert WatchProgram(hs) == sweep + Section(ClientMu);
  }

  /** A delivery in which no callback takes a lock. */
  const QUIET := Delivery([], [], [])

  lemma QuietDelivery(h: nat)
    ensures Locks({}, DeliverProgram(h, QUIET), [Acquire(SessionMu(h), Write), Acquire(SessionMu(h), Write)], {})
  {
    LocksBare({}, SessionMu(h), Write);
    LocksConcat({}, Section(SessionMu(h)), Section(SessionMu(h)), [Acquire(SessionMu(h), Write)], {},
                [Acquire(SessionMu(h), Write)], {});
    assert DeliverProgram(h, QUIET) == Section(SessionMu(h)) + Section(SessionMu(h));
  }

  /** Callbacks that take no lock. */
  function Bare(m: nat): seq<seq<Op>> {
    seq(m, _ => [])
  }

  function Repeated(op: Op, m: nat): seq<Op> {
    seq(m, _ => op)
  }

  /** Each hook event reads the hook table, inside whatever is held. */
  lemma {:induction false} DispatchLocks(held: set<Lock>, m: nat)
    requires HooksMu !in held
    ensures Locks(held, Dispatches(Bare(m)), Repeated(Acquire(HooksMu, Read), m),
                  if m == 0 then {} else set k | k in held :: (k, HooksMu))
  {
    if m > 0 {
      DispatchLocks(held, m - 1);
      LocksBare(held, HooksMu, Read);
      assert Bare(m)[1..] == Bare(m - 1);
      assert Dispatches(Bare(m)) == ReadSection(HooksMu) + ([] + Dispatches(Bare(m - 1)));
      assert [] + Dispatches(Bare(m - 1)) == Dispatches(Bare(m - 1));
      LocksConcat(held, ReadSection(HooksMu), Dispatches(Bare(m - 1)), [Acquire(HooksMu, Read)],
                  set k | k in held :: (k, HooksMu), Repeated(Acquire(HooksMu, Read), m - 1),
                  if m == 1 then {} else set k | k in held :: (k, HooksMu));
      assert [Acquire(HooksMu, Read)] + Repeated(Acquire(HooksMu, Read), m - 1) == Repeated(Acquire(HooksMu, Read), m);
    }
  }

  /** A delivery reads the hook table once for each hook event, inside the first of its two session sections. */
  lemma HooksUnderSession(h: nat, m: nat)
    ensures Locks({}, DeliverProgram(h, Delivery(Bare(m), [], [])),
                  [Acquire(SessionMu(h), Write)] + Repeated(Acquire(HooksMu, Read), m) + [Acquire(SessionMu(h), Write)],
                  if m == 0 then {} else {(SessionMu(h), HooksMu)})
  {
    var first, takes := SessionMu(h), Repeated(Acquire(HooksMu, Read), m);
    var nests: set<(Lock, Lock)> := if m == 0 then {} else {(first, HooksMu)};
    assert {} + {first} == {first};
    DispatchLocks({first}, m);
    assert (set k | k in {first} :: (k, HooksMu)) == {(first, HooksMu)};
    LocksSection({}, first, Write, Dispatches(Bare(m)), takes, nests);
    LocksBare({}, first, Write);
    LocksConcat({}, Locked(first, Write, Dispatches(Bare(m))), Locked(first, Write, []),
                [Acquire(first, Write)] + takes, nests, [Acquire(first, Write)], {});
    assert [] + Locked(first, Write, []) == Locked(first, Write, []);
  }

  /** Two acquisitions of the session's lock for every notification. */
  lemma {:induction false} FlushLocks(h: nat, n: nat)
    ensures Locks({}, FlushProgram(h, seq(n, _ => QUIET)), seq(2 * n, _ => Acquire(SessionMu(h), Write)), {})
  {
    if n > 0 {
      QuietDelivery(h);
      FlushLocks(h, n - 1);
      assert seq(n, _ => QUIET)[1..] == seq(n - 1, _ => QUIET);
      LocksConcat({}, DeliverProgram(h, QUIET), FlushProgram(h, seq(n - 1, _ => QUIET)),
                  [Acquire(SessionMu(h), Write), Acquire(SessionMu(h), Write)], {},
                  seq(2 * (n - 1), _ => Acquire(SessionMu(h), Write)), {});
      assert [Acquire(SessionMu(h), Write), Acquire(SessionMu(h), Write)] +
             seq(2 * (n - 1), _ => Acquire(SessionMu(h), Write)) == seq(2 * n, _ => Acquire(SessionMu(h), Write));
    }
  }

  /**
    Apart from those two no operation takes a session's lock while it holds `sessionsMu`: routing and
    registration deliver, rollback closes and `CancelAll` cancels after letting go of the table, and
    each notification takes the session's lock twice.  The budget handler alone nests, cost under
    budget.
  */
  lemma OthersLetGoFirst(h: nat, n: nat, hs: seq<nat>)
    ensures Locks({}, RouteProgram(h, seq(n, _ => QUIET)),
                  [Acquire(SessionsMu, Write)] + seq(2 * n, _ => Acquire(SessionMu(h), Write)), {})
    ensures Locks({}, TeardownProgram(h, []), [Acquire(SessionsMu, Write), Acquire(SessionMu(h), Write)], {})
    ensures Locks({}, CancelAllProgram(hs), [Acquire(SessionsMu, Read)] + SessionLocks(hs), {})
    ensures Locks({}, TurnsHandler(h), [Acquire(TurnsMu, Write), Acquire(SessionMu(h), Write)], {})
    ensures Locks({}, BudgetHandler(h),
                  [Acquire(CostMu, Write), Acquire(BudgetMu, Read), Acquire(CostMu, Write),
                   Acquire(SessionMu(h), Write)], {(BudgetMu, CostMu)})
  {
    var session := [Acquire(SessionMu(h), Write)];
    LocksBare({}, SessionMu(h), Write);
    FlushLocks(h, n);
    EachLocks({}, hs);
    SectionThen(SessionsMu, FlushProgram(h, seq(n, _ => QUIET)), seq(2 * n, _ => Acquire(SessionMu(h), Write)));
    SectionThen(SessionsMu, Section(SessionMu(h)), session);
    SectionThen(SessionsMu, Each(hs), SessionLocks(hs));
    SectionThen(TurnsMu, Section(SessionMu(h)), session);
    assert TeardownProgram(h, []) == Section(SessionsMu) + Section(SessionMu(h));
    BudgetLocks(h);
  }

  lemma SectionThen(l: Lock, rest: seq<Op>, t: seq<Op>)
    requires Locks({}, rest, t, {})
    ensures Locks({}, Section(l) + rest, [Acquire(l, Write)] + t, {})
    ensures Locks({}, ReadSection(l) + rest, [Acquire(l, Read)] + t, {})
  {
    LocksBare({}, l, Write);
    LocksBare({}, l, Read);
    LocksConcat({}, Section(l), rest, [Acquire(l, Write)], {}, t, {});
    LocksConcat({}, ReadSection(l), rest, [Acquire(l, Read)], {}, t, {});
  }

  lemma BudgetLocks(h: nat)
    ensures Locks({}, BudgetHandler(h),
                  [Acquire(CostMu, Write), Acquire(BudgetMu, Read), Acquire(CostMu, Write),
                   Acquire(SessionMu(h), Write)], {(BudgetMu, CostMu)})
  {
    var record, check := [Acquire(CostMu, Write)], [Acquire(BudgetMu, Read), Acquire(CostMu, Write)];
    var cancel := [Acquire(SessionMu(h), Write)];
    LocksBare({}, CostMu, Write);
    LocksBare({BudgetMu}, CostMu, Write);
    LocksBare({}, SessionMu(h), Write);
    assert (set k | k in {BudgetMu} :: (k, CostMu)) == {(BudgetMu, CostMu)};
    assert {} + {BudgetMu} == {BudgetMu};
    LocksSection({}, BudgetMu, Read, Section(CostMu), record, {(BudgetMu, CostMu)});
    assert [Acquire(BudgetMu, Read)] + record == check;
    LocksConcat({}, Locked(BudgetMu, Read, Section(CostMu)), CancelProgram(h), check, {(BudgetMu, CostMu)}, cancel, {});
    LocksConcat({}, Section(CostMu), Locked(BudgetMu, Read, Section(CostMu)) + CancelProgram(h), record, {},
                check + cancel, {(BudgetMu, CostMu)});
    assert record + (check + cancel) == [Acquire(CostMu, Write), Acquire(BudgetMu, Read), Acquire(CostMu, Write),
                                         Acquire(SessionMu(h), Write)];
  }

  /** Threads about to run these programs. */
  function Threads(programs: seq<seq<Op>>): seq<ThreadState> {
    seq(|programs|, i requires 0 <= i < |programs| => ThreadState(map[], programs[i]))
  }

  /** However many SDK operations run at once, no schedule of their lock operations gets stuck, and all finish. */
  lemma {:induction false} SdkNeverDeadlocks(programs: seq<seq<Op>>, picks: seq<Thread>)
    requires forall i :: 0 <= i < |programs| ==> SdkProgram(programs[i])
    requires Schedule(Threads(programs), picks)
    ensures var now := AfterSchedule(Threads(programs), picks); Finished(now) || exists t :: Enabled(now, t)
    ensures |picks| <= Left(Threads(programs))
  {
    var ts := Threads(programs);
    forall t: nat | t < |ts| ensures InOrder(ts[t].held, ts[t].todo) {
      SdkProgramInOrder(programs[t]);
    }
    NoScheduleSticks(ts, picks);
  }

  /** The condition on hooks is needed: a hook that cancels its own session blocks for good under the session lock. */
  lemma HookThatCancelsDeadlocks(h: nat)
    ensures var ts := [ThreadState(map[], Locked(SessionMu(h), Write, CancelProgram(h)))];
            Enabled(ts, 0) && !Finished(Advance(ts, 0)) && forall t :: !Enabled(Advance(ts, 0), t)
  {
    var ts := [ThreadState(map[], Locked(SessionMu(h), Write, CancelProgram(h)))];
    assert Advance(ts, 0)[0].todo[0] == Acquire(SessionMu(h), Write);
    assert HoldsLock(Advance(ts, 0), 0, SessionMu(h));
  }
}
