/**
  Per-session cost and usage, and their aggregate.  Amounts are exact here; the
  source's are float64.
*/
module CostTracking {
  import opened Wrappers

  datatype SessionCost = SessionCost(
    costUsd: real,
    currency: string,
    inputTokens: int,
    outputTokens: int,
    cachedReadTokens: int,
    cachedWriteTokens: int,
    thoughtTokens: int,
    totalTokens: int,
    contextSize: int,
    contextUsed: int
  )

  const ZERO_COST := SessionCost(0.0, "", 0, 0, 0, 0, 0, 0, 0, 0)

  datatype Cost = Cost(amount: real, currency: string)

  datatype UsageUpdate = UsageUpdate(cost: Option<Cost>, size: int, used: int)

  datatype Usage = Usage(
    inputTokens: int,
    outputTokens: int,
    cachedReadTokens: Option<int>,
    cachedWriteTokens: Option<int>,
    thoughtTokens: Option<int>,
    totalTokens: int
  )

  datatype CostSnapshot = CostSnapshot(
    totalCostUsd: real,
    currencies: seq<string>,
    sessions: nat,
    inputTokens: int,
    outputTokens: int,
    cachedReadTokens: int,
    cachedWriteTokens: int,
    thoughtTokens: int,
    totalTokens: int,
    contextWindowSize: int,
    contextWindowUsed: int
  )

  /** What one session's record can be told; a loaded snapshot replaces it. */
  datatype Event = Updated(update: UsageUpdate) | Prompted(usage: Usage) | Loaded(saved: CostSnapshot)

  function AfterUpdate(c: SessionCost, u: UsageUpdate): SessionCost {
    var priced := if u.cost.Some? then c.(costUsd := u.cost.value.amount, currency := u.cost.value.currency) else c;
    priced.(contextSize := u.size, contextUsed := u.used)
  }

  function MaxOption(x: int, y: Option<int>): int {
    if y.Some? then Max(x, y.value) else x
  }

  function AfterPrompt(c: SessionCost, u: Usage): SessionCost {
    c.(inputTokens := Max(c.inputTokens, u.inputTokens),
       outputTokens := Max(c.outputTokens, u.outputTokens),
       cachedReadTokens := MaxOption(c.cachedReadTokens, u.cachedReadTokens),
       cachedWriteTokens := MaxOption(c.cachedWriteTokens, u.cachedWriteTokens),
       thoughtTokens := MaxOption(c.thoughtTokens, u.thoughtTokens),
       totalTokens := Max(c.totalTokens, u.totalTokens))
  }

  function SnapshotOf(c: SessionCost): CostSnapshot {
    var currencies := if c.currency != "" then [c.currency] else [];
    CostSnapshot(c.costUsd, currencies, 1, c.inputTokens, c.outputTokens, c.cachedReadTokens, c.cachedWriteTokens,
                 c.thoughtTokens, c.totalTokens, c.contextSize, c.contextUsed)
  }

  function RecordOf(s: CostSnapshot): SessionCost {
    var currency := if s.currencies != [] then s.currencies[0] else "";
    SessionCost(s.totalCostUsd, currency, s.inputTokens, s.outputTokens, s.cachedReadTokens, s.cachedWriteTokens,
                s.thoughtTokens, s.totalTokens, s.contextWindowSize, s.contextWindowUsed)
  }

  function AfterEvent(c: SessionCost, e: Event): SessionCost {
    match e
    case Updated(u) => AfterUpdate(c, u)
    case Prompted(u) => AfterPrompt(c, u)
    case Loaded(saved) => RecordOf(saved)
  }

  type Sessions = map<SessionId, SessionCost>

  /** A session not seen yet reads as the zero record. */
  function Record(m: Sessions, id: SessionId): SessionCost {
    if id in m then m[id] else ZERO_COST
  }

  function Observe(m: Sessions, id: SessionId, e: Event): Sessions {
    m[id := AfterEvent(Record(m, id), e)]
  }

  // ----- the aggregate

  /** A session's part of the total: its cost counts only in dollars, or in no stated currency. */
  function Contribution(c: SessionCost): real {
    if c.currency == "" || c.currency == "USD" then c.costUsd else 0.0
  }

  function WithCurrency(seen: seq<string>, currency: string): seq<string> {
    if currency == "" || currency in seen then seen else seen + [currency]
  }

  /** One round of the aggregation loop. */
  function Accumulate(s: CostSnapshot, c: SessionCost): CostSnapshot {
    CostSnapshot(
      s.totalCostUsd + Contribution(c),
      WithCurrency(s.currencies, c.currency),
      s.sessions,
      s.inputTokens + c.inputTokens,
      s.outputTokens + c.outputTokens,
      s.cachedReadTokens + c.cachedReadTokens,
      s.cachedWriteTokens + c.cachedWriteTokens,
      s.thoughtTokens + c.thoughtTokens,
      s.totalTokens + c.totalTokens,
      Max(s.contextWindowSize, c.contextSize),
      s.contextWindowUsed + c.contextUsed)
  }

  function Empty(sessions: nat): CostSnapshot {
    CostSnapshot(0.0, [], sessions, 0, 0, 0, 0, 0, 0, 0, 0)
  }

  /** The aggregate of records taken in a given order. */
  function Aggregate(cs: seq<SessionCost>, sessions: nat): CostSnapshot {
    if cs == [] then Empty(sessions) else Accumulate(Aggregate(cs[..|cs| - 1], sessions), cs[|cs| - 1])
  }

  function Records(m: Sessions, order: seq<SessionId>): seq<SessionCost>
    requires forall id :: id in order ==> id in m
  {
    seq(|order|, i requires 0 <= i < |order| => m[order[i]])
  }

  /** `order` visits every session of `m` once, as iteration over a Go map does, in an order of its choosing. */
  ghost predicate Visits(m: Sessions, order: seq<SessionId>) {
    && (forall id :: id in order <==> id in m)
    && forall i, j :: 0 <= i < j < |order| ==> order[i] != order[j]
  }

  /** Snapshots that differ at most in the order of their currencies. */
  predicate SameTotals(a: CostSnapshot, b: CostSnapshot) {
    a.(currencies := b.currencies) == b && multiset(a.currencies) == multiset(b.currencies)
  }

  class CostTracker {
    var sessions: Sessions

    constructor ()
      ensures sessions == map[]
    {
      sessions := map[];
    }

    method RecordUsageUpdate(id: SessionId, u: UsageUpdate)
      modifies this
      ensures sessions == Observe(old(sessions), id, Updated(u))
    {
      var cur := if id in sessions then sessions[id] else ZERO_COST;
      if u.cost.Some? {
        cur := cur.(costUsd := u.cost.value.amount, currency := u.cost.value.currency);
      }
      cur := cur.(contextSize := u.size, contextUsed := u.used);
      sessions := sessions[id := cur];
    }

    method ObservePromptResult(id: SessionId, result: Option<Usage>)
      modifies this
      ensures result.None? ==> sessions == old(sessions)
      ensures result.Some? ==> sessions == Observe(old(sessions), id, Prompted(result.value))
    {
      if result.None? {
        return;
      }
      var u := result.value;
      var cur := if id in sessions then sessions[id] else ZERO_COST;
      if u.inputTokens > cur.inputTokens {
        cur := cur.(inputTokens := u.inputTokens);
      }
      if u.outputTokens > cur.outputTokens {
        cur := cur.(outputTokens := u.outputTokens);
      }
      ghost var was := Record(sessions, id);
      assert cur == was.(inputTokens := Max(was.inputTokens, u.inputTokens),
          outputTokens := Max(was.outputTokens, u.outputTokens));
      ghost var mid := cur;
      if u.cachedReadTokens.Some? && u.cachedReadTokens.value > cur.cachedReadTokens {
        cur := cur.(cachedReadTokens := u.cachedReadTokens.value);
      }
      if u.cachedWriteTokens.Some? && u.cachedWriteTokens.value > cur.cachedWriteTokens {
        cur := cur.(cachedWriteTokens := u.cachedWriteTokens.value);
      }
      assert cur == mid.(cachedReadTokens := MaxOption(mid.cachedReadTokens, u.cachedReadTokens),
                         cachedWriteTokens := MaxOption(mid.cachedWriteTokens, u.cachedWriteTokens));
      mid := cur;
      if u.thoughtTokens.Some? && u.thoughtTokens.value > cur.thoughtTokens {
        cur := cur.(thoughtTokens := u.thoughtTokens.value);
      }
      if u.totalTokens > cur.totalTokens {
        cur := cur.(totalTokens := u.totalTokens);
      }
      assert cur == mid.(thoughtTokens := MaxOption(mid.thoughtTokens, u.thoughtTokens),
          totalTokens := Max(mid.totalTokens, u.totalTokens));
      assert cur == AfterPrompt(was, u);
      sessions := sessions[id := cur];
    }

    /**
      The aggregate of every record in the order the map happens to be walked in, and so the same totals
      as in any other.
    */
    method Snapshot() returns (snap: CostSnapshot)
      ensures exists order :: Visits(sessions, order) && snap == Aggregate(Records(sessions, order), |sessions|)
      ensures forall order :: Visits(sessions, order) ==>
          SameTotals(snap, Aggregate(Records(sessions, order), |sessions|))
      ensures IsDollarTotal(sessions, snap.totalCostUsd)
    {
      snap := Empty(|sessions|);
      ghost var order := [];
      var todo := sessions.Keys;
      while todo != {}
        invariant todo <= sessions.Keys
        invariant forall id :: id in order <==> id in sessions && id !in todo
        invariant forall i, j :: 0 <= i < j < |order| ==> order[i] != order[j]
        invariant snap == Aggregate(Records(sessions, order), |sessions|)
        decreases todo
      {
        var id :| id in todo;
        snap := Accumulate(snap, sessions[id]);
        assert Records(sessions, order + [id])[..|order|] == Records(sessions, order);
        order := order + [id];
        todo := todo - {id};
      }
      WalksAgree(sessions, order);
    }

    /** A snapshot of one session loses nothing of its record, and stands for that one session. */
    method SessionSnapshot(id: SessionId) returns (snap: Option<CostSnapshot>)
      ensures snap.Some? <==> id in sessions
      ensures snap.Some? ==> RecordOf(snap.value) == sessions[id]
      ensures snap.Some? ==> snap.value.sessions == 1 && |snap.value.currencies| <= 1 && "" !in snap.value.currencies
    {
      if id !in sessions {
        return None;
      }
      return Some(SnapshotOf(sessions[id]));
    }

    /** The in-memory part of loading a persisted snapshot: a session's own snapshot puts its record back. */
    method LoadSessionCost(id: SessionId, snap: CostSnapshot)
      modifies this
      ensures sessions == Observe(old(sessions), id, Loaded(snap))
      ensures forall c :: snap == SnapshotOf(c) ==> sessions == old(sessions)[id := c]
    {
      sessions := sessions[id := RecordOf(snap)];
    }
  }

  // ----- refinement: each record is a fold of its own events only

  function ObserveAll(m: Sessions, events: seq<(SessionId, Event)>): Sessions {
    if events == [] then m
    else
      var (id, e) := events[|events| - 1];
      Observe(ObserveAll(m, events[..|events| - 1]), id, e)
  }

  function EventsOf(events: seq<(SessionId, Event)>, id: SessionId): seq<Event> {
    if events == [] then []
    else
      var (i, e) := events[|events| - 1];
      EventsOf(events[..|events| - 1], id) + if i == id then [e] else []
  }

  function Fold(es: seq<Event>): SessionCost {
    if es == [] then ZERO_COST else AfterEvent(Fold(es[..|es| - 1]), es[|es| - 1])
  }

  lemma {:induction false} RecordsAreFolds(events: seq<(SessionId, Event)>, id: SessionId)
    ensures var m := ObserveAll(map[], events);
            (id in m <==> EventsOf(events, id) != []) && Record(m, id) == Fold(EventsOf(events, id))
  {
    if events != [] {
      var before := events[..|events| - 1];
      RecordsAreFolds(before, id);
      if events[|events| - 1].0 == id {
        assert EventsOf(events, id)[..|EventsOf(before, id)|] == EventsOf(before, id);
      } else {
        assert EventsOf(events, id) == EventsOf(before, id);
      }
    }
  }

  datatype TokenField = Input | Output | CachedRead | CachedWrite | Thought | Total

  function Held(c: SessionCost, f: TokenField): int {
    match f
    case Input => c.inputTokens
    case Output => c.outputTokens
    case CachedRead => c.cachedReadTokens
    case CachedWrite => c.cachedWriteTokens
    case Thought => c.thoughtTokens
    case Total => c.totalTokens
  }

  /** The value an event states for a field. */
  function Told(e: Event, f: TokenField): Option<int> {
    match e
    case Updated(_) => None
    case Loaded(saved) => Some(Held(RecordOf(saved), f))
    case Prompted(usage) =>
      match f
      case Input => Some(usage.inputTokens)
      case Output => Some(usage.outputTokens)
      case CachedRead => usage.cachedReadTokens
      case CachedWrite => usage.cachedWriteTokens
      case Thought => usage.thoughtTokens
      case Total => Some(usage.totalTokens)
  }

  /** No load comes after event `i`. */
  predicate Current(es: seq<Event>, i: nat) {
    i < |es| && forall j :: i < j < |es| ==> !es[j].Loaded?
  }

  predicate NoLoad(es: seq<Event>) {
    forall j :: 0 <= j < |es| ==> !es[j].Loaded?
  }

  lemma CurrentStep(es: seq<Event>)
    requires es != [] && !es[|es| - 1].Loaded?
    ensures var front := es[..|es| - 1];
            (NoLoad(es) <==> NoLoad(front)) && forall i: nat :: i < |front| ==> (Current(es, i) <==> Current(front, i))
  {
    var front := es[..|es| - 1];
    assert forall j :: 0 <= j < |front| ==> front[j] == es[j];
  }

  /** `x` is the largest value stated for the field since the last load, or zero if there was neither. */
  ghost predicate IsLargestTold(es: seq<Event>, f: TokenField, x: int) {
    && (NoLoad(es) ==> x >= 0)
    && (forall i: nat :: Current(es, i) && Told(es[i], f).Some? ==> Told(es[i], f).value <= x)
    && ((NoLoad(es) && x == 0) || exists i: nat :: Current(es, i) && Told(es[i], f) == Some(x))
  }

  lemma LargestStep(es: seq<Event>, f: TokenField, x: int)
    requires es != [] && !es[|es| - 1].Loaded? && IsLargestTold(es[..|es| - 1], f, x)
    ensures IsLargestTold(es, f, MaxOption(x, Told(es[|es| - 1], f)))
  {
    var front, last := es[..|es| - 1], es[|es| - 1];
    var y := MaxOption(x, Told(last, f));
    CurrentStep(es);
    assert Current(es, |front|) && es[|front|] == last;
    forall i: nat | Current(es, i) && Told(es[i], f).Some? ensures Told(es[i], f).value <= y {
      if i < |front| {
        assert Current(front, i) && es[i] == front[i];
      }
    }
    if y != x {
      assert Told(es[|front|], f) == Some(y);
    } else if !(NoLoad(front) && x == 0) {
      var i: nat :| Current(front, i) && Told(front[i], f) == Some(x);
      assert Current(es, i) && es[i] == front[i];
    }
  }

  lemma LoadedStep(es: seq<Event>, f: TokenField)
    requires es != [] && es[|es| - 1].Loaded?
    ensures IsLargestTold(es, f, Held(RecordOf(es[|es| - 1].saved), f))
  {
    assert Current(es, |es| - 1);
  }

  lemma HeldStep(c: SessionCost, e: Event, f: TokenField)
    ensures Held(AfterEvent(c, e), f) ==
            if e.Loaded? then Held(RecordOf(e.saved), f) else MaxOption(Held(c, f), Told(e, f))
  {
  }

  /**
    Every token field of a record is the largest value stated for it since the last load, the
    loaded one included; without a load also zero counts as stated.
  */
  lemma {:induction false} TokensAreMaxima(es: seq<Event>, f: TokenField)
    ensures IsLargestTold(es, f, Held(Fold(es), f))
  {
    if es != [] {
      var front, last := es[..|es| - 1], es[|es| - 1];
      TokensAreMaxima(front, f);
      HeldStep(Fold(front), last, f);
      if last.Loaded? {
        LoadedStep(es, f);
      } else {
        LargestStep(es, f, Held(Fold(front), f));
      }
    }
  }

  /** Event `e` leaves what was last stated about the cost as it is. */
  predicate LeavesCost(e: Event) {
    e.Prompted? || (e.Updated? && e.update.cost.None?)
  }

  /** Cost and currency are the last ones stated, the context figures the last ones reported. */
  lemma {:induction false} CostIsLatest(es: seq<Event>, i: nat)
    requires i < |es| && es[i].Updated?
    ensures es[i].update.cost.Some? && (forall j :: i < j < |es| ==> LeavesCost(es[j])) ==>
              es[i].update.cost.value == Cost(Fold(es).costUsd, Fold(es).currency)
    ensures (forall j :: i < j < |es| ==> es[j].Prompted?) ==>
              es[i].update.size == Fold(es).contextSize && es[i].update.used == Fold(es).contextUsed
  {
    if i < |es| - 1 {
      CostIsLatest(es[..|es| - 1], i);
    }
  }

  /** The events of every session but `id`. */
  function EventsOfOthers(events: seq<(SessionId, Event)>, id: SessionId): seq<(SessionId, Event)> {
    if events == [] then []
    else
      var last := events[|events| - 1];
      EventsOfOthers(events[..|events| - 1], id) + if last.0 == id then [] else [last]
  }

  /** A session's snapshot holds all of its record. */
  lemma SnapshotHoldsRecord(c: SessionCost)
    ensures RecordOf(SnapshotOf(c)) == c
  {
  }

  lemma ObserveThenPut(m: Sessions, id: SessionId, c: SessionCost, other: SessionId, e: Event)
    ensures Observe(m, other, e)[id := c] == if other == id then m[id := c] else Observe(m[id := c], other, e)
  {
  }

  /**
    Loading what was saved for a session undoes whatever was observed of it in between, and
    nothing that was observed of the others; with nothing in between it changes nothing.
  */
  lemma {:induction false} SaveLoadRoundTrip(m: Sessions, id: SessionId, events: seq<(SessionId, Event)>)
    requires id in m
    ensures Observe(ObserveAll(m, events), id, Loaded(SnapshotOf(m[id]))) == ObserveAll(m, EventsOfOthers(events, id))
  {
    SnapshotHoldsRecord(m[id]);
    if events == [] {
      assert m[id := m[id]] == m;
    } else {
      var front, last := events[..|events| - 1], events[|events| - 1];
      SaveLoadRoundTrip(m, id, front);
      ObserveThenPut(ObserveAll(m, front), id, m[id], last.0, last.1);
      var others := EventsOfOthers(front, id);
      assert others + [] == others && (others + [last])[..|others|] == others;
    }
  }

  // ----- the aggregate does not depend on the order of the walk

  lemma AccumulateSame(a: CostSnapshot, b: CostSnapshot, c: SessionCost)
    requires SameTotals(a, b)
    ensures SameTotals(Accumulate(a, c), Accumulate(b, c))
  {
    assert c.currency in a.currencies <==> c.currency in multiset(a.currencies);
    assert c.currency in b.currencies <==> c.currency in multiset(b.currencies);
  }

  lemma CurrenciesCommute(seen: seq<string>, c: string, d: string)
    ensures multiset(WithCurrency(WithCurrency(seen, c), d)) == multiset(WithCurrency(WithCurrency(seen, d), c))
  {
  }

  lemma AccumulateCommutes(a: CostSnapshot, c: SessionCost, d: SessionCost)
    ensures SameTotals(Accumulate(Accumulate(a, c), d), Accumulate(Accumulate(a, d), c))
  {
    CurrenciesCommute(a.currencies, c.currency, d.currency);
  }

  lemma AggregateLast(cs: seq<SessionCost>, c: SessionCost, sessions: nat)
    ensures Aggregate(cs + [c], sessions) == Accumulate(Aggregate(cs, sessions), c)
  {
    assert (cs + [c])[..|cs|] == cs;
  }

  /** A record taken in the middle may as well be taken last. */
  lemma {:induction false} TakenLast(front: seq<SessionCost>, c: SessionCost, back: seq<SessionCost>, sessions: nat)
    ensures SameTotals(Aggregate(front + [c] + back, sessions), Accumulate(Aggregate(front + back, sessions), c))
  {
    if back == [] {
      assert front + [c] + back == front + [c] && front + back == front;
      AggregateLast(front, c, sessions);
    } else {
      var init, last := back[..|back| - 1], back[|back| - 1];
      TakenLast(front, c, init, sessions);
      assert front + [c] + back == front + [c] + init + [last];
      assert front + back == front + init + [last];
      AggregateLast(front + [c] + init, last, sessions);
      AggregateLast(front + init, last, sessions);
      AccumulateSame(Aggregate(front + [c] + init, sessions), Accumulate(Aggregate(front + init, sessions), c), last);
      AccumulateCommutes(Aggregate(front + init, sessions), c, last);
    }
  }

  lemma NothingToVisit(m: Sessions, o: seq<SessionId>, o': seq<SessionId>)
    requires Visits(m, o) && Visits(m, o')
    ensures o != [] ==> o' != []
  {
    if o != [] {
      assert o[0] in o;
      assert o[0] in o';
    }
  }

  /** Whatever order the map is walked in, the totals are the same, and so are the currencies up to order. */
  lemma {:induction false} SnapshotOrderFree(m: Sessions, o: seq<SessionId>, o': seq<SessionId>, sessions: nat)
    requires Visits(m, o) && Visits(m, o')
    ensures SameTotals(Aggregate(Records(m, o), sessions), Aggregate(Records(m, o'), sessions))
    decreases |o|
  {
    if o == [] {
      NothingToVisit(m, o', o);
      assert Records(m, o) == Records(m, o');
    } else {
      var init, id := o[..|o| - 1], o[|o| - 1];
      assert id in o';
      var k :| 0 <= k < |o'| && o'[k] == id;
      var rest := o'[..k] + o'[k + 1..];
      VisitsWithout(m, o, |o| - 1);
      VisitsWithout(m, o', k);
      assert o[..|o| - 1] + o[|o|..] == init;
      SnapshotOrderFree(m - {id}, init, rest, sessions);
      WithoutLast(m, o, sessions);
      WithoutOne(m, o', k, sessions);
      AccumulateSame(Aggregate(Records(m - {id}, init), sessions), Aggregate(Records(m - {id}, rest), sessions), m[id]);
    }
  }

  /** A walk is a walk without one session, and that session last. */
  lemma WithoutOne(m: Sessions, o: seq<SessionId>, k: nat, sessions: nat)
    requires Visits(m, o) && k < |o| && Visits(m - {o[k]}, o[..k] + o[k + 1..])
    ensures SameTotals(Aggregate(Records(m, o), sessions),
                       Accumulate(Aggregate(Records(m - {o[k]}, o[..k] + o[k + 1..]), sessions), m[o[k]]))
  {
    var cs := Records(m, o);
    RecordsWithout(m, o, k);
    TakenLast(cs[..k], m[o[k]], cs[k + 1..], sessions);
  }

  lemma WithoutLast(m: Sessions, o: seq<SessionId>, sessions: nat)
    requires Visits(m, o) && o != [] && Visits(m - {o[|o| - 1]}, o[..|o| - 1])
    ensures Aggregate(Records(m, o), sessions) ==
            Accumulate(Aggregate(Records(m - {o[|o| - 1]}, o[..|o| - 1]), sessions), m[o[|o| - 1]])
  {
    var id, init := o[|o| - 1], o[..|o| - 1];
    assert Records(m, o) == Records(m - {id}, init) + [m[id]];
    AggregateLast(Records(m - {id}, init), m[id], sessions);
  }

  lemma RecordsWithout(m: Sessions, o: seq<SessionId>, k: nat)
    requires Visits(m, o) && k < |o| && Visits(m - {o[k]}, o[..k] + o[k + 1..])
    ensures var cs := Records(m, o);
            && Records(m - {o[k]}, o[..k] + o[k + 1..]) == cs[..k] + cs[k + 1..]
            && cs == cs[..k] + [m[o[k]]] + cs[k + 1..]
  {
  }

  lemma VisitsWithout(m: Sessions, o: seq<SessionId>, k: nat)
    requires Visits(m, o) && k < |o|
    ensures Visits(m - {o[k]}, o[..k] + o[k + 1..])
  {
    var rest := o[..k] + o[k + 1..];
    forall i | 0 <= i < |rest| ensures rest[i] == o[if i < k then i else i + 1] {}
    forall id ensures id in rest <==> id in m && id != o[k] {
      if id in m && id != o[k] {
        assert id in o;
        var i :| 0 <= i < |o| && o[i] == id;
        assert rest[if i < k then i else i - 1] == id;
      }
    }
  }

  /** Every sum of `after` differs from that of `before` by what `now` differs from `was`. */
  predicate MovedBy(before: CostSnapshot, after: CostSnapshot, was: SessionCost, now: SessionCost) {
    && after.totalCostUsd - before.totalCostUsd == Contribution(now) - Contribution(was)
    && after.inputTokens - before.inputTokens == now.inputTokens - was.inputTokens
    && after.outputTokens - before.outputTokens == now.outputTokens - was.outputTokens
    && after.cachedReadTokens - before.cachedReadTokens == now.cachedReadTokens - was.cachedReadTokens
    && after.cachedWriteTokens - before.cachedWriteTokens == now.cachedWriteTokens - was.cachedWriteTokens
    && after.thoughtTokens - before.thoughtTokens == now.thoughtTokens - was.thoughtTokens
    && after.totalTokens - before.totalTokens == now.totalTokens - was.totalTokens
    && after.contextWindowUsed - before.contextWindowUsed == now.contextUsed - was.contextUsed
  }

  /** Changing one record moves the sums by exactly what that record contributes. */
  lemma {:induction false} OneRecordChanges(cs: seq<SessionCost>, k: nat, c: SessionCost, sessions: nat)
    requires k < |cs|
    ensures MovedBy(Aggregate(cs, sessions), Aggregate(cs[k := c], sessions), cs[k], c)
  {
    var cs' := cs[k := c];
    if k == |cs| - 1 {
      assert cs'[..|cs| - 1] == cs[..|cs| - 1];
    } else {
      OneRecordChanges(cs[..|cs| - 1], k, c, sessions);
      assert cs'[..|cs| - 1] == cs[..|cs| - 1][k := c];
    }
  }

  lemma ReplaceRecord(m: Sessions, id: SessionId, c: SessionCost, o: seq<SessionId>) returns (k: nat)
    requires Visits(m, o) && id in m
    ensures Visits(m[id := c], o)
    ensures k < |o| && Records(m, o)[k] == m[id] && Records(m[id := c], o) == Records(m, o)[k := c]
  {
    assert id in o;
    k :| 0 <= k < |o| && o[k] == id;
  }

  lemma AddRecord(m: Sessions, id: SessionId, c: SessionCost, o: seq<SessionId>)
    requires Visits(m, o) && id !in m
    ensures Visits(m[id := c], o + [id])
    ensures Records(m[id := c], o + [id]) == Records(m, o) + [c]
  {
  }

  lemma AggregateOneMore(cs: seq<SessionCost>, c: SessionCost, sessions: nat)
    ensures MovedBy(Aggregate(cs, sessions), Aggregate(cs + [c], sessions), ZERO_COST, c)
  {
    AggregateLast(cs, c, sessions);
  }

  /** A walk over the sessions with one record replaced, or added at the end. */
  lemma PutRecord(m: Sessions, id: SessionId, c: SessionCost, o: seq<SessionId>, sessions: nat)
      returns (o': seq<SessionId>)
    requires Visits(m, o)
    ensures Visits(m[id := c], o')
    ensures MovedBy(Aggregate(Records(m, o), sessions), Aggregate(Records(m[id := c], o'), sessions), Record(m, id), c)
  {
    if id in m {
      var k := ReplaceRecord(m, id, c, o);
      OneRecordChanges(Records(m, o), k, c, sessions);
      o' := o;
    } else {
      AddRecord(m, id, c, o);
      AggregateOneMore(Records(m, o), c, sessions);
      o' := o + [id];
    }
  }

  /**
    One observation moves every sum of the aggregate by exactly what it changes in its own
    session's record, whatever orders the two snapshots are taken in.
  */
  lemma ObserveMovesTotals(m: Sessions, id: SessionId, e: Event, o: seq<SessionId>, o': seq<SessionId>)
    requires Visits(m, o) && Visits(Observe(m, id, e), o')
    ensures var m' := Observe(m, id, e);
            MovedBy(Aggregate(Records(m, o), |m|), Aggregate(Records(m', o'), |m'|), Record(m, id), m'[id])
  {
    var m' := Observe(m, id, e);
    SessionsIrrelevant(Records(m, o), |m|, |m'|);
    var o1 := PutRecord(m, id, m'[id], o, |m'|);
    SnapshotOrderFree(m', o1, o', |m'|);
  }

  /** The one figure that is not a sum: the largest context window of any session, or zero. */
  lemma {:induction false} ContextIsLargest(cs: seq<SessionCost>, sessions: nat)
    ensures var largest := Aggregate(cs, sessions).contextWindowSize;
            && largest >= 0
            && (forall i :: 0 <= i < |cs| ==> cs[i].contextSize <= largest)
            && (largest == 0 || exists i :: 0 <= i < |cs| && cs[i].contextSize == largest)
  {
    if cs != [] {
      var front, last := cs[..|cs| - 1], cs[|cs| - 1];
      ContextIsLargest(front, sessions);
      var below, largest := Aggregate(front, sessions).contextWindowSize, Aggregate(cs, sessions).contextWindowSize;
      assert largest == Max(below, last.contextSize);
      if largest == last.contextSize {
        assert cs[|cs| - 1].contextSize == largest;
      } else if largest != 0 {
        var i :| 0 <= i < |front| && front[i].contextSize == below;
        assert cs[i].contextSize == largest;
      }
    }
  }

  // ----- what the aggregate adds up

  /** The amounts that count as dollars: those of the sessions that name the dollar, or no currency. */
  function DollarAmounts(cs: seq<SessionCost>): seq<real> {
    if cs == [] then []
    else
      var last := cs[|cs| - 1];
      DollarAmounts(cs[..|cs| - 1]) + if last.currency in {"", "USD"} then [last.costUsd] else []
  }

  function SumOf(amounts: seq<real>): real {
    if amounts == [] then 0.0 else SumOf(amounts[..|amounts| - 1]) + amounts[|amounts| - 1]
  }

  lemma SumOfMore(amounts: seq<real>, amount: real)
    ensures SumOf(amounts + [amount]) == SumOf(amounts) + amount
  {
    assert (amounts + [amount])[..|amounts|] == amounts;
  }

  /** The total cost is the sum of the amounts in dollars or in no stated currency, and of no others. */
  lemma {:induction false} CostIsDollarSum(cs: seq<SessionCost>, sessions: nat)
    ensures Aggregate(cs, sessions).totalCostUsd == SumOf(DollarAmounts(cs))
  {
    if cs != [] {
      var front, last := cs[..|cs| - 1], cs[|cs| - 1];
      CostIsDollarSum(front, sessions);
      if last.currency in {"", "USD"} {
        SumOfMore(DollarAmounts(front), last.costUsd);
      } else {
        assert DollarAmounts(front) + [] == DollarAmounts(front);
      }
    }
  }

  /** A token field summed over the sessions. */
  function TokensOf(cs: seq<SessionCost>, f: TokenField): int {
    if cs == [] then 0 else TokensOf(cs[..|cs| - 1], f) + Held(cs[|cs| - 1], f)
  }

  function ContextsOf(cs: seq<SessionCost>): int {
    if cs == [] then 0 else ContextsOf(cs[..|cs| - 1]) + cs[|cs| - 1].contextUsed
  }

  /** The same field of a snapshot. */
  function HeldTotal(s: CostSnapshot, f: TokenField): int {
    match f
    case Input => s.inputTokens
    case Output => s.outputTokens
    case CachedRead => s.cachedReadTokens
    case CachedWrite => s.cachedWriteTokens
    case Thought => s.thoughtTokens
    case Total => s.totalTokens
  }

  /** Every token field and the context in use are summed over the sessions, each with itself. */
  lemma {:induction false} TokensAreSums(cs: seq<SessionCost>, sessions: nat, f: TokenField)
    ensures HeldTotal(Aggregate(cs, sessions), f) == TokensOf(cs, f)
    ensures Aggregate(cs, sessions).contextWindowUsed == ContextsOf(cs)
    ensures Aggregate(cs, sessions).sessions == sessions
  {
    if cs != [] {
      TokensAreSums(cs[..|cs| - 1], sessions, f);
    }
  }

  ghost predicate Names(cs: seq<SessionCost>, currency: string) {
    exists i :: 0 <= i < |cs| && cs[i].currency == currency
  }

  lemma NamesMore(front: seq<SessionCost>, last: SessionCost, currency: string)
    ensures Names(front + [last], currency) <==> Names(front, currency) || last.currency == currency
  {
    var cs := front + [last];
    assert cs[|front|] == last;
    if Names(front, currency) {
      var i :| 0 <= i < |front| && front[i].currency == currency;
      assert cs[i].currency == currency;
    }
  }

  /** The currencies listed are those some session names, each once; an unstated one is not listed. */
  lemma {:induction false} CurrenciesAreThoseNamed(cs: seq<SessionCost>, sessions: nat, currency: string)
    ensures currency in Aggregate(cs, sessions).currencies <==> currency != "" && Names(cs, currency)
    ensures var listed := Aggregate(cs, sessions).currencies;
            forall i, j :: 0 <= i < j < |listed| ==> listed[i] != listed[j]
  {
    if cs != [] {
      var front, last := cs[..|cs| - 1], cs[|cs| - 1];
      assert cs == front + [last];
      CurrenciesAreThoseNamed(front, sessions, currency);
      NamesMore(front, last, currency);
    }
  }

  lemma {:induction false} AnOrder(m: Sessions) returns (o: seq<SessionId>)
    ensures Visits(m, o)
    decreases |m|
  {
    if m == map[] {
      o := [];
    } else {
      var id :| id in m;
      var rest := AnOrder(m - {id});
      o := rest + [id];
    }
  }

  lemma OrderExists(m: Sessions)
    ensures exists o :: Visits(m, o)
  {
    var o := AnOrder(m);
  }

  /** The dollar total of a tracker, whatever order its sessions are walked in. */
  ghost predicate IsDollarTotal(m: Sessions, total: real) {
    forall o :: Visits(m, o) ==> SumOf(DollarAmounts(Records(m, o))) == total
  }

  lemma DollarTotalOfWalk(m: Sessions, o: seq<SessionId>)
    requires Visits(m, o)
    ensures IsDollarTotal(m, SumOf(DollarAmounts(Records(m, o))))
  {
    CostIsDollarSum(Records(m, o), |m|);
    forall o' | Visits(m, o') ensures SumOf(DollarAmounts(Records(m, o'))) == SumOf(DollarAmounts(Records(m, o))) {
      CostIsDollarSum(Records(m, o'), |m|);
      SnapshotOrderFree(m, o, o', |m|);
    }
  }

  /** What holds of the aggregate whatever order it was taken in. */
  lemma WalksAgree(m: Sessions, o: seq<SessionId>)
    requires Visits(m, o)
    ensures forall o' :: Visits(m, o') ==>
        SameTotals(Aggregate(Records(m, o), |m|), Aggregate(Records(m, o'), |m|))
    ensures IsDollarTotal(m, Aggregate(Records(m, o), |m|).totalCostUsd)
  {
    forall o' | Visits(m, o') ensures SameTotals(Aggregate(Records(m, o), |m|), Aggregate(Records(m, o'), |m|)) {
      SnapshotOrderFree(m, o, o', |m|);
    }
    CostIsDollarSum(Records(m, o), |m|);
    DollarTotalOfWalk(m, o);
  }

  lemma RecordsFramed(m: Sessions, id: SessionId, c: SessionCost, o: seq<SessionId>)
    requires Visits(m - {id}, o)
    ensures Visits(m[id := c], o + [id]) && Records(m[id := c], o + [id]) == Records(m - {id}, o) + [c]
  {
    assert id !in o;
    assert (m - {id})[id := c] == m[id := c];
    AddRecord(m - {id}, id, c, o);
  }

  /**
    Putting a record makes the total that of the other sessions and, if the record is in dollars or
    names no currency, its amount.
  */
  lemma PutMakesTotal(m: Sessions, id: SessionId, c: SessionCost, others: real)
    requires IsDollarTotal(m - {id}, others)
    ensures IsDollarTotal(m[id := c], others + if c.currency in {"", "USD"} then c.costUsd else 0.0)
  {
    var o := AnOrder(m - {id});
    var cs := Records(m - {id}, o);
    RecordsFramed(m, id, c, o);
    DollarTotalOfWalk(m[id := c], o + [id]);
    assert (cs + [c])[..|cs|] == cs;
    if c.currency in {"", "USD"} {
      SumOfMore(DollarAmounts(cs), c.costUsd);
    } else {
      assert DollarAmounts(cs) + [] == DollarAmounts(cs);
    }
  }

  /**
    A report leaves the total at what the other sessions make up when it is in a foreign currency;
    in dollars, or in no stated currency, it adds its own amount to that and nothing of the
    session's earlier reports.
  */
  lemma ReportMakesTotal(m: Sessions, id: SessionId, u: UsageUpdate, others: real)
    requires u.cost.Some? && IsDollarTotal(m - {id}, others)
    ensures var total := others + if u.cost.value.currency in {"", "USD"} then u.cost.value.amount else 0.0;
            IsDollarTotal(Observe(m, id, Updated(u)), total)
  {
    PutMakesTotal(m, id, AfterUpdate(Record(m, id), u), others);
  }

  lemma {:induction false} SessionsIrrelevant(cs: seq<SessionCost>, n: nat, n': nat)
    ensures Aggregate(cs, n).(sessions := n') == Aggregate(cs, n')
  {
    if cs != [] {
      SessionsIrrelevant(cs[..|cs| - 1], n, n');
    }
  }
}
