/** The budget verdict over the aggregated cost, and when it latches. */
module BudgetTracking {
  import opened Wrappers
  import opened CostTracking

  const DEFAULT_THRESHOLD := 0.90

  datatype Options = Options(maxCostUsd: Option<real>, maxTotalTokens: Option<int>, completionThreshold: real)

  datatype Reason = WithinBudget | NearCompletion | BudgetExceeded

  datatype BudgetStatus = BudgetStatus(cost: CostSnapshot, completionRatio: real, nearCompletion: bool,
      budgetExceeded: bool, reason: Reason)

  predicate ThresholdInRange(threshold: real) {
    0.0 < threshold <= 1.0
  }

  predicate CostCapped(o: Options) {
    o.maxCostUsd.Some? && o.maxCostUsd.value > 0.0
  }

  predicate TokensCapped(o: Options) {
    o.maxTotalTokens.Some? && o.maxTotalTokens.value > 0
  }

  predicate CostExceeded(o: Options, cost: CostSnapshot) {
    CostCapped(o) && cost.totalCostUsd >= o.maxCostUsd.value
  }

  predicate TokensExceeded(o: Options, cost: CostSnapshot) {
    TokensCapped(o) && cost.totalTokens >= o.maxTotalTokens.value
  }

  function Ratio(o: Options, cost: CostSnapshot): real {
    var ratio := if CostCapped(o) then cost.totalCostUsd / o.maxCostUsd.value else 0.0;
    if TokensCapped(o) then
      var tokens := cost.totalTokens as real / o.maxTotalTokens.value as real;
      if tokens > ratio then tokens else ratio
    else ratio
  }

  function StatusOf(o: Options, cost: CostSnapshot): BudgetStatus {
    var ratio := Ratio(o, cost);
    var exceeded := CostExceeded(o, cost) || TokensExceeded(o, cost);
    var near := ratio >= o.completionThreshold && !exceeded;
    var reason := if exceeded then BudgetExceeded else if near then NearCompletion else WithinBudget;
    BudgetStatus(cost, ratio, near, exceeded, reason)
  }

  class BudgetTracker {
    const cost: CostTracker
    const options: Options

    constructor (options: Options)
      ensures fresh(cost) && cost.sessions == map[] && this.options == options
    {
      cost := new CostTracker();
      this.options := options;
    }

    /** A tracker keeps the caps it is given; a threshold of zero stands for the default, others have to be in range. */
    static method NewBudgetTracker(options: Options) returns (tracker: BudgetTracker?)
      ensures tracker != null <==> options.completionThreshold == 0.0 || ThresholdInRange(options.completionThreshold)
      ensures tracker != null ==>
                && fresh(tracker) && fresh(tracker.cost) && tracker.cost.sessions == map[]
                && tracker.options.maxCostUsd == options.maxCostUsd
                && tracker.options.maxTotalTokens == options.maxTotalTokens
                && ThresholdInRange(tracker.options.completionThreshold)
                && (options.completionThreshold != 0.0 ==> tracker.options == options)
                && (options.completionThreshold == 0.0 ==> tracker.options.completionThreshold == 0.90)
    {
      var threshold := options.completionThreshold;
      if threshold == 0.0 {
        threshold := DEFAULT_THRESHOLD;
      }
      if threshold <= 0.0 || threshold > 1.0 {
        return null;
      }
      tracker := new BudgetTracker(options.(completionThreshold := threshold));
    }

    /**
      The status is judged on the aggregate of every session, with the same verdict whatever order they
      are summed in.
    */
    method Status() returns (status: BudgetStatus)
      ensures status == StatusOf(options, status.cost)
      ensures forall order :: Visits(cost.sessions, order) ==>
          SameTotals(status.cost, Aggregate(Records(cost.sessions, order), |cost.sessions|))
    {
      var snap := cost.Snapshot();
      status := StatusOf(options, snap);
    }

    method CheckBudget() returns (exceeded: bool)
      ensures forall order :: Visits(cost.sessions, order) ==>
                exceeded == StatusOf(options, Aggregate(Records(cost.sessions, order), |cost.sessions|)).budgetExceeded
      ensures forall order :: Visits(cost.sessions, order) ==>
                (exceeded <==> OverBudget(options, Records(cost.sessions, order)))
    {
      var status := Status();
      exceeded := status.budgetExceeded;
      forall order | Visits(cost.sessions, order)
        ensures exceeded <==> OverBudget(options, Records(cost.sessions, order))
      {
        ExceededExactly(options, Records(cost.sessions, order), |cost.sessions|);
      }
    }
  }

  /** A cap is set and what the sessions have used, in dollars or in tokens, has reached it. */
  predicate OverBudget(o: Options, cs: seq<SessionCost>) {
    || (o.maxCostUsd.Some? && 0.0 < o.maxCostUsd.value <= SumOf(DollarAmounts(cs)))
    || (o.maxTotalTokens.Some? && 0 < o.maxTotalTokens.value <= TokensOf(cs, Total))
  }

  /** The verdict on the aggregate is a verdict on the sessions' own dollars and tokens. */
  lemma ExceededExactly(o: Options, cs: seq<SessionCost>, sessions: nat)
    ensures StatusOf(o, Aggregate(cs, sessions)).budgetExceeded <==> OverBudget(o, cs)
  {
    CostIsDollarSum(cs, sessions);
    TokensAreSums(cs, sessions, Total);
  }

  lemma ShareReaches(x: real, cap: real, share: real)
    requires cap > 0.0
    ensures x == (x / cap) * cap
    ensures x / cap >= share <==> x >= share * cap
  {
    assert x == (x / cap) * cap;
    if x / cap >= share {
      assert (x / cap) * cap >= share * cap;
    } else {
      assert (x / cap) * cap < share * cap;
    }
  }

  /** The ratio reported is the largest share of a cap used; without a cost cap it starts from zero. */
  lemma RatioIsLargestShare(o: Options, cost: CostSnapshot)
    ensures var ratio := StatusOf(o, cost).completionRatio;
            && (CostCapped(o) ==> cost.totalCostUsd <= ratio * o.maxCostUsd.value)
            && (TokensCapped(o) ==> cost.totalTokens as real <= ratio * o.maxTotalTokens.value as real)
            && (|| (CostCapped(o) && cost.totalCostUsd == ratio * o.maxCostUsd.value)
                || (TokensCapped(o) && cost.totalTokens as real == ratio * o.maxTotalTokens.value as real)
                || (!CostCapped(o) && ratio == 0.0))
  {
    var ratio := StatusOf(o, cost).completionRatio;
    if CostCapped(o) {
      ShareReaches(cost.totalCostUsd, o.maxCostUsd.value, ratio);
    }
    if TokensCapped(o) {
      ShareReaches(cost.totalTokens as real, o.maxTotalTokens.value as real, ratio);
    }
  }

  /**
    Exceeded means a ratio of at least one, near means at or past the threshold but below one; exactly
    one reason holds.
  */
  lemma VerdictFollowsRatio(o: Options, cost: CostSnapshot)
    requires ThresholdInRange(o.completionThreshold)
    ensures var s := StatusOf(o, cost);
            && (s.budgetExceeded <==> s.completionRatio >= 1.0)
            && (s.nearCompletion <==> o.completionThreshold <= s.completionRatio < 1.0)
            && (s.reason.BudgetExceeded? <==> s.budgetExceeded) && (s.reason.NearCompletion? <==> s.nearCompletion)
  {
    if CostCapped(o) {
      ShareReaches(cost.totalCostUsd, o.maxCostUsd.value, 1.0);
    }
    if TokensCapped(o) {
      ShareReaches(cost.totalTokens as real, o.maxTotalTokens.value as real, 1.0);
    }
  }

  /** A budget not exceeded is near completion exactly when the threshold's share of a cap has been used. */
  lemma NearExactly(o: Options, cost: CostSnapshot)
    requires ThresholdInRange(o.completionThreshold)
    ensures StatusOf(o, cost).nearCompletion <==>
            && !StatusOf(o, cost).budgetExceeded
            && (|| (o.maxCostUsd.Some? && o.maxCostUsd.value > 0.0 &&
                    cost.totalCostUsd >= o.completionThreshold * o.maxCostUsd.value)
                || (o.maxTotalTokens.Some? && o.maxTotalTokens.value > 0 &&
                    cost.totalTokens as real >= o.completionThreshold * o.maxTotalTokens.value as real))
  {
    if CostCapped(o) {
      ShareReaches(cost.totalCostUsd, o.maxCostUsd.value, o.completionThreshold);
    }
    if TokensCapped(o) {
      ShareReaches(cost.totalTokens as real, o.maxTotalTokens.value as real, o.completionThreshold);
    }
  }

  /** The verdict does not depend on the order the sessions are summed in. */
  lemma VerdictOrderFree(options: Options, m: Sessions, o: seq<SessionId>, o': seq<SessionId>)
    requires Visits(m, o) && Visits(m, o')
    ensures StatusOf(options, Aggregate(Records(m, o), |m|)).reason ==
        StatusOf(options, Aggregate(Records(m, o'), |m|)).reason
  {
    SnapshotOrderFree(m, o, o', |m|);
  }

  // ----- latching

  /** The aggregate of every record, in some order. */
  ghost function Totals(m: Sessions): CostSnapshot {
    OrderExists(m);
    var o :| Visits(m, o);
    Aggregate(Records(m, o), |m|)
  }

  /** Any walk gives these totals. */
  lemma TotalsOfWalk(m: Sessions, o: seq<SessionId>)
    requires Visits(m, o)
    ensures SameTotals(Aggregate(Records(m, o), |m|), Totals(m))
  {
    OrderExists(m);
    var o' :| Visits(m, o') && Totals(m) == Aggregate(Records(m, o'), |m|);
    SnapshotOrderFree(m, o, o', |m|);
  }

  lemma EventMovesTotals(m: Sessions, id: SessionId, e: Event)
    ensures var m' := Observe(m, id, e);
            && Totals(m').totalCostUsd - Totals(m).totalCostUsd == Contribution(m'[id]) - Contribution(Record(m, id))
            && Totals(m').totalTokens - Totals(m).totalTokens == m'[id].totalTokens - Record(m, id).totalTokens
  {
    var m' := Observe(m, id, e);
    var o := AnOrder(m);
    var o' := AnOrder(m');
    TotalsOfWalk(m, o);
    TotalsOfWalk(m', o');
    ObserveMovesTotals(m, id, e, o, o');
  }

  /** The caps to look at: those on tokens, those on cost, or whichever are set. */
  datatype Caps = TokenCaps | CostCaps | AllCaps

  predicate Exceeded(caps: Caps, o: Options, cost: CostSnapshot) {
    match caps
    case TokenCaps => TokensExceeded(o, cost)
    case CostCaps => CostExceeded(o, cost)
    case AllCaps => StatusOf(o, cost).budgetExceeded
  }

  /** Whatever the caps are set to, what was exceeded before is exceeded after. */
  ghost predicate Latches(caps: Caps, before: CostSnapshot, after: CostSnapshot) {
    forall o: Options :: Exceeded(caps, o, before) ==> Exceeded(caps, o, after)
  }

  /** The event takes nothing off the tokens, or off a total that cannot have reached a cap. */
  ghost predicate KeepsTokens(m: Sessions, id: SessionId, e: Event) {
    Totals(m).totalTokens <= 0 || AfterEvent(Record(m, id), e).totalTokens >= Record(m, id).totalTokens
  }

  ghost predicate KeepsCost(m: Sessions, id: SessionId, e: Event) {
    Totals(m).totalCostUsd <= 0.0 || Contribution(AfterEvent(Record(m, id), e)) >= Contribution(Record(m, id))
  }

  ghost predicate Keeps(caps: Caps, m: Sessions, id: SessionId, e: Event) {
    (caps.CostCaps? || KeepsTokens(m, id, e)) && (caps.TokenCaps? || KeepsCost(m, id, e))
  }

  lemma LatchesExactly(caps: Caps, before: CostSnapshot, after: CostSnapshot)
    ensures Latches(caps, before, after) <==>
            && (caps.CostCaps? || before.totalTokens <= 0 || after.totalTokens >= before.totalTokens)
            && (caps.TokenCaps? || before.totalCostUsd <= 0.0 || after.totalCostUsd >= before.totalCostUsd)
  {
    if Latches(caps, before, after) {
      var tokens := Options(None, Some(before.totalTokens), DEFAULT_THRESHOLD);
      var cost := Options(Some(before.totalCostUsd), None, DEFAULT_THRESHOLD);
      assert !caps.CostCaps? && before.totalTokens > 0 ==>
          Exceeded(caps, tokens, before) && Exceeded(caps, tokens, after);
      assert !caps.TokenCaps? && before.totalCostUsd > 0.0 ==>
          Exceeded(caps, cost, before) && Exceeded(caps, cost, after);
    }
  }

  /**
    An observation or load leaves every exceeded token cap exceeded exactly when it takes nothing
    off its session's tokens, every exceeded cost cap exactly when it takes nothing off the
    session's part of the cost, and every exceeded budget exactly when neither.
  */
  lemma StepLatchesExactly(caps: Caps, m: Sessions, id: SessionId, e: Event)
    ensures Latches(caps, Totals(m), Totals(Observe(m, id, e))) <==> Keeps(caps, m, id, e)
  {
    EventMovesTotals(m, id, e);
    LatchesExactly(caps, Totals(m), Totals(Observe(m, id, e)));
  }

  /** The totals once the first `i` events have been observed. */
  ghost function TotalsAt(m: Sessions, events: seq<(SessionId, Event)>, i: nat): CostSnapshot
    requires i <= |events|
  {
    Totals(ObserveAll(m, events[..i]))
  }

  /** Event `i` of the run keeps what is exceeded when it comes. */
  ghost predicate KeepsAt(caps: Caps, m: Sessions, events: seq<(SessionId, Event)>, i: nat)
    requires i < |events|
  {
    Keeps(caps, ObserveAll(m, events[..i]), events[i].0, events[i].1)
  }

  /** Over the whole run, nothing once exceeded is ever not exceeded later. */
  ghost predicate RunLatches(caps: Caps, m: Sessions, events: seq<(SessionId, Event)>) {
    forall i, j :: 0 <= i <= j <= |events| ==> Latches(caps, TotalsAt(m, events, i), TotalsAt(m, events, j))
  }

  ghost predicate RunKeeps(caps: Caps, m: Sessions, events: seq<(SessionId, Event)>) {
    forall i :: 0 <= i < |events| ==> KeepsAt(caps, m, events, i)
  }

  lemma NextObserved(m: Sessions, events: seq<(SessionId, Event)>, i: nat)
    requires i < |events|
    ensures ObserveAll(m, events[..i + 1]) == Observe(ObserveAll(m, events[..i]), events[i].0, events[i].1)
  {
    assert events[..i + 1][..i] == events[..i];
  }

  lemma NextLatches(caps: Caps, m: Sessions, events: seq<(SessionId, Event)>, i: nat)
    requires i < |events|
    ensures Latches(caps, TotalsAt(m, events, i), TotalsAt(m, events, i + 1)) <==> KeepsAt(caps, m, events, i)
  {
    NextObserved(m, events, i);
    StepLatchesExactly(caps, ObserveAll(m, events[..i]), events[i].0, events[i].1);
  }

  lemma LatchesTransitive(caps: Caps, a: CostSnapshot, b: CostSnapshot, c: CostSnapshot)
    requires Latches(caps, a, b) && Latches(caps, b, c)
    ensures Latches(caps, a, c)
  {
  }

  lemma {:induction false} KeptRunLatches(caps: Caps, m: Sessions, events: seq<(SessionId, Event)>, i: nat, j: nat)
    requires RunKeeps(caps, m, events) && i <= j <= |events|
    ensures Latches(caps, TotalsAt(m, events, i), TotalsAt(m, events, j))
  {
    if i < j {
      KeptRunLatches(caps, m, events, i, j - 1);
      assert KeepsAt(caps, m, events, j - 1);
      NextLatches(caps, m, events, j - 1);
      LatchesTransitive(caps, TotalsAt(m, events, i), TotalsAt(m, events, j - 1), TotalsAt(m, events, j));
    }
  }

  /**
    A run of observations and loads keeps exceeded exactly what each of its events keeps exceeded, for
    either kind of cap or both.
  */
  lemma RunLatchesExactly(caps: Caps, m: Sessions, events: seq<(SessionId, Event)>)
    ensures RunLatches(caps, m, events) <==> RunKeeps(caps, m, events)
  {
    if RunLatches(caps, m, events) {
      forall i | 0 <= i < |events| ensures KeepsAt(caps, m, events, i) {
        NextLatches(caps, m, events, i);
      }
    }
    if RunKeeps(caps, m, events) {
      forall i, j | 0 <= i <= j <= |events| ensures Latches(caps, TotalsAt(m, events, i), TotalsAt(m, events, j)) {
        KeptRunLatches(caps, m, events, i, j);
      }
    }
  }

  // ----- runs of observations alone

  /**
    No load, and a report that never lowers what the session has been billed: the first is not
    negative, later ones keep the currency and do not fall.
  */
  predicate Steady(c: SessionCost, e: Event) {
    && !e.Loaded?
    && (e.Updated? && e.update.cost.Some? ==>
          var cost := e.update.cost.value;
          (c.costUsd == 0.0 && cost.amount >= 0.0) || (cost.currency == c.currency && cost.amount >= c.costUsd))
  }

  predicate SteadyRun(m: Sessions, events: seq<(SessionId, Event)>) {
    forall i :: 0 <= i < |events| ==> Steady(Record(ObserveAll(m, events[..i]), events[i].0), events[i].1)
  }

  predicate Loadless(events: seq<(SessionId, Event)>) {
    forall i :: 0 <= i < |events| ==> !events[i].1.Loaded?
  }

  lemma StepNeverLowers(m: Sessions, id: SessionId, e: Event)
    ensures !e.Loaded? ==> Totals(m).totalTokens <= Totals(Observe(m, id, e)).totalTokens
    ensures Steady(Record(m, id), e) ==> Totals(m).totalCostUsd <= Totals(Observe(m, id, e)).totalCostUsd
  {
    EventMovesTotals(m, id, e);
  }

  lemma NextNeverLowers(m: Sessions, events: seq<(SessionId, Event)>, i: nat)
    requires i < |events|
    ensures Loadless(events) ==> TotalsAt(m, events, i).totalTokens <= TotalsAt(m, events, i + 1).totalTokens
    ensures SteadyRun(m, events) ==> TotalsAt(m, events, i).totalCostUsd <= TotalsAt(m, events, i + 1).totalCostUsd
  {
    var before := ObserveAll(m, events[..i]);
    NextObserved(m, events, i);
    StepNeverLowers(before, events[i].0, events[i].1);
    assert SteadyRun(m, events) ==> Steady(Record(before, events[i].0), events[i].1);
  }

  lemma {:induction false} Climbs(xs: seq<real>, i: nat, j: nat)
    requires i <= j < |xs| && forall k :: 0 <= k < |xs| - 1 ==> xs[k] <= xs[k + 1]
    ensures xs[i] <= xs[j]
  {
    if i < j {
      Climbs(xs, i, j - 1);
      assert xs[j - 1] <= xs[j - 1 + 1];
    }
  }

  ghost function TokensAt(m: Sessions, events: seq<(SessionId, Event)>): (xs: seq<real>)
    ensures |xs| == |events| + 1
  {
    seq(|events| + 1, i requires 0 <= i <= |events| => TotalsAt(m, events, i).totalTokens as real)
  }

  ghost function CostsAt(m: Sessions, events: seq<(SessionId, Event)>): (xs: seq<real>)
    ensures |xs| == |events| + 1
  {
    seq(|events| + 1, i requires 0 <= i <= |events| => TotalsAt(m, events, i).totalCostUsd)
  }

  lemma TokensNeverFall(m: Sessions, events: seq<(SessionId, Event)>, i: nat, j: nat)
    requires i <= j <= |events| && Loadless(events)
    ensures TotalsAt(m, events, i).totalTokens <= TotalsAt(m, events, j).totalTokens
  {
    var xs := TokensAt(m, events);
    forall k | 0 <= k < |xs| - 1 ensures xs[k] <= xs[k + 1] {
      NextNeverLowers(m, events, k);
    }
    Climbs(xs, i, j);
  }

  lemma CostNeverFalls(m: Sessions, events: seq<(SessionId, Event)>, i: nat, j: nat)
    requires i <= j <= |events| && SteadyRun(m, events)
    ensures TotalsAt(m, events, i).totalCostUsd <= TotalsAt(m, events, j).totalCostUsd
  {
    var xs := CostsAt(m, events);
    forall k | 0 <= k < |xs| - 1 ensures xs[k] <= xs[k + 1] {
      NextNeverLowers(m, events, k);
    }
    Climbs(xs, i, j);
  }

  /** Over any run without a load the total of tokens never falls, and over a steady one neither does the total cost. */
  lemma TotalsNeverFall(m: Sessions, events: seq<(SessionId, Event)>, i: nat, j: nat)
    requires i <= j <= |events|
    ensures Loadless(events) ==> TotalsAt(m, events, i).totalTokens <= TotalsAt(m, events, j).totalTokens
    ensures SteadyRun(m, events) ==> TotalsAt(m, events, i).totalCostUsd <= TotalsAt(m, events, j).totalCostUsd
  {
    if Loadless(events) {
      TokensNeverFall(m, events, i, j);
    }
    if SteadyRun(m, events) {
      CostNeverFalls(m, events, i, j);
    }
  }

  /** Over any run without a load an exceeded token cap stays exceeded; over a steady one every exceeded budget does. */
  lemma VerdictLatches(o: Options, m: Sessions, events: seq<(SessionId, Event)>, i: nat, j: nat)
    requires i <= j <= |events|
    ensures Loadless(events) && TokensExceeded(o, TotalsAt(m, events, i)) ==> TokensExceeded(o, TotalsAt(m, events, j))
    ensures SteadyRun(m, events) && StatusOf(o, TotalsAt(m, events, i)).budgetExceeded ==>
              StatusOf(o, TotalsAt(m, events, j)).budgetExceeded
  {
    TotalsNeverFall(m, events, i, j);
    assert SteadyRun(m, events) ==> Loadless(events);
  }

  lemma OneSession(m: Sessions, id: SessionId)
    requires m.Keys == {id}
    ensures Totals(m).totalCostUsd == Contribution(m[id]) && Totals(m).totalTokens == m[id].totalTokens
  {
    assert id in m && forall k :: k in m ==> k == id;
    TotalsOfWalk(m, [id]);
    assert Records(m, [id]) == [m[id]];
    AggregateOneMore([], m[id], |m|);
    assert [] + [m[id]] == [m[id]];
  }

  function Reported(dollars: real): Event {
    Updated(UsageUpdate(Some(Cost(dollars, "USD")), 0, 0))
  }

  /** A smaller second report undoes an exceeded cost cap: ten dollars, then five, under a cap of eight. */
  lemma CostVerdictCanRevert(id: SessionId, options: Options)
    requires options.maxCostUsd == Some(8.0) && options.maxTotalTokens == None
    ensures var ten, five := Reported(10.0), Reported(5.0);
            var m := Observe(map[], id, ten);
            StatusOf(options, Totals(m)).budgetExceeded &&
                !StatusOf(options, Totals(Observe(m, id, five))).budgetExceeded
  {
    var ten, five := Reported(10.0), Reported(5.0);
    var m := Observe(map[], id, ten);
    OneSession(m, id);
    OneSession(Observe(m, id, five), id);
  }

  /**
    Loading a smaller saved record undoes an exceeded token cap: a hundred tokens, then a load of ten,
    under a cap of fifty.
  */
  lemma TokenVerdictCanRevert(id: SessionId, options: Options)
    requires options.maxCostUsd == None && options.maxTotalTokens == Some(50)
    ensures var hundred, ten := Prompted(Usage(0, 0, None, None, None, 100)),
        Loaded(SnapshotOf(ZERO_COST.(totalTokens := 10)));
            var m := Observe(map[], id, hundred);
            StatusOf(options, Totals(m)).budgetExceeded &&
                !StatusOf(options, Totals(Observe(m, id, ten))).budgetExceeded
  {
    var hundred, ten := Prompted(Usage(0, 0, None, None, None, 100)), Loaded(SnapshotOf(ZERO_COST.(totalTokens := 10)));
    var m := Observe(map[], id, hundred);
    OneSession(m, id);
    OneSession(Observe(m, id, ten), id);
  }
}
