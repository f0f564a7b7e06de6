/**
  The delay before each retry: doubling with a cap on 64-bit durations, then
  jitter.  Fractions are exact here; the source's float64 rounds.
*/
module RetryPolicies {
  import opened Wrappers
  import opened ErrorClassification

  const SECOND: int := 1_000_000_000

  type Duration = Int64

  datatype RetryPolicy = RetryPolicy(maxRetries: int, baseDelay: Duration, maxDelay: Duration, jitterRatio: real)

  const DEFAULT_POLICY := RetryPolicy(5, SECOND / 2, 30 * SECOND, 0.25)

  function Normalise(p: RetryPolicy): RetryPolicy {
    RetryPolicy(if p.maxRetries <= 0 then DEFAULT_POLICY.maxRetries else p.maxRetries,
                if p.baseDelay <= 0 then DEFAULT_POLICY.baseDelay else p.baseDelay,
                if p.maxDelay <= 0 then DEFAULT_POLICY.maxDelay else p.maxDelay,
                if p.jitterRatio <= 0.0 then DEFAULT_POLICY.jitterRatio else p.jitterRatio)
  }

  /** What a policy means for its caller: five retries unless it names a positive number of its own. */
  function OwnRetries(p: RetryPolicy): nat {
    if p.maxRetries > 0 then p.maxRetries else 5
  }

  /** Half a second. */
  function OwnBase(p: RetryPolicy): Duration {
    if p.baseDelay > 0 then p.baseDelay else 500_000_000
  }

  /** Half a minute. */
  function OwnCap(p: RetryPolicy): Duration {
    if p.maxDelay > 0 then p.maxDelay else 30_000_000_000
  }

  /** A quarter. */
  function OwnRatio(p: RetryPolicy): real {
    if p.jitterRatio > 0.0 then p.jitterRatio else 0.25
  }

  lemma NormaliseKeepsPositive(p: RetryPolicy)
    ensures Normalise(p) == RetryPolicy(OwnRetries(p), OwnBase(p), OwnCap(p), OwnRatio(p))
  {
  }

  /**
    What chance and the platform contribute: the random draw (none if the source of randomness failed),
    and what an unrepresentable float converts to.
  */
  datatype Chance = Chance(draw: nat, failed: bool, unrepresentable: Duration)

  function ToDuration(x: real, chance: Chance): Duration {
    if IsInt64(x.Floor) && x >= 0.0 then x.Floor else chance.unrepresentable
  }

  /**
    `draw` modulo the bound stands for the uniform draw below it.  `None` is the run-time panic of a
    draw below a bound that is not positive.
  */
  function DrawJitter(delay: Duration, window: Duration, maxDelay: Duration, chance: Chance): Option<Duration> {
    var bound := Wrap(window + 1);
    if window <= 0 then Some(delay)
    else if bound <= 0 then None
    else if chance.failed then Some(delay)
    else
      var jittered := Wrap(delay + chance.draw % bound);
      Some(if maxDelay > 0 && jittered > maxDelay then maxDelay else jittered)
  }

  /** What the jitter window of a positive delay becomes as a duration. */
  function JitterWindow(delay: Duration, ratio: real, chance: Chance): Duration {
    ToDuration(delay as real * ratio, chance)
  }

  function ApplyJitter(delay: Duration, ratio: real, maxDelay: Duration, chance: Chance): Option<Duration> {
    if delay <= 0 || ratio <= 0.0 then Some(delay)
    else DrawJitter(delay, JitterWindow(delay, ratio, chance), maxDelay, chance)
  }

  /** `doublings` more rounds of the doubling loop. */
  function DoubleFrom(delay: Duration, maxDelay: Duration, doublings: nat): Duration
    decreases doublings
  {
    if doublings == 0 then delay
    else
      var next := Wrap(delay * 2);
      if next >= maxDelay then maxDelay else DoubleFrom(next, maxDelay, doublings - 1)
  }

  /** The delay of an attempt before jitter. */
  function Backoff(p: RetryPolicy, attempt: int): Duration {
    DoubleFrom(p.baseDelay, p.maxDelay, Max(attempt - 1, 0))
  }

  function DelayFor(p: RetryPolicy, attempt: int, chance: Chance): Option<Duration> {
    ApplyJitter(Backoff(p, attempt), p.jitterRatio, p.maxDelay, chance)
  }

  /** How often the loop runs when `doublings` rounds are asked for. */
  function Rounds(delay: Duration, maxDelay: Duration, doublings: nat): nat
    decreases doublings
  {
    if doublings == 0 then 0
    else if Wrap(delay * 2) >= maxDelay then 1
    else 1 + Rounds(Wrap(delay * 2), maxDelay, doublings - 1)
  }

  method ComputeDelay(p: RetryPolicy, attempt: int, chance: Chance)
      returns (result: Option<Duration>, ghost rounds: nat)
    ensures result == DelayFor(p, attempt, chance)
    ensures rounds == Rounds(p.baseDelay, p.maxDelay, Max(attempt - 1, 0))
  {
    var attempts := if attempt < 1 then 1 else attempt;
    var delay: Duration := p.baseDelay;
    rounds := 0;
    var i := 1;
    while i < attempts
      invariant 1 <= i <= attempts
      invariant DoubleFrom(delay, p.maxDelay, attempts - i) == Backoff(p, attempt)
      invariant rounds + Rounds(delay, p.maxDelay, attempts - i) == Rounds(p.baseDelay, p.maxDelay, attempts - 1)
    {
      delay := Wrap(delay * 2);
      rounds := rounds + 1;
      if delay >= p.maxDelay {
        delay := p.maxDelay;
        break;
      }
      i := i + 1;
    }
    assert delay == Backoff(p, attempt);
    result := ApplyJitter(delay, p.jitterRatio, p.maxDelay, chance);
  }

  function Pow2(k: nat): nat {
    if k == 0 then 1 else 2 * Pow2(k - 1)
  }

  /** The first doubling of `delay` to reach `maxDelay`. */
  function TopDoubling(delay: int, maxDelay: int): int
    requires 0 < delay
    decreases maxDelay - delay
  {
    if 2 * delay >= maxDelay then 2 * delay else TopDoubling(2 * delay, maxDelay)
  }

  /** The documented schedule: base times a power of two, clamped. */
  ghost predicate FollowsSchedule(delay: Duration, maxDelay: Duration) {
    forall k: nat :: DoubleFrom(delay, maxDelay, k) == Min(delay * Pow2(k), maxDelay)
  }

  lemma {:induction false} PowPositive(k: nat)
    ensures Pow2(k) >= 1
  {
    if k > 0 {
      PowPositive(k - 1);
    }
  }

  lemma PowStep(d: int, k: nat)
    requires k > 0
    ensures d * Pow2(k) == (2 * d) * Pow2(k - 1)
  {
  }

  lemma PowGrows(d: nat, k: nat)
    ensures d <= d * Pow2(k)
  {
    PowPositive(k);
  }

  lemma {:induction false} DoublingSchedule(delay: Duration, maxDelay: Duration, k: nat)
    requires 0 < delay <= maxDelay && TopDoubling(delay, maxDelay) <= MAX_INT64
    ensures DoubleFrom(delay, maxDelay, k) == Min(delay * Pow2(k), maxDelay)
    decreases k
  {
    if k > 0 {
      PowStep(delay, k);
      PowGrows(2 * delay, k - 1);
      if 2 * delay < maxDelay {
        DoublingSchedule(2 * delay, maxDelay, k - 1);
      }
    }
  }

  /** Past the top the product wraps to a negative number, which the cap does not catch. */
  lemma {:induction false} WrapsAtTop(delay: Duration, maxDelay: Duration) returns (k: nat)
    requires 0 < delay <= maxDelay && TopDoubling(delay, maxDelay) > MAX_INT64
    ensures DoubleFrom(delay, maxDelay, k) < 0
    decreases maxDelay - delay
  {
    if 2 * delay >= maxDelay {
      k := 1;
      assert Wrap(delay * 2) == delay * 2 - 0x1_0000_0000_0000_0000;
      assert DoubleFrom(Wrap(delay * 2), maxDelay, 0) == Wrap(delay * 2);
    } else {
      var below := WrapsAtTop(2 * delay, maxDelay);
      k := below + 1;
    }
  }

  /**
    The schedule is the documented one for every attempt exactly when the first doubling to reach the
    cap still fits 64 bits.
  */
  lemma ScheduleHoldsExactlyWhenTopFits(delay: Duration, maxDelay: Duration)
    requires 0 < delay <= maxDelay
    ensures FollowsSchedule(delay, maxDelay) <==> TopDoubling(delay, maxDelay) <= MAX_INT64
  {
    if TopDoubling(delay, maxDelay) <= MAX_INT64 {
      forall k: nat ensures DoubleFrom(delay, maxDelay, k) == Min(delay * Pow2(k), maxDelay) {
        DoublingSchedule(delay, maxDelay, k);
      }
    } else {
      var k := WrapsAtTop(delay, maxDelay);
      PowGrows(delay, k);
      assert DoubleFrom(delay, maxDelay, k) != Min(delay * Pow2(k), maxDelay);
    }
  }

  lemma {:induction false} TopFits(delay: int, maxDelay: int)
    requires 0 < delay <= maxDelay < 0x4000_0000_0000_0000
    ensures TopDoubling(delay, maxDelay) <= MAX_INT64
    decreases maxDelay - delay
  {
    if 2 * delay < maxDelay {
      TopFits(2 * delay, maxDelay);
    }
  }

  /** The preconditions under which the documented bounds hold. */
  predicate Reasonable(p: RetryPolicy) {
    0 < p.baseDelay <= p.maxDelay < 0x4000_0000_0000_0000 && 0.0 < p.jitterRatio <= 1.0
  }

  /** How much jitter can add to a delay. */
  function Window(delay: Duration, ratio: real): int {
    (delay as real * ratio).Floor
  }

  /** The window is never wider than the delay, so it is always representable. */
  lemma WindowFits(delay: Duration, ratio: real)
    requires 0 < delay && 0.0 < ratio <= 1.0
    ensures 0 <= Window(delay, ratio) <= delay
  {
    var product := delay as real * ratio;
    assert 0.0 <= product <= delay as real;
  }

  lemma WindowGrows(delay: Duration, larger: Duration, ratio: real)
    requires 0 < delay <= larger && 0.0 < ratio <= 1.0
    ensures Window(delay, ratio) <= Window(larger, ratio)
  {
    assert delay as real * ratio <= larger as real * ratio;
  }

  predicate JitteredWithin(delay: Duration, ratio: real, maxDelay: Duration, chance: Chance) {
    var jittered := ApplyJitter(delay, ratio, maxDelay, chance);
    jittered.Some? && delay <= jittered.value <= maxDelay
  }

  /**
    Jitter keeps a delay between itself and the cap exactly when the window is not the largest
    duration, and nothing is drawn or the sum fits 64 bits.
  */
  lemma JitterBounds(delay: Duration, ratio: real, maxDelay: Duration, chance: Chance)
    requires 0 < delay <= maxDelay && 0.0 < ratio <= 1.0
    ensures Window(delay, ratio) >= 0
    ensures JitteredWithin(delay, ratio, maxDelay, chance) <==>
            && Window(delay, ratio) < MAX_INT64
            && (chance.failed || delay + chance.draw % (Window(delay, ratio) + 1) <= MAX_INT64)
  {
    WindowFits(delay, ratio);
  }

  lemma JitterWithin(delay: Duration, ratio: real, maxDelay: Duration, chance: Chance)
    requires 0 < delay <= maxDelay && 0.0 < ratio <= 1.0 && delay + Window(delay, ratio) <= MAX_INT64
    ensures JitteredWithin(delay, ratio, maxDelay, chance)
  {
    JitterBounds(delay, ratio, maxDelay, chance);
  }

  lemma DrawBelow(x: nat, bound: nat)
    requires x < bound
    ensures x % bound == x
  {
  }

  /** The largest draw. */
  lemma JitterBeyond(delay: Duration, ratio: real, maxDelay: Duration) returns (chance: Chance)
    requires 0 < delay <= maxDelay && 0.0 < ratio <= 1.0
    ensures delay + Window(delay, ratio) > MAX_INT64 ==> !JitteredWithin(delay, ratio, maxDelay, chance)
  {
    WindowFits(delay, ratio);
    var window := Window(delay, ratio);
    chance := Chance(window, false, 0);
    DrawBelow(window, window + 1);
    JitterBounds(delay, ratio, maxDelay, chance);
  }

  lemma JitterApplied(delay: Duration, ratio: real, maxDelay: Duration, chance: Chance)
    requires 0 < delay && 0.0 < ratio
    ensures ApplyJitter(delay, ratio, maxDelay, chance) ==
            DrawJitter(delay, JitterWindow(delay, ratio, chance), maxDelay, chance)
  {
  }

  /** Every delay from the one before jitter up to its window is drawn by some draw, cut at the cap if there is one. */
  lemma JitterReaches(delay: Duration, ratio: real, maxDelay: Duration, x: nat, unrepresentable: Duration)
    requires 0 < delay && 0.0 < ratio <= 1.0
    ensures x <= Window(delay, ratio) <= MAX_INT64 - delay ==>
              ApplyJitter(delay, ratio, maxDelay, Chance(x, false, unrepresentable)) ==
              Some(if Window(delay, ratio) > 0 && 0 < maxDelay < delay + x then maxDelay else delay + x)
  {
    WindowFits(delay, ratio);
    JitterApplied(delay, ratio, maxDelay, Chance(x, false, unrepresentable));
    if x <= Window(delay, ratio) <= MAX_INT64 - delay {
      DrawReaches(delay, Window(delay, ratio), maxDelay, x, unrepresentable);
    }
  }

  lemma DrawReaches(delay: Duration, window: Duration, maxDelay: Duration, x: nat, unrepresentable: Duration)
    requires 0 < delay && x <= window && delay + window <= MAX_INT64
    ensures DrawJitter(delay, window, maxDelay, Chance(x, false, unrepresentable)) ==
            Some(if window > 0 && 0 < maxDelay < delay + x then maxDelay else delay + x)
  {
    if window > 0 {
      DrawBelow(x, window + 1);
    }
  }

  lemma {:induction false} PowAbove(d: nat, k: nat)
    requires d > 0
    ensures d * Pow2(k) > k
  {
    if k > 0 {
      PowAbove(d, k - 1);
      assert d * Pow2(k) == d * Pow2(k - 1) + d * Pow2(k - 1);
    }
  }

  /** The documented bounds on the delay of one attempt, for one draw. */
  predicate WithinBounds(p: RetryPolicy, attempt: int, chance: Chance) {
    var delay := DelayFor(p, attempt, chance);
    delay.Some? && Min(p.baseDelay * Pow2(Max(attempt - 1, 0)), p.maxDelay) <= delay.value <= p.maxDelay
  }

  lemma BoundsFromTop(p: RetryPolicy, attempt: int, chance: Chance)
    requires 0 < p.baseDelay <= p.maxDelay && 0.0 < p.jitterRatio <= 1.0
    requires TopDoubling(p.baseDelay, p.maxDelay) <= MAX_INT64
    requires p.maxDelay + Window(p.maxDelay, p.jitterRatio) <= MAX_INT64
    ensures WithinBounds(p, attempt, chance)
  {
    var delay := Backoff(p, attempt);
    DoublingSchedule(p.baseDelay, p.maxDelay, Max(attempt - 1, 0));
    PowGrows(p.baseDelay, Max(attempt - 1, 0));
    WindowGrows(delay, p.maxDelay, p.jitterRatio);
    JitterWithin(delay, p.jitterRatio, p.maxDelay, chance);
  }

  /** Some attempt has the cap itself for its delay. */
  lemma CapReached(p: RetryPolicy) returns (attempt: int)
    requires 0 < p.baseDelay <= p.maxDelay && TopDoubling(p.baseDelay, p.maxDelay) <= MAX_INT64
    ensures Backoff(p, attempt) == p.maxDelay == Min(p.baseDelay * Pow2(Max(attempt - 1, 0)), p.maxDelay)
  {
    attempt := p.maxDelay + 1;
    DoublingSchedule(p.baseDelay, p.maxDelay, p.maxDelay);
    PowAbove(p.baseDelay, p.maxDelay);
  }

  /**
    Every attempt's delay, whatever is drawn, lies between the clamped schedule and the cap exactly
    when the top doubling fits 64 bits and so does the cap with the jitter on top.
  */
  lemma DelayBoundsExactly(p: RetryPolicy)
    requires 0 < p.baseDelay <= p.maxDelay && 0.0 < p.jitterRatio <= 1.0
    ensures (forall attempt, chance :: WithinBounds(p, attempt, chance)) <==>
            && TopDoubling(p.baseDelay, p.maxDelay) <= MAX_INT64
            && p.maxDelay + Window(p.maxDelay, p.jitterRatio) <= MAX_INT64
  {
    if TopDoubling(p.baseDelay, p.maxDelay) > MAX_INT64 {
      var k := WrapsAtTop(p.baseDelay, p.maxDelay);
      var chance := Chance(0, true, 0);
      PowGrows(p.baseDelay, k);
      assert DelayFor(p, k + 1, chance) == Some(Backoff(p, k + 1)) && Backoff(p, k + 1) < 0;
      assert !WithinBounds(p, k + 1, chance);
    } else if p.maxDelay + Window(p.maxDelay, p.jitterRatio) > MAX_INT64 {
      var attempt := CapReached(p);
      var chance := JitterBeyond(p.maxDelay, p.jitterRatio, p.maxDelay);
      assert !WithinBounds(p, attempt, chance);
    } else {
      forall attempt, chance ensures WithinBounds(p, attempt, chance) {
        BoundsFromTop(p, attempt, chance);
      }
    }
  }

  /** A cap below 2^62 is small enough for both. */
  lemma DelayBounds(p: RetryPolicy, attempt: int, chance: Chance)
    requires Reasonable(p)
    ensures WithinBounds(p, attempt, chance)
  {
    TopFits(p.baseDelay, p.maxDelay);
    WindowFits(p.maxDelay, p.jitterRatio);
    BoundsFromTop(p, attempt, chance);
  }

  /** With a base within the cap no delay is above it, whatever overflows. */
  lemma {:induction false} DoubleFromCapped(delay: Duration, maxDelay: Duration, k: nat)
    requires delay <= maxDelay
    ensures DoubleFrom(delay, maxDelay, k) <= maxDelay
    decreases k
  {
    if k > 0 && Wrap(delay * 2) < maxDelay {
      DoubleFromCapped(Wrap(delay * 2), maxDelay, k - 1);
    }
  }

  /** After a doubling that holds for any base. */
  lemma LaterDelaysCapped(p: RetryPolicy, attempt: int, chance: Chance)
    requires 0 < p.maxDelay && attempt > 1
    ensures DelayFor(p, attempt, chance).Some? ==> DelayFor(p, attempt, chance).value <= p.maxDelay
  {
    if Wrap(p.baseDelay * 2) < p.maxDelay {
      DoubleFromCapped(Wrap(p.baseDelay * 2), p.maxDelay, attempt - 2);
    }
  }

  lemma DelayCapped(p: RetryPolicy, attempt: int, chance: Chance)
    requires 0 < p.maxDelay && p.baseDelay <= p.maxDelay
    ensures DelayFor(p, attempt, chance).Some? ==> DelayFor(p, attempt, chance).value <= p.maxDelay
  {
    DoubleFromCapped(p.baseDelay, p.maxDelay, Max(attempt - 1, 0));
  }

  lemma {:induction false} PowMonotone(d: nat, j: nat, k: nat)
    requires j <= k
    ensures d * Pow2(j) <= d * Pow2(k)
  {
    if j < k {
      PowMonotone(d, j, k - 1);
      PowStep(d, k);
    }
  }

  /**
    Before jitter, the delay never falls from one attempt to a later one exactly when the top doubling
    fits 64 bits.
  */
  lemma BackoffMonotone(p: RetryPolicy)
    requires 0 < p.baseDelay <= p.maxDelay
    ensures (forall a, b :: a <= b ==> Backoff(p, a) <= Backoff(p, b)) <==>
        TopDoubling(p.baseDelay, p.maxDelay) <= MAX_INT64
  {
    if TopDoubling(p.baseDelay, p.maxDelay) <= MAX_INT64 {
      forall a, b | a <= b ensures Backoff(p, a) <= Backoff(p, b) {
        DoublingSchedule(p.baseDelay, p.maxDelay, Max(a - 1, 0));
        DoublingSchedule(p.baseDelay, p.maxDelay, Max(b - 1, 0));
        PowMonotone(p.baseDelay, Max(a - 1, 0), Max(b - 1, 0));
      }
    } else {
      var k := WrapsAtTop(p.baseDelay, p.maxDelay);
      assert Backoff(p, k + 1) < 0 < Backoff(p, 1);
    }
  }

  /**
    The loop stops as soon as any number of doublings would reach the cap: after the ceiling of the
    logarithm of the ratio, or one round.
  */
  lemma {:induction false} RoundsBounded(delay: Duration, maxDelay: Duration, doublings: nat, j: nat)
    requires 0 < delay <= maxDelay && TopDoubling(delay, maxDelay) <= MAX_INT64
    requires 1 <= j && delay * Pow2(j) >= maxDelay
    ensures Rounds(delay, maxDelay, doublings) <= j
    decreases doublings
  {
    if doublings > 0 && 2 * delay < maxDelay {
      PowStep(delay, j);
      assert Pow2(0) == 1;
      RoundsBounded(2 * delay, maxDelay, doublings - 1, j - 1);
    }
  }

  predicate FullWindow(delay: Duration, ratio: real, chance: Chance) {
    delay > 0 && ratio > 0.0 && JitterWindow(delay, ratio, chance) == MAX_INT64
  }

  lemma FirstBackoff(p: RetryPolicy)
    ensures Backoff(p, 1) == p.baseDelay
  {
  }

  /**
    The first attempt is within the cap exactly when the base is, or jitter is actually applied; it
    panics exactly when the window is the largest duration.
  */
  lemma FirstAttemptClamped(p: RetryPolicy, chance: Chance)
    requires 0 < p.maxDelay && 0 < p.baseDelay && 0.0 < p.jitterRatio
    ensures var delay, window := DelayFor(p, 1, chance), JitterWindow(p.baseDelay, p.jitterRatio, chance);
            && (delay.None? <==> window == MAX_INT64)
            && (delay.Some? ==>
                  (delay.value <= p.maxDelay <==> p.baseDelay <= p.maxDelay || (window > 0 && !chance.failed)))
  {
    FirstBackoff(p);
    JitterApplied(p.baseDelay, p.jitterRatio, p.maxDelay, chance);
    DrawClamped(p.baseDelay, JitterWindow(p.baseDelay, p.jitterRatio, chance), p.maxDelay, chance);
  }

  lemma DrawClamped(delay: Duration, window: Duration, maxDelay: Duration, chance: Chance)
    requires 0 < maxDelay
    ensures var jittered := DrawJitter(delay, window, maxDelay, chance);
            && (jittered.None? <==> window == MAX_INT64)
            && (jittered.Some? ==>
                (jittered.value <= maxDelay <==> delay <= maxDelay || (window > 0 && !chance.failed)))
  {
  }

  lemma JitterPanics(delay: Duration, ratio: real, maxDelay: Duration, chance: Chance)
    ensures ApplyJitter(delay, ratio, maxDelay, chance).None? <==> FullWindow(delay, ratio, chance)
  {
  }

  /** With a ratio up to one, only the largest delay with the ratio one has the largest window. */
  lemma FullWindowExactly(delay: Duration, ratio: real, chance: Chance)
    requires 0.0 < ratio <= 1.0
    ensures FullWindow(delay, ratio, chance) <==> delay == MAX_INT64 && ratio == 1.0
  {
    if delay > 0 {
      WindowFits(delay, ratio);
      if ratio < 1.0 {
        assert delay as real * ratio < delay as real;
      } else {
        assert delay as real * ratio == delay as real;
      }
    }
  }

  /** A doubled delay is even, and the largest duration is odd. */
  lemma {:induction false} DoubledNotLargest(delay: Duration, maxDelay: Duration, k: nat)
    requires k > 0
    ensures DoubleFrom(delay, maxDelay, k) < MAX_INT64
    decreases k
  {
    var next := Wrap(delay * 2);
    assert next % 2 == 0;
    if next < maxDelay {
      if k > 1 {
        DoubledNotLargest(next, maxDelay, k - 1);
      } else {
        assert DoubleFrom(next, maxDelay, 0) == next;
      }
    }
  }

  /**
    With a jitter ratio up to one, computing a delay panics exactly for the largest base, undoubled, and
    a ratio of one.
  */
  lemma PanicsExactly(p: RetryPolicy, attempt: int, chance: Chance)
    requires 0.0 < p.jitterRatio <= 1.0
    ensures DelayFor(p, attempt, chance).None? <==> attempt <= 1 && p.baseDelay == MAX_INT64 && p.jitterRatio == 1.0
  {
    JitterPanics(Backoff(p, attempt), p.jitterRatio, p.maxDelay, chance);
    FullWindowExactly(Backoff(p, attempt), p.jitterRatio, chance);
    if attempt > 1 {
      DoubledNotLargest(p.baseDelay, p.maxDelay, attempt - 1);
    }
  }

  datatype RetryDecision = RetryDecision(class_: Class, retryable: bool, attempt: int, maxRetries: int, delay: Duration)

  /** `None` is the panic of the delay. */
  function EvaluateRetry(err: Error, attempt: int, policy: RetryPolicy, chance: Chance): Option<RetryDecision> {
    var p, c := Normalise(policy), ClassifyError(Some(err));
    if !c.retryable || attempt > p.maxRetries then
      Some(RetryDecision(c.class_, false, attempt, p.maxRetries, 0))
    else if err.hintSeconds > 0.0 then
      var hint := ToDuration(err.hintSeconds * SECOND as real, chance);
      Some(RetryDecision(c.class_, true, attempt, p.maxRetries, Min(hint, p.maxDelay)))
    else
      var delay := DelayFor(p, attempt, chance);
      if delay.None? then None else Some(RetryDecision(c.class_, true, attempt, p.maxRetries, delay.value))
  }

  predicate MayRetry(err: Error, attempt: int, policy: RetryPolicy) {
    ClassifyError(Some(err)).retryable && attempt <= OwnRetries(policy)
  }

  /**
    A retry never exceeds the allowed count, and with a base within the cap never waits longer
    than the cap, hint included; the decision panics only where it would compute a delay.
  */
  lemma DecisionBounds(err: Error, attempt: int, policy: RetryPolicy, chance: Chance)
    ensures var d, p := EvaluateRetry(err, attempt, policy, chance), Normalise(policy);
            && (d.None? <==>
                  MayRetry(err, attempt, policy) && err.hintSeconds <= 0.0 && DelayFor(p, attempt, chance).None?)
            && (d.Some? ==> (d.value.retryable <==> MayRetry(err, attempt, policy)))
            && (d.Some? ==> d.value.attempt == attempt && d.value.maxRetries == OwnRetries(policy))
            && (d.Some? ==> d.value.class_ == ClassifyError(Some(err)).class_)
            && (d.Some? && !d.value.retryable ==> d.value.delay == 0)
            && (d.Some? && OwnBase(policy) <= OwnCap(policy) ==> d.value.delay <= OwnCap(policy))
            && (d.Some? && d.value.retryable && err.hintSeconds > 0.0 ==> d.value.delay <= OwnCap(policy))
  {
    if Normalise(policy).baseDelay <= Normalise(policy).maxDelay {
      DelayCapped(Normalise(policy), attempt, chance);
    }
  }

  /**
    How long a retry waits: a hint of so many seconds is followed up to the cap; without a hint and
    without jitter the wait is the caller's base doubled for every attempt made, up to the cap, while
    the top doubling fits 64 bits.
  */
  lemma DecisionDelay(err: Error, attempt: int, policy: RetryPolicy, chance: Chance)
    requires MayRetry(err, attempt, policy)
    ensures 0.0 < err.hintSeconds && (err.hintSeconds * 1_000_000_000.0).Floor <= MAX_INT64 ==>
              var d := EvaluateRetry(err, attempt, policy, chance);
              d.Some? && d.value.delay == Min((err.hintSeconds * 1_000_000_000.0).Floor, OwnCap(policy))
    ensures err.hintSeconds <= 0.0 && chance.failed && OwnBase(policy) <= OwnCap(policy)
            && TopDoubling(OwnBase(policy), OwnCap(policy)) <= MAX_INT64
            && OwnRatio(policy) <= 1.0 && OwnBase(policy) < MAX_INT64 ==>
              var d := EvaluateRetry(err, attempt, policy, chance);
              d.Some? && d.value.delay == Min(OwnBase(policy) * Pow2(Max(attempt - 1, 0)), OwnCap(policy))
  {
    var p := Normalise(policy);
    if err.hintSeconds <= 0.0 && chance.failed && OwnBase(policy) <= OwnCap(policy) && OwnRatio(policy) <= 1.0 &&
        OwnBase(policy) < MAX_INT64 && TopDoubling(OwnBase(policy), OwnCap(policy)) <= MAX_INT64 {
      DoublingSchedule(p.baseDelay, p.maxDelay, Max(attempt - 1, 0));
      PanicsExactly(p, attempt, chance);
      NothingDrawn(p, attempt, chance);
    }
  }

  lemma NothingDrawn(p: RetryPolicy, attempt: int, chance: Chance)
    requires chance.failed && DelayFor(p, attempt, chance).Some?
    ensures DelayFor(p, attempt, chance).value == Backoff(p, attempt)
  {
  }
}
