/**
  The retry loop of `ResilientQuery`.  What the outside does in each attempt
  (the context, the query's outcome, chance, and whether the sleep is cut short)
  is given by `world`, one entry an attempt.
*/
module ResilientQuery {
  import Strings
  import opened Wrappers
  import opened ErrorClassification
  import opened RetryPolicies

  datatype ContextError = ContextCancelled | DeadlineExceeded

  datatype Outcome<R> = Answered(answer: R) | Failed(error: Error)

  datatype Attempt<R> = Attempt(
    contextBefore: Option<ContextError>,
    outcome: Outcome<R>,
    chance: Chance,
    sleepCut: Option<ContextError>
  )

  datatype Result<R> = Answer(answer: R) | QueryError(error: Error) | ContextEnded(context: ContextError)
      | Exhausted(last: Option<Error>) | Panicked

  /** A finished run: its result, how many queries it made, and how long it slept. */
  datatype Run<R> = Run(result: Result<R>, queries: nat, slept: nat)

  /** What one attempt leads to: the end of the run, or another attempt after a sleep. */
  datatype Verdict<R> = Over(last: Run<R>) | Again(error: Error, slept: nat)

  /** `sleepOrCancel`: nothing to sleep cannot be cut short. */
  function SleepCut<R>(a: Attempt<R>, delay: Duration): Option<ContextError> {
    if delay <= 0 then None else a.sleepCut
  }

  function Judge<R>(p: RetryPolicy, a: Attempt<R>, attempt: nat): Verdict<R> {
    if a.contextBefore.Some? then Over(Run(ContextEnded(a.contextBefore.value), 0, 0))
    else
      match a.outcome
      case Answered(answer) => Over(Run(Answer(answer), 1, 0))
      case Failed(error) =>
        match EvaluateRetry(error, attempt + 1, p, a.chance)
        case None => Over(Run(Panicked, 1, 0))
        case Some(d) =>
          var cut := SleepCut(a, d.delay);
          if !d.retryable then Over(Run(QueryError(error), 1, 0))
          else if cut.Some? then Over(Run(ContextEnded(cut.value), 1, Max(d.delay, 0)))
          else Again(error, Max(d.delay, 0))
  }

  function Verdicts<R>(p: RetryPolicy, world: nat -> Attempt<R>): nat -> Verdict<R> {
    (i: nat) => Judge(p, world(i), i)
  }

  /** The run from attempt `attempt` on, given what each attempt leads to. */
  function RunFrom<R>(verdicts: nat -> Verdict<R>, maxRetries: int, attempt: nat, last: Option<Error>): Run<R>
    decreases maxRetries + 1 - attempt
  {
    if attempt > maxRetries then Run(Exhausted(last), 0, 0)
    else
      match verdicts(attempt)
      case Over(run) => run
      case Again(error, slept) =>
        var rest := RunFrom(verdicts, maxRetries, attempt + 1, Some(error));
        Run(rest.result, rest.queries + 1, rest.slept + slept)
  }

  function WholeRun<R>(policy: RetryPolicy, world: nat -> Attempt<R>): Run<R> {
    RunFrom(Verdicts(Normalise(policy), world), Normalise(policy).maxRetries, 0, None)
  }

  /** What the loop still does from attempt `attempt` on. */
  function Rest<R>(p: RetryPolicy, world: nat -> Attempt<R>, attempt: nat, last: Option<Error>): Run<R> {
    RunFrom(Verdicts(p, world), p.maxRetries, attempt, last)
  }

  /** A run that has already made `queries` queries and slept for `slept`. */
  function Onto<R>(queries: nat, slept: nat, rest: Run<R>): Run<R> {
    Run(rest.result, queries + rest.queries, slept + rest.slept)
  }

  lemma OntoAgain<R>(queries: nat, slept: nat, more: nat, rest: Run<R>)
    ensures Onto(queries, slept, Onto(1, more, rest)) == Onto(queries + 1, slept + more, rest)
  {
  }

  lemma RestUnfolds<R>(p: RetryPolicy, world: nat -> Attempt<R>, attempt: nat, last: Option<Error>)
    requires attempt <= p.maxRetries
    ensures Rest(p, world, attempt, last) ==
            match Judge(p, world(attempt), attempt)
            case Over(run) => run
            case Again(error, slept) => Onto(1, slept, Rest(p, world, attempt + 1, Some(error)))
  {
    assert Verdicts(p, world)(attempt) == Judge(p, world(attempt), attempt);
  }

  /** The loop does what the specified run does: same result, same number of queries, same total sleep. */
  method Resilient<R(==)>(policy: RetryPolicy, world: nat -> Attempt<R>)
      returns (r: Result<R>, queries: nat, slept: nat)
    ensures Run(r, queries, slept) == WholeRun(policy, world)
  {
    var p := Normalise(policy);
    var lastErr := None;
    var attempt := 0;
    queries, slept := 0, 0;
    while attempt <= p.maxRetries
      invariant 0 <= attempt <= p.maxRetries + 1
      invariant Onto(queries, slept, Rest(p, world, attempt, lastErr)) == WholeRun(policy, world)
    {
      var a := world(attempt);
      RestUnfolds(p, world, attempt, lastErr);
      if a.contextBefore.Some? {
        return ContextEnded(a.contextBefore.value), queries, slept;
      }
      queries := queries + 1;
      match a.outcome {
        case Answered(answer) =>
          return Answer(answer), queries, slept;
        case Failed(error) =>
          lastErr := Some(error);
          var decision := EvaluateRetry(error, attempt + 1, p, a.chance);
          if decision.None? {
            return Panicked, queries, slept;
          }
          if !decision.value.retryable {
            return QueryError(error), queries, slept;
          }
          var delay := Max(decision.value.delay, 0);
          OntoAgain(queries - 1, slept, delay, Rest(p, world, attempt + 1, lastErr));
          slept := slept + delay;
          var cut := SleepCut(a, decision.value.delay);
          if cut.Some? {
            return ContextEnded(cut.value), queries, slept;
          }
      }
      attempt := attempt + 1;
    }
    return Exhausted(lastErr), queries, slept;
  }

  // ----- one attempt

  predicate FailedRetryably<R>(a: Attempt<R>) {
    a.outcome.Failed? && ClassifyError(Some(a.outcome.error)).retryable
  }

  /** The context let the query be made, the query failed retryably, and the context let the sleep be slept, if any. */
  predicate WentOn<R>(policy: RetryPolicy, a: Attempt<R>, attempt: nat) {
    && a.contextBefore.None? && FailedRetryably(a)
    && var decision := EvaluateRetry(a.outcome.error, attempt + 1, policy, a.chance);
       decision.Some? && (decision.value.delay > 0 ==> a.sleepCut.None?)
  }

  /** The query failed retryably, and the context ended during the sleep that was to follow. */
  predicate CutShort<R>(policy: RetryPolicy, a: Attempt<R>, attempt: nat, context: ContextError) {
    && FailedRetryably(a) && a.sleepCut == Some(context)
    && var decision := EvaluateRetry(a.outcome.error, attempt + 1, policy, a.chance);
       decision.Some? && decision.value.delay > 0
  }

  /** A policy decides as its normalised form does. */
  lemma DecidesAlike<R>(policy: RetryPolicy, a: Attempt<R>, attempt: nat)
    ensures WentOn(Normalise(policy), a, attempt) ==> WentOn(policy, a, attempt)
    ensures forall context :: CutShort(Normalise(policy), a, attempt, context) ==> CutShort(policy, a, attempt, context)
  {
    assert Normalise(Normalise(policy)) == Normalise(policy);
  }

  /** Going on means the query failed in a way worth retrying, with retries left. */
  lemma AgainMeansRetryable<R>(p: RetryPolicy, a: Attempt<R>, attempt: nat)
    requires p == Normalise(p) && Judge(p, a, attempt).Again?
    ensures WentOn(p, a, attempt)
    ensures a.outcome == Failed(Judge(p, a, attempt).error) && ClassifyError(Some(a.outcome.error)).retryable
    ensures attempt + 1 <= p.maxRetries
  {
  }

  /** The delay after this attempt has the largest window. */
  predicate FullWindowFor<R>(p: RetryPolicy, a: Attempt<R>, attempt: nat) {
    FullWindow(Backoff(p, attempt + 1), p.jitterRatio, a.chance)
  }

  /** Stopping hands on the query's outcome or the context's, and never exhausts. */
  ghost predicate EndsWell<R>(p: RetryPolicy, a: Attempt<R>, attempt: nat, run: Run<R>) {
    match run.result
    case Answer(answer) => run.queries == 1 && a.outcome == Answered(answer)
    case QueryError(error) => run.queries == 1 && a.outcome == Failed(error)
    case ContextEnded(context) => (run.queries == 0 && a.contextBefore == Some(context)) ||
        (run.queries == 1 && CutShort(p, a, attempt, context))
    case Exhausted(_) => false
    case Panicked => run.queries == 1 && FailedRetryably(a) && FullWindowFor(p, a, attempt)
  }

  lemma OverEndsWell<R>(p: RetryPolicy, a: Attempt<R>, attempt: nat)
    requires p == Normalise(p) && Judge(p, a, attempt).Over?
    ensures EndsWell(p, a, attempt, Judge(p, a, attempt).last) && Judge(p, a, attempt).last.queries <= 1
  {
  }

  function SleptBy<R>(v: Verdict<R>): nat {
    match v
    case Over(run) => run.slept
    case Again(_, slept) => slept
  }

  lemma SleepWithinCap<R>(p: RetryPolicy, a: Attempt<R>, attempt: nat)
    requires p == Normalise(p) && p.baseDelay <= p.maxDelay
    ensures SleptBy(Judge(p, a, attempt)) <= p.maxDelay
    ensures Judge(p, a, attempt).Over? && attempt >= p.maxRetries ==> SleptBy(Judge(p, a, attempt)) == 0
  {
    if a.outcome.Failed? {
      DecisionBounds(a.outcome.error, attempt + 1, p, a.chance);
    }
  }

  lemma NothingTooLong()
    ensures SubclassFromMessage("") == NoSubClass
  {
    assert forall sep: string :: sep != "" ==> !Strings.Contains("", sep);
  }

  /** A failure with a limit code and no hint, before which nothing else happened and after which no jitter is drawn. */
  function Limited<R>(): Attempt<R> {
    Attempt(None, Failed(Error({}, Some(429), "", 0.0)), Chance(0, true, 0), None)
  }

  lemma LimitedRetried<R>(p: RetryPolicy)
    requires p == Normalise(p)
    ensures var a, delay := Limited<R>(), DelayFor(p, 1, Limited<R>().chance);
            EvaluateRetry(a.outcome.error, 1, p, a.chance) ==
            if delay.None? then None else Some(RetryDecision(RateLimit, true, 1, p.maxRetries, delay.value))
  {
    NothingTooLong();
  }

  /** What the first attempt sleeps then. */
  lemma FirstSleep<R>(p: RetryPolicy)
    requires p == Normalise(p)
    ensures SleptBy(Judge(p, Limited<R>(), 0)) == if Window(p.baseDelay, p.jitterRatio) == MAX_INT64 then 0
        else p.baseDelay
  {
    LimitedRetried<R>(p);
    DrawWithoutChance(p.baseDelay, ToDuration(p.baseDelay as real * p.jitterRatio, Limited<R>().chance), p.maxDelay);
  }

  lemma DrawWithoutChance(delay: Duration, window: Duration, maxDelay: Duration)
    ensures DrawJitter(delay, window, maxDelay, Chance(0, true, 0)) == if window == MAX_INT64 then None else Some(delay)
  {
  }

  /** A base whose window is always the largest panics at the first attempt, and later ones are within the cap. */
  lemma FullWindowSleeps<R>(p: RetryPolicy, a: Attempt<R>, attempt: nat)
    requires p == Normalise(p) && Window(p.baseDelay, p.jitterRatio) == MAX_INT64
    ensures SleptBy(Judge(p, a, attempt)) <= p.maxDelay
  {
    if a.outcome.Failed? {
      DecisionBounds(a.outcome.error, attempt + 1, p, a.chance);
      if attempt == 0 {
        JitterPanics(p.baseDelay, p.jitterRatio, p.maxDelay, a.chance);
      } else {
        LaterDelaysCapped(p, attempt + 1, a.chance);
      }
    }
  }

  /**
    No attempt sleeps longer than the cap exactly when the base is within it, or the base's jitter
    panics whatever happens; otherwise the first can, when nothing is drawn.
  */
  lemma SleepCappedExactly<R(!new)>(policy: RetryPolicy)
    ensures var p := Normalise(policy);
            (forall a: Attempt<R>, attempt: nat :: SleptBy(Judge(p, a, attempt)) <= OwnCap(policy)) <==>
            OwnBase(policy) <= OwnCap(policy) || Window(OwnBase(policy), OwnRatio(policy)) == MAX_INT64
  {
    var p := Normalise(policy);
    if p.baseDelay <= p.maxDelay || Window(p.baseDelay, p.jitterRatio) == MAX_INT64 {
      forall a: Attempt<R>, attempt: nat ensures SleptBy(Judge(p, a, attempt)) <= p.maxDelay {
        if p.baseDelay <= p.maxDelay {
          SleepWithinCap(p, a, attempt);
        } else {
          FullWindowSleeps(p, a, attempt);
        }
      }
    } else {
      FirstSleep<R>(p);
      assert SleptBy(Judge(p, Limited<R>(), 0)) > p.maxDelay;
    }
  }

  // ----- the loop, whatever the attempts lead to

  /** Attempts that are out of retries never ask for another one. */
  ghost predicate RetriesRunOut<R>(verdicts: nat -> Verdict<R>, maxRetries: int) {
    forall i: nat :: verdicts(i).Again? ==> i + 1 <= maxRetries
  }

  /** The run makes one query per attempt it goes on from, and ends in the verdict of the attempt it stops at. */
  lemma {:induction false} LoopStops<R>(verdicts: nat -> Verdict<R>, maxRetries: int, attempt: nat, last: Option<Error>)
      returns (stop: nat)
    requires RetriesRunOut(verdicts, maxRetries) && attempt <= maxRetries
    ensures attempt <= stop <= maxRetries && verdicts(stop).Over?
    ensures forall i: nat :: attempt <= i < stop ==> verdicts(i).Again?
    ensures var run := RunFrom(verdicts, maxRetries, attempt, last);
            run.result == verdicts(stop).last.result && run.queries == stop - attempt + verdicts(stop).last.queries
    decreases maxRetries - attempt
  {
    match verdicts(attempt)
    case Over(_) => stop := attempt;
    case Again(error, _) => stop := LoopStops(verdicts, maxRetries, attempt + 1, Some(error));
  }

  lemma OneMore(n: int, cap: nat)
    requires n > 0
    ensures n * cap == (n - 1) * cap + cap && (n - 1) * cap >= 0
  {
  }

  lemma {:induction false} LoopSleeps<R>(verdicts: nat -> Verdict<R>, maxRetries: int, attempt: nat,
      last: Option<Error>, cap: nat)
    requires RetriesRunOut(verdicts, maxRetries) && attempt <= maxRetries
    requires forall i: nat :: SleptBy(verdicts(i)) <= cap
    requires forall i: nat :: verdicts(i).Over? && i >= maxRetries ==> SleptBy(verdicts(i)) == 0
    ensures RunFrom(verdicts, maxRetries, attempt, last).slept <= (maxRetries - attempt) * cap
    decreases maxRetries - attempt
  {
    if attempt < maxRetries {
      OneMore(maxRetries - attempt, cap);
    }
    match verdicts(attempt)
    case Over(run) =>
      assert SleptBy(verdicts(attempt)) == run.slept;
    case Again(error, slept) =>
      assert SleptBy(verdicts(attempt)) == slept;
      LoopSleeps(verdicts, maxRetries, attempt + 1, Some(error), cap);
  }

  // ----- a whole run

  /** The attempt a run stops at, and what the ones before it were. */
  lemma RunStops<R>(policy: RetryPolicy, world: nat -> Attempt<R>) returns (stop: nat, last: Run<R>)
    ensures stop <= Normalise(policy).maxRetries
    ensures forall i: nat :: i < stop ==> WentOn(Normalise(policy), world(i), i)
    ensures Judge(Normalise(policy), world(stop), stop) == Over(last)
    ensures WholeRun(policy, world).result == last.result && WholeRun(policy, world).queries == stop + last.queries
  {
    var p := Normalise(policy);
    var verdicts := Verdicts(p, world);
    forall i: nat | verdicts(i).Again?
      ensures i + 1 <= p.maxRetries && WentOn(p, world(i), i)
    {
      AgainMeansRetryable(p, world(i), i);
    }
    stop := LoopStops(verdicts, p.maxRetries, 0, None);
    last := verdicts(stop).last;
  }

  /**
    What a run's result says about the world: before every further query the one before failed
    retryably and the context let query and sleep pass; the result is the last query's outcome, or
    the context's before a query or during a sleep, and a panic is the jitter's after the last query.
  */
  ghost predicate Explains<R>(run: Run<R>, policy: RetryPolicy, world: nat -> Attempt<R>) {
    && (forall i: nat :: i + 1 < run.queries ==> WentOn(policy, world(i), i))
    && match run.result
       case Answer(answer) => run.queries > 0 && world(run.queries - 1).outcome == Answered(answer)
       case QueryError(error) => run.queries > 0 && world(run.queries - 1).outcome == Failed(error)
       case ContextEnded(context) =>
         || world(run.queries).contextBefore == Some(context)
         || (run.queries > 0 && CutShort(policy, world(run.queries - 1), run.queries - 1, context))
       case Exhausted(_) => false
       case Panicked =>
         run.queries > 0 && FullWindowFor(Normalise(policy), world(run.queries - 1), run.queries - 1)
  }

  lemma StopExplained<R>(policy: RetryPolicy, world: nat -> Attempt<R>, stop: nat, last: Run<R>, run: Run<R>)
    requires last.queries <= 1 && EndsWell(Normalise(policy), world(stop), stop, last)
    requires run.result == last.result && run.queries == stop + last.queries
    requires forall i: nat :: i < stop ==> WentOn(policy, world(i), i)
    ensures Explains(run, policy, world)
  {
    DecidesAlike(policy, world(stop), stop);
  }

  /**
    For every policy and every behaviour of the outside there are at most
    `OwnRetries(policy) + 1` queries, and the result is explained by the last of
    them or by the context; the exit after the loop is dead.
  */
  lemma RetryRun<R>(policy: RetryPolicy, world: nat -> Attempt<R>)
    ensures WholeRun(policy, world).queries <= OwnRetries(policy) + 1
    ensures Explains(WholeRun(policy, world), policy, world)
  {
    var stop, last := RunStops(policy, world);
    OverEndsWell(Normalise(policy), world(stop), stop);
    forall i: nat | i < stop ensures WentOn(policy, world(i), i) {
      DecidesAlike(policy, world(i), i);
    }
    StopExplained(policy, world, stop, last, WholeRun(policy, world));
  }

  /** With a jitter ratio up to one and any base but the largest duration, no run panics. */
  lemma RunNeverPanics<R>(policy: RetryPolicy, world: nat -> Attempt<R>)
    requires policy.jitterRatio <= 1.0 && policy.baseDelay < MAX_INT64
    ensures !WholeRun(policy, world).result.Panicked?
  {
    RetryRun(policy, world);
    var p, run := Normalise(policy), WholeRun(policy, world);
    if run.queries > 0 {
      var chance := world(run.queries - 1).chance;
      PanicsExactly(p, run.queries, chance);
      JitterPanics(Backoff(p, run.queries), p.jitterRatio, p.maxDelay, chance);
    }
  }

  /** With a base within the cap, total sleep is at most the cap for each allowed retry. */
  lemma SleepBounded<R>(policy: RetryPolicy, world: nat -> Attempt<R>)
    requires OwnBase(policy) <= OwnCap(policy)
    ensures WholeRun(policy, world).slept <= OwnRetries(policy) * OwnCap(policy)
  {
    var p := Normalise(policy);
    var verdicts := Verdicts(p, world);
    forall i: nat
      ensures verdicts(i).Again? ==> i + 1 <= p.maxRetries
      ensures SleptBy(verdicts(i)) <= p.maxDelay
      ensures verdicts(i).Over? && i >= p.maxRetries ==> SleptBy(verdicts(i)) == 0
    {
      if verdicts(i).Again? {
        AgainMeansRetryable(p, world(i), i);
      }
      SleepWithinCap(p, world(i), i);
    }
    LoopSleeps(verdicts, p.maxRetries, 0, None, p.maxDelay);
  }
}
