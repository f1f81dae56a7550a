/**
 One resilient provider call of `dataflows/interface.py`: attempts with a timeout, capped
 exponential backoff between them, and an error that says when the retries are used up.
 */
module ProviderRuntime {
  import opened Errors
  import opened Reals

  /** What a provider answers. A text is CSV or prose; a moment is a date or datetime. */
  datatype Response = Nothing | Prose(text: string) | Moment(instant: int) | Other(id: int)

  /** Positional and keyword arguments, as text. */
  datatype CallArgs = CallArgs(args: seq<string>, kwargs: map<string, string>)

  datatype CallResult = Ok(response: Response) | Err(error: Error)

  /** How one attempt through the worker pool ends. The first two never reach the provider. */
  datatype Attempt =
    | Saturated
    | SubmitError(error: Error)
    | TimedOut
    | Finished(result: CallResult)

  datatype RuntimeConfig = RuntimeConfig(enabled: bool, retries: int, backoffBase: real, backoffMax: real)

  datatype Submission = Submission(vendor: string, methodName: string, call: CallArgs)

  /** A call of the runtime and what came of it. */
  datatype Invocation = Invocation(vendor: string, methodName: string, call: CallArgs, result: CallResult)

  /** The n-th attempt, and the n-th direct call when the runtime is switched off. */
  datatype World = World(attempt: nat -> Attempt, direct: nat -> CallResult)

  // ----- backoff -----

  function Pow2(n: nat): (p: int)
    ensures p >= 1
  {
    if n == 0 then 1 else 2 * Pow2(n - 1)
  }

  function ComputeBackoff(attempt: nat, base: real, cap: real): real {
    var delay := Times(base, Pow2(attempt));
    if cap <= delay then cap else delay
  }

  function SleepTime(attempt: nat, base: real, cap: real): (d: real)
    ensures d >= 0.0
  {
    var d := ComputeBackoff(attempt, base, cap);
    if d > 0.0 then d else 0.0
  }

  /** The first wait is the base, and every later one twice the one before, up to the cap; a negative
      base or cap means no wait at all. */
  lemma SleepDoubles(i: nat, base: real, cap: real)
    ensures base >= 0.0 && cap >= 0.0 ==>
              && SleepTime(0, base, cap) == (if base <= cap then base else cap)
              && SleepTime(i + 1, base, cap) ==
                 if 2.0 * SleepTime(i, base, cap) <= cap then 2.0 * SleepTime(i, base, cap) else cap
    ensures base < 0.0 || cap < 0.0 ==> SleepTime(i, base, cap) == 0.0
  {
    hide Times;
    TimesAdd(base, Pow2(i), Pow2(i));
    TimesAdd(base, Pow2(i), 0);
    NegativeTimes(base, Pow2(i));
    TimesAdd(base, 1, 0);
  }

  lemma NegativeTimes(a: real, k: int)
    requires k >= 1
    ensures a < 0.0 ==> Times(a, k) < 0.0
  {
  }

  /** The sleeps after the first n failed attempts. */
  function Delays(n: nat, base: real, cap: real): (ds: seq<real>)
    ensures |ds| == n
  {
    if n == 0 then [] else Delays(n - 1, base, cap) + [SleepTime(n - 1, base, cap)]
  }

  lemma DelayAt(n: nat, i: nat, base: real, cap: real)
    requires i < n
    ensures Delays(n, base, cap)[i] == SleepTime(i, base, cap)
  {
  }

  function Total(ds: seq<real>): real {
    if ds == [] then 0.0 else Total(ds[..|ds| - 1]) + ds[|ds| - 1]
  }

  lemma DelaysSplit(n: nat, base: real, cap: real)
    requires n > 0
    ensures Delays(n, base, cap) == Delays(n - 1, base, cap) + [SleepTime(n - 1, base, cap)]
    ensures Total(Delays(n, base, cap)) == Total(Delays(n - 1, base, cap)) + SleepTime(n - 1, base, cap)
  {
    assert Delays(n, base, cap)[..n - 1] == Delays(n - 1, base, cap);
  }

  lemma SleepBounds(i: nat, base: real, cap: real)
    requires base >= 0.0 && cap >= 0.0
    ensures SleepTime(i, base, cap) <= cap
    ensures SleepTime(i, base, cap) <= Times(base, Pow2(i))
  {
    hide Times, Pow2;
    TimesAdd(base, Pow2(i), 0);
  }

  lemma {:induction false} CappedSum(n: nat, base: real, cap: real)
    requires base >= 0.0 && cap >= 0.0
    ensures Total(Delays(n, base, cap)) <= Times(cap, n)
  {
    hide Times, SleepTime;
    TimesAdd(cap, n - 1, 1);
    TimesAdd(cap, 0, 0);
    if n > 0 {
      DelaysSplit(n, base, cap);
      CappedSum(n - 1, base, cap);
      SleepBounds(n - 1, base, cap);
    }
  }

  lemma {:induction false} GeometricSum(n: nat, base: real, cap: real)
    requires base >= 0.0 && cap >= 0.0
    ensures Total(Delays(n, base, cap)) <= Times(base, Pow2(n) - 1)
  {
    hide Times, SleepTime;
    TimesAdd(base, 0, 0);
    if n > 0 {
      var p := Pow2(n - 1);
      DelaysSplit(n, base, cap);
      GeometricSum(n - 1, base, cap);
      SleepBounds(n - 1, base, cap);
      TimesAdd(base, p - 1, p);
      assert Pow2(n) - 1 == p - 1 + p;
    }
  }

  /** Delays never shrink, and together they stay below both the capped and the geometric sum. */
  lemma BackoffBounds(retries: nat, base: real, cap: real)
    requires base >= 0.0 && cap >= 0.0
    ensures Total(Delays(retries, base, cap)) <= Times(cap, retries)
    ensures Total(Delays(retries, base, cap)) <= Times(base, Pow2(retries) - 1)
    ensures forall i, j | 0 <= i <= j < retries ::
              Delays(retries, base, cap)[i] <= Delays(retries, base, cap)[j]
  {
    CappedSum(retries, base, cap);
    GeometricSum(retries, base, cap);
    forall i, j | 0 <= i <= j < retries
      ensures Delays(retries, base, cap)[i] <= Delays(retries, base, cap)[j]
    {
      DelayAt(retries, i, base, cap);
      DelayAt(retries, j, base, cap);
      SleepMonotone(i, j, base, cap);
    }
  }

  lemma {:induction false} SleepMonotone(i: nat, j: nat, base: real, cap: real)
    requires base >= 0.0 && cap >= 0.0 && i <= j
    ensures SleepTime(i, base, cap) <= SleepTime(j, base, cap)
    decreases j
  {
    if i < j {
      hide Times;
      SleepMonotone(i, j - 1, base, cap);
      TimesAdd(base, Pow2(j - 1), Pow2(j - 1));
    }
  }

  // ----- the retry loop -----

  /** The exception an attempt ends in; a timeout of the future becomes a provider timeout. */
  function ErrorOf(a: Attempt, vendor: string): Error
    requires !(a.Finished? && a.result.Ok?)
  {
    match a
    case Saturated => Project(ProviderTimeoutError, "provider worker pool saturated")
    case SubmitError(e) => e
    case TimedOut => Project(ProviderTimeoutError, vendor + " timed out")
    case Finished(r) => r.error
  }

  predicate Succeeds(a: Attempt) {
    a.Finished? && a.result.Ok?
  }

  predicate FailsRetryably(a: Attempt, vendor: string) {
    !Succeeds(a) && IsRetryable(ErrorOf(a, vendor))
  }

  predicate ReachesProvider(a: Attempt) {
    a.TimedOut? || a.Finished?
  }

  class Runtime {
    const world: World
    var attempts: nat
    var directs: nat
    var slept: seq<real>
    var submissions: seq<Submission>
    ghost var invocations: seq<Invocation>

    constructor (world: World)
      ensures this.world == world && submissions == [] && slept == [] && attempts == directs == 0
      ensures invocations == []
    {
      this.world := world;
      invocations := [];
      attempts, directs, slept, submissions := 0, 0, [], [];
    }

    /** One attempt through the worker pool. */
    method TryOnce(submission: Submission) returns (outcome: Attempt)
      modifies this`attempts, this`submissions
      ensures outcome == world.attempt(old(attempts)) && attempts == old(attempts) + 1
      ensures submissions == old(submissions) + if ReachesProvider(outcome) then [submission] else []
      ensures submissions == old(submissions) + if outcome.Saturated? || outcome.SubmitError? then [] else [submission]
    {
      outcome := world.attempt(attempts);
      attempts := attempts + 1;
      if ReachesProvider(outcome) {
        submissions := submissions + [submission];
      }
    }

    /** `_invoke_with_resilience`. */
    method Invoke(vendor: string, methodName: string, call: CallArgs, cfg: RuntimeConfig)
      returns (result: CallResult, ghost made: nat)
      modifies this
      ensures invocations == old(invocations) + [Invocation(vendor, methodName, call, result)]
      ensures Appends(old(submissions), submissions, Submission(vendor, methodName, call), made)
      ensures !cfg.enabled ==>
                && made == 1 && result == world.direct(old(directs)) && directs == old(directs) + 1
                && |submissions| == |old(submissions)| + 1
                && slept == old(slept) && attempts == old(attempts)
      ensures cfg.enabled ==>
                && attempts == old(attempts) + made && directs == old(directs)
                && Resilient(world, old(attempts), made, vendor, cfg, old(slept), slept, result)
    {
      if !cfg.enabled {
        result := world.direct(directs);
        directs := directs + 1;
        submissions := submissions + [Submission(vendor, methodName, call)];
        made := 1;
        invocations := invocations + [Invocation(vendor, methodName, call, result)];
        return;
      }
      hide *;
      made := 0;
      var tries := Retries(cfg) + 1;
      NothingYet(submissions, Submission(vendor, methodName, call), world, attempts, vendor, cfg, slept);
      for attempt := 1 to tries + 1
        invariant made == attempt - 1 && attempts == old(attempts) + made && directs == old(directs)
        invariant invocations == old(invocations)
        invariant Appends(old(submissions), submissions, Submission(vendor, methodName, call), made)
        invariant Retrying(world, old(attempts), made, vendor, cfg, old(slept), slept)
      {
        ghost var sent, rest := submissions, slept;
        var outcome := TryOnce(Submission(vendor, methodName, call));
        AppendsMore(old(submissions), sent, Submission(vendor, methodName, call), made, outcome);
        OneMoreEnds(world, old(attempts), made, vendor, cfg, old(slept), rest);
        if !Succeeds(outcome) && IsRetryable(ErrorOf(outcome, vendor)) {
          RetryablyFailed(outcome, vendor);
          OneMoreRetried(world, old(attempts), made, vendor, cfg, old(slept), rest);
        }
        made := made + 1;
        if Succeeds(outcome) {
          result := Unwrap(outcome);
          invocations := invocations + [Invocation(vendor, methodName, call, result)];
          return;
        }
        if !IsRetryable(ErrorOf(outcome, vendor)) {
          result := Err(ErrorOf(outcome, vendor));
          invocations := invocations + [Invocation(vendor, methodName, call, result)];
          return;
        }
        if attempt < tries {
          slept := slept + [SleepTime(attempt - 1, cfg.backoffBase, cfg.backoffMax)];
        }
      }
      result := Err(Exhausted(vendor, methodName));
      invocations := invocations + [Invocation(vendor, methodName, call, result)];
      UsedUp(world, old(attempts), made, vendor, cfg, old(slept), slept, methodName);
    }
  }

  function Unwrap(a: Attempt): CallResult
    requires Succeeds(a)
  {
    a.result
  }

  function Exhausted(vendor: string, methodName: string): Error {
    Project(ProviderRetryExhaustedError, vendor + "." + methodName + " failed")
  }

  /** The enabled runtime made between 1 and retries + 1 attempts, all but the last failing
      retryably, and slept between them; a success or a non-retryable error was returned at once,
      anything else only after the last attempt. */
  ghost predicate Resilient(
    world: World, first: nat, made: nat, vendor: string, cfg: RuntimeConfig, rest: seq<real>, slept: seq<real>,
    result: CallResult)
  {
    && 1 <= made <= Retries(cfg) + 1
    && slept == rest + Delays(made - 1, cfg.backoffBase, cfg.backoffMax)
    && AllRetryable(world, first, made - 1, vendor)
    && Concludes(world.attempt(first + made - 1), made == Retries(cfg) + 1, vendor, result)
  }

  /** An attempt after which the code tries again: a saturated pool, a timeout or a retryable error. */
  predicate TriedAgain(a: Attempt) {
    match a
    case SubmitError(e) => IsRetryable(e)
    case Finished(r) => r.Err? && IsRetryable(r.error)
    case _ => true
  }

  /** Attempt by attempt: all before the last are tried again, and no others are; the last one's answer
      or error is the result, unless it would be tried again too, which takes all attempts allowed and
      ends in the error that says so. */
  lemma EndsWithLastAttempt(
    world: World, first: nat, made: nat, vendor: string, cfg: RuntimeConfig, rest: seq<real>, slept: seq<real>,
    result: CallResult)
    requires Resilient(world, first, made, vendor, cfg, rest, slept, result)
    ensures var last, most := world.attempt(first + made - 1), if cfg.retries > 0 then cfg.retries + 1 else 1;
            && 1 <= made <= most && |slept| == |rest| + made - 1
            && (forall k: nat | first <= k < first + made - 1 :: TriedAgain(world.attempt(k)))
            && if TriedAgain(last) then
                 made == most && result.Err? && result.error.Project? && result.error.cls == ProviderRetryExhaustedError
               else result == match last case SubmitError(e) => Err(e) case Finished(r) => r
  {
    hide Delays;
    forall k: nat | first <= k < first + made - 1 ensures TriedAgain(world.attempt(k)) {
      assert FailsRetryably(world.attempt(k), vendor);
    }
  }

  /** The loop between two attempts: no sleep follows the last one. */
  ghost predicate Retrying(
    world: World, first: nat, made: nat, vendor: string, cfg: RuntimeConfig, rest: seq<real>, slept: seq<real>)
  {
    && made <= Retries(cfg) + 1
    && AllRetryable(world, first, made, vendor)
    && slept == rest + Delays(if made > Retries(cfg) then Retries(cfg) else made, cfg.backoffBase, cfg.backoffMax)
  }

  /** An attempt that is not retried ends the call. */
  lemma OneMoreEnds(
    world: World, first: nat, made: nat, vendor: string, cfg: RuntimeConfig, rest: seq<real>, slept: seq<real>)
    requires Retrying(world, first, made, vendor, cfg, rest, slept) && made <= Retries(cfg)
    ensures var last := world.attempt(first + made);
            && (Succeeds(last) ==> Resilient(world, first, made + 1, vendor, cfg, rest, slept, Unwrap(last)))
            && (!Succeeds(last) && !IsRetryable(ErrorOf(last, vendor)) ==>
                  Resilient(world, first, made + 1, vendor, cfg, rest, slept, Err(ErrorOf(last, vendor))))
  {
    hide IsRetryable, Delays, ErrorOf, AllRetryable;
  }

  /** A retried one leaves the loop where it may go on, after its sleep. */
  lemma OneMoreRetried(
    world: World, first: nat, made: nat, vendor: string, cfg: RuntimeConfig, rest: seq<real>, slept: seq<real>)
    requires Retrying(world, first, made, vendor, cfg, rest, slept) && made <= Retries(cfg)
    requires FailsRetryably(world.attempt(first + made), vendor)
    ensures Retrying(world, first, made + 1, vendor, cfg, rest,
                     if made < Retries(cfg) then slept + [SleepTime(made, cfg.backoffBase, cfg.backoffMax)] else slept)
  {
    MoreRetryable(world, first, made, vendor);
    DelaysSplit(made + 1, cfg.backoffBase, cfg.backoffMax);
    hide IsRetryable, SleepTime, Delays, ErrorOf, AllRetryable, FailsRetryably;
    var delays, delay := Delays(made, cfg.backoffBase, cfg.backoffMax), SleepTime(made, cfg.backoffBase, cfg.backoffMax);
    assert rest + (delays + [delay]) == (rest + delays) + [delay];
  }

  lemma RetryablyFailed(a: Attempt, vendor: string)
    requires !Succeeds(a) && IsRetryable(ErrorOf(a, vendor))
    ensures FailsRetryably(a, vendor)
  {
  }

  lemma MoreRetryable(world: World, first: nat, made: nat, vendor: string)
    requires AllRetryable(world, first, made, vendor) && FailsRetryably(world.attempt(first + made), vendor)
    ensures AllRetryable(world, first, made + 1, vendor)
  {
    hide FailsRetryably;
  }

  lemma UsedUp(
    world: World, first: nat, made: nat, vendor: string, cfg: RuntimeConfig, rest: seq<real>, slept: seq<real>,
    methodName: string)
    requires Retrying(world, first, made, vendor, cfg, rest, slept) && made == Retries(cfg) + 1
    ensures Resilient(world, first, made, vendor, cfg, rest, slept, Err(Exhausted(vendor, methodName)))
  {
    hide IsRetryable, ErrorOf, Delays;
    assert FailsRetryably(world.attempt(first + made - 1), vendor);
  }

  function Retries(cfg: RuntimeConfig): nat {
    if cfg.retries < 0 then 0 else cfg.retries
  }

  /** Only copies of one submission have been appended, and no more than `made` of them. */
  ghost predicate Appends(before: seq<Submission>, after: seq<Submission>, s: Submission, made: nat) {
    && |before| <= |after| <= |before| + made
    && before <= after
    && forall i | |before| <= i < |after| :: after[i] == s
  }

  ghost predicate AllRetryable(world: World, first: nat, count: nat, vendor: string) {
    forall k: nat | first <= k < first + count :: FailsRetryably(world.attempt(k), vendor)
  }

  lemma NothingYet(
    sent: seq<Submission>, s: Submission, world: World, first: nat, vendor: string, cfg: RuntimeConfig,
    slept: seq<real>)
    ensures Appends(sent, sent, s, 0) && Retrying(world, first, 0, vendor, cfg, slept, slept)
  {
  }

  lemma AppendsMore(before: seq<Submission>, after: seq<Submission>, s: Submission, made: nat, a: Attempt)
    requires Appends(before, after, s, made)
    ensures Appends(before, after + if ReachesProvider(a) then [s] else [], s, made + 1)
  {
  }

  /** What follows from the last attempt made. */
  ghost predicate Concludes(last: Attempt, final: bool, vendor: string, result: CallResult) {
    if Succeeds(last) then result == last.result
    else if IsRetryable(ErrorOf(last, vendor)) then
      final && result.Err? && result.error.Project? && result.error.cls == ProviderRetryExhaustedError
    else result == Err(ErrorOf(last, vendor))
  }

  lemma {:induction false} TotalSplits(a: seq<real>, b: seq<real>)
    ensures Total(a + b) == Total(a) + Total(b)
  {
    if b == [] {
      assert a + b == a;
    } else {
      TotalSplits(a, b[..|b| - 1]);
      assert (a + b)[..|a + b| - 1] == a + b[..|b| - 1];
    }
  }

  /** One call of the enabled runtime sleeps at most retries * cap and at most
      base * (2^retries - 1) in all, however it ends. */
  lemma CallSleepsAtMost(
    world: World, first: nat, made: nat, vendor: string, cfg: RuntimeConfig, rest: seq<real>, slept: seq<real>,
    result: CallResult)
    requires Resilient(world, first, made, vendor, cfg, rest, slept, result)
    requires cfg.backoffBase >= 0.0 && cfg.backoffMax >= 0.0
    ensures Total(slept) - Total(rest) <= Times(cfg.backoffMax, Retries(cfg))
    ensures Total(slept) - Total(rest) <= Times(cfg.backoffBase, Pow2(Retries(cfg)) - 1)
  {
    var base, cap, n := cfg.backoffBase, cfg.backoffMax, made - 1;
    hide Times, Pow2, Total, Delays;
    TotalSplits(rest, Delays(n, base, cap));
    BackoffBounds(n, base, cap);
    PowMonotone(n, Retries(cfg));
    TimesAdd(cap, n, Retries(cfg) - n);
    TimesAdd(cap, Retries(cfg) - n, 0);
    TimesAdd(base, Pow2(n) - 1, Pow2(Retries(cfg)) - Pow2(n));
    TimesAdd(base, Pow2(Retries(cfg)) - Pow2(n), 0);
  }

  lemma {:induction false} PowMonotone(n: nat, m: nat)
    requires n <= m
    ensures Pow2(n) <= Pow2(m)
    decreases m
  {
    if n < m {
      PowMonotone(n, m - 1);
    }
  }

  /** Used-up retries are not retried again, but the router may go on to the next vendor. */
  lemma ExhaustionFallsOver(message: string)
    ensures var e := Project(ProviderRetryExhaustedError, message); !IsRetryable(e) && IsFallbackable(e)
  {
    FallbackVersusRetry(Project(ProviderRetryExhaustedError, message));
  }
}
