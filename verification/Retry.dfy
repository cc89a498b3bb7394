/** Retry with capped exponential backoff, pkg/errors/recovery.go:251-412. */
module Retry {
  import opened Common
  import opened Errors

  datatype RetryPolicy = RetryPolicy(
    maxAttempts: int,
    initialDelay: int,
    maxDelay: int,
    backoffFactor: real,
    retryableErrors: seq<string>)

  const DEFAULT := RetryPolicy(3, SECOND / 10, 30 * SECOND, 2.0, ["network", "timeout", "unavailable", "rate_limit"])

  function Pow(x: real, n: nat): real {
    if n == 0 then 1.0 else Pow(x, n - 1) * x
  }

  /** Conversion of a float to an integer duration. */
  function Trunc(x: real): int {
    if x >= 0.0 then x.Floor else -(-x).Floor
  }

  predicate ShouldRetry(p: RetryPolicy, err: Error, attempt: int) {
    && attempt < p.maxAttempts
    && err.Enhanced?
    && err.e.retryable
    && err.e.category in p.retryableErrors
  }

  /** The delay before any cap and rounding. */
  function RawDelay(p: RetryPolicy, attempt: nat): real
    requires attempt > 0
  {
    p.initialDelay as real * Pow(p.backoffFactor, attempt - 1)
  }

  /** The jitter term of the source multiplies a remainder modulo 1 of a whole number, so it
      is zero. */
  function GetDelay(p: RetryPolicy, attempt: int): int {
    if attempt <= 0 then p.initialDelay
    else
      var delay := Trunc(RawDelay(p, attempt));
      if delay > p.maxDelay then p.maxDelay else delay
  }

  /** What surrounds one execution: the result of the function's k-th run, whether the
      context is found done before that run, whether it is done during the wait after it, and
      if so after how long. */
  datatype Env = Env(outcome: nat -> Outcome, doneBefore: nat -> bool, doneDuring: nat -> bool, doneAfter: nat -> nat)

  /** The last statements write into the metadata map of an enhanced error, which panics
      when the map does not exist. */
  datatype Result = Returned(err: Option<Error>) | Panicked

  predicate AnnotationPanics(err: Error) {
    err.Enhanced? && !err.e.hasMetadata
  }

  function Annotated(err: Error): Result {
    if AnnotationPanics(err) then Panicked else Returned(Some(err))
  }

  /** `calls` runs of the function, `waits` completed waits between them, and the length of a
      last wait that the context cut short. */
  datatype Report = Report(result: Result, calls: nat, waits: nat, cut: int)

  /** A wait ends with its delay at the latest. */
  function CutWait(p: RetryPolicy, env: Env, attempt: nat): int {
    Min(env.doneAfter(attempt), GetDelay(p, attempt))
  }

  /** What the loop does from its turn `attempt` on. */
  function ExecuteFrom(p: RetryPolicy, env: Env, attempt: nat): Report
    requires 0 < attempt <= p.maxAttempts
    decreases p.maxAttempts - attempt
  {
    if env.doneBefore(attempt) then Report(Returned(Some(ContextDone)), attempt - 1, attempt - 1, 0)
    else if env.outcome(attempt).Ok? then Report(Returned(None), attempt, attempt - 1, 0)
    else
      var err := env.outcome(attempt).err;
      if !ShouldRetry(p, err, attempt) then Report(Annotated(err), attempt, attempt - 1, 0)
      else if env.doneDuring(attempt) then
        Report(Returned(Some(ContextDone)), attempt, attempt - 1, CutWait(p, env, attempt))
      else ExecuteFrom(p, env, attempt + 1)
  }

  /** Without a single permitted attempt the function is not run and no error is returned. */
  function ExecuteSpec(p: RetryPolicy, env: Env): Report {
    if p.maxAttempts <= 0 then Report(Returned(None), 0, 0, 0) else ExecuteFrom(p, env, 1)
  }

  /** Total of the first `n` waits. */
  function Waits(p: RetryPolicy, n: nat): int {
    if n == 0 then 0 else Waits(p, n - 1) + GetDelay(p, n)
  }

  method Execute(p: RetryPolicy, env: Env) returns (result: Result, calls: nat, waited: int)
    ensures result == ExecuteSpec(p, env).result
    ensures calls == ExecuteSpec(p, env).calls
    ensures waited == Waits(p, ExecuteSpec(p, env).waits) + ExecuteSpec(p, env).cut
  {
    var lastErr: Option<Error> := None;
    calls, waited := 0, 0;
    var attempt := 1;
    while attempt <= p.maxAttempts
      invariant 1 <= attempt && calls == attempt - 1 && waited == Waits(p, attempt - 1)
      invariant attempt == 1 ==> lastErr == None
      invariant attempt == 1 || attempt <= p.maxAttempts
      invariant attempt <= p.maxAttempts ==> ExecuteFrom(p, env, attempt) == ExecuteSpec(p, env)
      decreases p.maxAttempts - attempt
    {
      if env.doneBefore(attempt) {
        return Returned(Some(ContextDone)), calls, waited;
      }
      var outcome := env.outcome(attempt);
      calls := calls + 1;
      if outcome.Ok? {
        return Returned(None), calls, waited;
      }
      lastErr := Some(outcome.err);
      if !ShouldRetry(p, outcome.err, attempt) {
        break;
      }
      if attempt >= p.maxAttempts {
        break;
      }
      var delay := GetDelay(p, attempt);
      if env.doneDuring(attempt) {
        return Returned(Some(ContextDone)), calls, waited + Min(env.doneAfter(attempt), delay);
      }
      waited := waited + delay;
      attempt := attempt + 1;
    }
    match lastErr {
      case None =>
        result := Returned(None);
      case Some(err) =>
        result := Annotated(err);
    }
  }

  // ---- Meaning of an execution ----

  /** The loop's turn `attempt` is not its last. */
  predicate GoesOn(p: RetryPolicy, env: Env, attempt: nat) {
    && !env.doneBefore(attempt) && env.outcome(attempt).Fail?
    && ShouldRetry(p, env.outcome(attempt).err, attempt) && !env.doneDuring(attempt)
  }

  /** `k` runs were made and each but the last one failed with an error worth retrying,
      undisturbed by the context. */
  ghost predicate Retried(p: RetryPolicy, env: Env, k: nat) {
    forall i :: 1 <= i < k ==> GoesOn(p, env, i)
  }

  /** The last run was the `k`-th, and it was started before the context was done. */
  predicate LastRun(env: Env, k: nat, waits: nat) {
    1 <= k && !env.doneBefore(k) && waits == k - 1
  }

  /** How an execution of `k` runs may end. */
  predicate EndsRightly(p: RetryPolicy, env: Env, r: Report) {
    var k := r.calls;
    match r.result
    case Returned(None) =>
      LastRun(env, k, r.waits) && env.outcome(k).Ok? && r.cut == 0
    case Panicked =>
      && LastRun(env, k, r.waits) && env.outcome(k).Fail? && AnnotationPanics(env.outcome(k).err)
      && !ShouldRetry(p, env.outcome(k).err, k) && r.cut == 0
    case Returned(Some(err)) =>
      || (LastRun(env, k, r.waits) && env.outcome(k) == Fail(err) && !AnnotationPanics(err)
          && !ShouldRetry(p, err, k) && r.cut == 0)
      || (err == ContextDone && k < p.maxAttempts && env.doneBefore(k + 1) && (k == 0 || GoesOn(p, env, k))
          && r.waits == k && r.cut == 0)
      || (err == ContextDone && LastRun(env, k, r.waits) && env.outcome(k).Fail?
          && ShouldRetry(p, env.outcome(k).err, k) && env.doneDuring(k) && IsCut(p, env, k, r.cut))
  }

  /** A wait that was cut short took until the context was done, or its whole delay. */
  predicate IsCut(p: RetryPolicy, env: Env, k: nat, cut: int) {
    && cut <= env.doneAfter(k) && cut <= GetDelay(p, k)
    && (cut == env.doneAfter(k) || cut == GetDelay(p, k))
  }

  lemma {:induction false} ExecuteFromMeaning(p: RetryPolicy, env: Env, attempt: nat)
    requires 0 < attempt <= p.maxAttempts && Retried(p, env, attempt)
    ensures var r := ExecuteFrom(p, env, attempt);
      && attempt - 1 <= r.calls <= p.maxAttempts
      && Retried(p, env, r.calls)
      && EndsRightly(p, env, r)
    decreases p.maxAttempts - attempt
  {
    var r := ExecuteFrom(p, env, attempt);
    if GoesOn(p, env, attempt) {
      ExecuteFromMeaning(p, env, attempt + 1);
      assert r == ExecuteFrom(p, env, attempt + 1);
    } else if env.doneBefore(attempt) {
      assert r.calls == attempt - 1;
    } else {
      assert r.calls == attempt;
    }
  }

  /** The function runs at most maxAttempts times, every run but the last is a failure worth
      retrying, and the result is that of the last run, or the context's, or a panic. */
  lemma ExecuteMeaning(p: RetryPolicy, env: Env)
    requires p.maxAttempts >= 1
    ensures var r := ExecuteSpec(p, env);
      r.calls <= p.maxAttempts && Retried(p, env, r.calls) && EndsRightly(p, env, r)
  {
    ExecuteFromMeaning(p, env, 1);
  }

  lemma {:induction false} RightReportFrom(p: RetryPolicy, env: Env, r: Report, attempt: nat)
    requires 0 < attempt <= p.maxAttempts && r.calls <= p.maxAttempts
    requires Retried(p, env, r.calls) && EndsRightly(p, env, r)
    requires attempt <= r.calls || (attempt == r.calls + 1 && r.waits == r.calls)
    ensures ExecuteFrom(p, env, attempt) == r
    decreases p.maxAttempts - attempt
  {
    if attempt < r.calls || (attempt == r.calls && r.waits == r.calls) {
      assert GoesOn(p, env, attempt);
      RightReportFrom(p, env, r, attempt + 1);
    } else {
    }
  }

  /** Nothing else has that meaning: a report is the report of the execution exactly when its
      runs, waits and result fit the surroundings in this way. */
  lemma ExecutionIff(p: RetryPolicy, env: Env, r: Report)
    requires p.maxAttempts >= 1
    ensures r == ExecuteSpec(p, env)
            <==> r.calls <= p.maxAttempts && Retried(p, env, r.calls) && EndsRightly(p, env, r)
  {
    if r == ExecuteSpec(p, env) {
      ExecuteMeaning(p, env);
    } else if r.calls <= p.maxAttempts && Retried(p, env, r.calls) && EndsRightly(p, env, r) {
      RightReportFrom(p, env, r, 1);
    }
  }

  /** No run starts once the context is found done: a cancelled execution runs nothing. */
  lemma NoRunAfterDone(p: RetryPolicy, env: Env)
    ensures forall i :: 1 <= i <= ExecuteSpec(p, env).calls ==> !env.doneBefore(i)
    ensures env.doneBefore(1) && p.maxAttempts >= 1 ==>
              ExecuteSpec(p, env).calls == 0 && ExecuteSpec(p, env).result == Returned(Some(ContextDone))
  {
    if p.maxAttempts >= 1 {
      ExecuteMeaning(p, env);
      forall i | 1 <= i <= ExecuteSpec(p, env).calls
        ensures !env.doneBefore(i)
      {
        assert i < ExecuteSpec(p, env).calls ==> GoesOn(p, env, i);
      }
    }
  }

  /** With a context that is never done: the number of runs is between 1 and maxAttempts, nil
      means that the last run succeeded, and an error means that it was the last run's, which
      was the final attempt or not worth retrying. */
  lemma ExecuteUndisturbed(p: RetryPolicy, env: Env)
    requires p.maxAttempts >= 1
    requires forall i: nat :: !env.doneBefore(i) && !env.doneDuring(i)
    ensures var r := ExecuteSpec(p, env);
      && 1 <= r.calls <= p.maxAttempts && r.waits == r.calls - 1
      && Retried(p, env, r.calls)
      && (r.result == Returned(None) <==> env.outcome(r.calls).Ok?)
      && (env.outcome(r.calls).Fail? ==>
            && r.result == Annotated(env.outcome(r.calls).err)
            && !ShouldRetry(p, env.outcome(r.calls).err, r.calls))
  {
    ExecuteMeaning(p, env);
    assert !env.doneBefore(1);
  }

  /** Worth retrying, as far as the error itself goes. */
  predicate Retryable(p: RetryPolicy, err: Error) {
    match err
    case Enhanced(e) => e.retryable && exists i :: 0 <= i < |p.retryableErrors| && p.retryableErrors[i] == e.category
    case Plain(_) => false
    case ContextDone => false
  }

  /** A function that always returns the same error is run maxAttempts times if the error is
      marked retryable and of a listed category, and otherwise once. */
  lemma {:induction false} ConstantErrorFrom(p: RetryPolicy, env: Env, err: Error, attempt: nat)
    requires 0 < attempt <= p.maxAttempts
    requires forall i: nat :: env.outcome(i) == Fail(err) && !env.doneBefore(i) && !env.doneDuring(i)
    ensures ExecuteFrom(p, env, attempt).calls == if Retryable(p, err) then p.maxAttempts else attempt
    decreases p.maxAttempts - attempt
  {
    assert env.outcome(attempt) == Fail(err);
    if !ShouldRetry(p, err, attempt) {
    } else {
      ConstantErrorFrom(p, env, err, attempt + 1);
    }
  }

  lemma ConstantErrorRuns(p: RetryPolicy, env: Env, err: Error)
    requires p.maxAttempts >= 1
    requires forall i: nat :: env.outcome(i) == Fail(err) && !env.doneBefore(i) && !env.doneDuring(i)
    ensures ExecuteSpec(p, env).calls == if Retryable(p, err) then p.maxAttempts else 1
  {
    ConstantErrorFrom(p, env, err, 1);
  }

  /** Nil vouches for a successful run exactly when the policy permits an attempt. */
  lemma NilMeansSuccessIff(p: RetryPolicy)
    ensures (forall env: Env :: ExecuteSpec(p, env).result == Returned(None)
              ==> ExecuteSpec(p, env).calls >= 1 && env.outcome(ExecuteSpec(p, env).calls).Ok?)
            <==> p.maxAttempts >= 1
  {
    if p.maxAttempts >= 1 {
      forall env: Env
        ensures ExecuteSpec(p, env).result == Returned(None)
                ==> ExecuteSpec(p, env).calls >= 1 && env.outcome(ExecuteSpec(p, env).calls).Ok?
      {
        ExecuteMeaning(p, env);
      }
    } else {
      var env := Env(_ => Ok, _ => false, _ => false, _ => 0);
      assert ExecuteSpec(p, env) == Report(Returned(None), 0, 0, 0);
    }
  }

  // ---- Backoff arithmetic ----

  /** Conversion to an integer drops the fraction, on either side of zero. */
  lemma TruncDropsFraction(x: real)
    ensures Trunc(-x) == -Trunc(x)
    ensures x >= 0.0 ==> Trunc(x) as real <= x < (Trunc(x) + 1) as real
  {
  }

  /** The first wait is the initial delay, capped; the delay asked for before any attempt is
      not capped. */
  lemma DelaysBegin(p: RetryPolicy, attempt: int)
    requires p.initialDelay >= 0 && attempt <= 0
    ensures GetDelay(p, attempt) == p.initialDelay
    ensures GetDelay(p, 1) == Min(p.initialDelay, p.maxDelay)
  {
    assert Pow(p.backoffFactor, 0) == 1.0;
    assert RawDelay(p, 1) == p.initialDelay as real;
  }

  /** Total of the first `n` delays before caps and rounding. */
  function RawTotal(p: RetryPolicy, n: nat): real {
    if n == 0 then 0.0 else RawTotal(p, n - 1) + RawDelay(p, n)
  }

  lemma GeometricTerm(d: real, x: real, q: real, total: real)
    requires (x - 1.0) * total == d * (q - 1.0)
    ensures (x - 1.0) * (total + d * q) == d * (q * x - 1.0)
  {
  }

  /** Those delays form a geometric series. */
  lemma {:induction false} RawTotalIsGeometric(p: RetryPolicy, n: nat)
    ensures (p.backoffFactor - 1.0) * RawTotal(p, n) == p.initialDelay as real * (Pow(p.backoffFactor, n) - 1.0)
  {
    var d, x := p.initialDelay as real, p.backoffFactor;
    if n == 0 {
      assert RawTotal(p, 0) == 0.0 && Pow(x, 0) == 1.0;
    } else {
      RawTotalIsGeometric(p, n - 1);
      GeometricTerm(d, x, Pow(x, n - 1), RawTotal(p, n - 1));
      assert RawTotal(p, n) == RawTotal(p, n - 1) + d * Pow(x, n - 1);
      assert Pow(x, n) == Pow(x, n - 1) * x;
    }
  }

  /** Until the cap is reached, the waits make up that series but for the fractions dropped,
      less than a nanosecond each. */
  lemma {:induction false} WaitsMakeUpSeries(p: RetryPolicy, n: nat)
    requires Backoff(p) && forall k :: 1 <= k <= n ==> RawDelay(p, k) <= p.maxDelay as real
    ensures RawTotal(p, n) - n as real <= Waits(p, n) as real <= RawTotal(p, n)
  {
    if n == 0 {
    } else {
      WaitsMakeUpSeries(p, n - 1);
      RawDelayGrows(p, n);
      TruncDropsFraction(RawDelay(p, n));
      assert Trunc(RawDelay(p, n)) <= p.maxDelay;
    }
  }

  function PowerOfTwo(n: nat): int {
    if n == 0 then 1 else 2 * PowerOfTwo(n - 1)
  }

  lemma {:induction false} PowOfTwo(n: nat)
    ensures Pow(2.0, n) == PowerOfTwo(n) as real
  {
    if n == 0 {
    } else {
      PowOfTwo(n - 1);
    }
  }

  /** The default policy waits 100 ms, doubled each time and capped at 30 s. */
  lemma DefaultDelays(n: nat)
    ensures GetDelay(DEFAULT, n + 1) == Min(100_000_000 * PowerOfTwo(n), 30_000_000_000)
  {
    PowOfTwo(n);
    PowGrows(2.0, n);
    assert DEFAULT.initialDelay == 100_000_000 && DEFAULT.backoffFactor == 2.0;
    assert RawDelay(DEFAULT, n + 1) == 100_000_000.0 * PowerOfTwo(n) as real;
    assert RawDelay(DEFAULT, n + 1) == (100_000_000 * PowerOfTwo(n)) as real;
  }

  lemma {:induction false} PowGrows(x: real, n: nat)
    requires x >= 1.0
    ensures 1.0 <= Pow(x, n) <= Pow(x, n + 1)
  {
    if n == 0 {
    } else {
      PowGrows(x, n - 1);
    }
    ScaleUp(Pow(x, n), x);
  }

  lemma ScaleUp(a: real, x: real)
    requires a >= 0.0 && x >= 1.0
    ensures a <= a * x
  {
    assert a * (x - 1.0) >= 0.0;
    assert a * x == a * (x - 1.0) + a;
  }

  lemma ScaleMono(a: real, x: real, y: real)
    requires a >= 0.0 && x <= y
    ensures a * x <= a * y
  {
    assert a * (y - x) >= 0.0;
    assert a * y == a * x + a * (y - x);
  }

  lemma TruncMono(x: real, y: real)
    requires 0.0 <= x <= y
    ensures 0 <= Trunc(x) <= Trunc(y) && Trunc(x) as real <= x
  {
  }

  /** Nanoseconds, growth and cap in the ranges a policy is written in. */
  predicate Backoff(p: RetryPolicy) {
    p.initialDelay >= 0 && p.backoffFactor >= 1.0
  }

  lemma RawDelayGrows(p: RetryPolicy, attempt: nat)
    requires Backoff(p) && attempt >= 1
    ensures 0.0 <= RawDelay(p, attempt) <= RawDelay(p, attempt + 1)
  {
    var d, x, y := p.initialDelay as real, Pow(p.backoffFactor, attempt - 1), Pow(p.backoffFactor, attempt);
    PowGrows(p.backoffFactor, attempt - 1);
    ScaleMono(d, 0.0, x);
    ScaleMono(d, x, y);
    assert RawDelay(p, attempt) == d * x && RawDelay(p, attempt + 1) == d * y;
  }

  /** The delay is the largest whole number of nanoseconds within the cap and the uncapped
      exponential, and it never shrinks from one attempt to the next. */
  lemma DelayGrowsUpToCap(p: RetryPolicy, attempt: nat)
    requires Backoff(p) && attempt >= 1
    ensures GetDelay(p, attempt) <= GetDelay(p, attempt + 1) <= p.maxDelay
    ensures GetDelay(p, attempt) as real <= RawDelay(p, attempt)
    ensures GetDelay(p, attempt) == p.maxDelay || RawDelay(p, attempt) < (GetDelay(p, attempt) + 1) as real
  {
    RawDelayGrows(p, attempt);
    TruncMono(RawDelay(p, attempt), RawDelay(p, attempt + 1));
  }

  /** The first `n` delays. */
  function Delays(p: RetryPolicy, n: nat): seq<int> {
    seq(n, i => GetDelay(p, i + 1))
  }

  lemma {:induction false} WaitsAreDelays(p: RetryPolicy, n: nat)
    ensures Waits(p, n) == Sum(Delays(p, n))
  {
    if n == 0 {
    } else {
      WaitsAreDelays(p, n - 1);
      assert Delays(p, n)[..n - 1] == Delays(p, n - 1);
    }
  }

  lemma {:induction false} WaitsLinear(p: RetryPolicy, n: nat)
    requires Backoff(p)
    ensures Waits(p, n) <= n * p.maxDelay
  {
    if n == 0 {
    } else {
      WaitsLinear(p, n - 1);
      DelayGrowsUpToCap(p, n);
      assert n * p.maxDelay == (n - 1) * p.maxDelay + p.maxDelay;
    }
  }

  /** The closed form d·(xⁿ - 1) bounds (x - 1) times a total of n terms. */
  predicate GeometricallyBounded(d: real, x: real, n: nat, total: int) {
    (x - 1.0) * total as real <= d * (Pow(x, n) - 1.0)
  }

  lemma {:induction false} WaitsGeometric(p: RetryPolicy, n: nat)
    requires Backoff(p)
    ensures GeometricallyBounded(p.initialDelay as real, p.backoffFactor, n, Waits(p, n))
  {
    if n == 0 {
    } else {
      WaitsGeometric(p, n - 1);
      DelayGrowsUpToCap(p, n);
      GeometricStep(p, n, Waits(p, n - 1), GetDelay(p, n));
    }
  }

  lemma {:induction false} WaitsConstant(p: RetryPolicy, n: nat)
    requires Backoff(p) && p.backoffFactor == 1.0
    ensures Waits(p, n) <= n * p.initialDelay
  {
    if n == 0 {
    } else {
      WaitsConstant(p, n - 1);
      DelayGrowsUpToCap(p, n);
      PowOne(n - 1);
      assert n * p.initialDelay == (n - 1) * p.initialDelay + p.initialDelay;
    }
  }

  lemma {:induction false} PowOne(n: nat)
    ensures Pow(1.0, n) == 1.0
  {
    if n == 0 {
    } else {
      PowOne(n - 1);
    }
  }

  lemma GeometricStep(p: RetryPolicy, n: nat, total: int, term: int)
    requires n > 0 && Backoff(p)
    requires GeometricallyBounded(p.initialDelay as real, p.backoffFactor, n - 1, total)
    requires term as real <= RawDelay(p, n)
    ensures GeometricallyBounded(p.initialDelay as real, p.backoffFactor, n, total + term)
  {
    var d, x, q := p.initialDelay as real, p.backoffFactor, Pow(p.backoffFactor, n - 1);
    ScaleMono(x - 1.0, term as real, d * q);
    calc {
      (x - 1.0) * (total + term) as real;
    ==
      (x - 1.0) * total as real + (x - 1.0) * term as real;
    <=
      d * (q - 1.0) + (x - 1.0) * (d * q);
    ==
      d * (q * x - 1.0);
    }
  }

  lemma {:induction false} WaitsMonotone(p: RetryPolicy, m: nat, n: nat)
    requires Backoff(p) && p.maxDelay >= 0 && m <= n
    ensures 0 <= Waits(p, m) <= Waits(p, n)
    decreases n
  {
    if n == 0 {
    } else {
      WaitsMonotone(p, if m < n then m else n - 1, n - 1);
      RawDelayGrows(p, n);
      TruncMono(0.0, RawDelay(p, n));
    }
  }

  /** The time an execution spends waiting is less than one more full wait would make it. */
  lemma CutWithinNext(p: RetryPolicy, env: Env)
    requires Backoff(p) && p.maxAttempts >= 1 && p.maxDelay >= 0
    ensures var r := ExecuteSpec(p, env); var n: nat := p.maxAttempts - 1;
      && r.waits <= n
      && 0 <= Waits(p, r.waits) + r.cut <= Waits(p, n)
  {
    var r := ExecuteSpec(p, env);
    var n: nat := p.maxAttempts - 1;
    ExecuteMeaning(p, env);
    if r.cut == 0 {
      WaitsMonotone(p, r.waits, n);
    } else {
      assert r.waits + 1 == r.calls <= n && r.cut == CutWait(p, env, r.calls);
      WaitsMonotone(p, r.waits, r.calls);
      WaitsMonotone(p, r.calls, n);
    }
  }

  /** All waits of one execution together, with the part of one that a cancellation cuts short:
      capped linearly and by the geometric sum. */
  lemma TotalWaitBounded(p: RetryPolicy, env: Env)
    requires Backoff(p) && p.maxAttempts >= 1 && p.maxDelay >= 0
    ensures var w := Waits(p, ExecuteSpec(p, env).waits) + ExecuteSpec(p, env).cut;
      && 0 <= w <= (p.maxAttempts - 1) * p.maxDelay
      && GeometricallyBounded(p.initialDelay as real, p.backoffFactor, p.maxAttempts - 1, w)
      && (p.backoffFactor == 1.0 ==> w <= (p.maxAttempts - 1) * p.initialDelay)
  {
    var n: nat := p.maxAttempts - 1;
    var w := Waits(p, ExecuteSpec(p, env).waits) + ExecuteSpec(p, env).cut;
    CutWithinNext(p, env);
    WaitsLinear(p, n);
    WaitsGeometric(p, n);
    GeometricallyBoundedMono(p.initialDelay as real, p.backoffFactor, n, w, Waits(p, n));
    if p.backoffFactor == 1.0 {
      WaitsConstant(p, n);
    }
  }

  lemma GeometricallyBoundedMono(d: real, x: real, n: nat, total: int, total': int)
    requires x >= 1.0 && total <= total' && GeometricallyBounded(d, x, n, total')
    ensures GeometricallyBounded(d, x, n, total)
  {
    ScaleMono(x - 1.0, total as real, total' as real);
  }
}
