/** The `retry(max_attempts, delay)` decorator of main.py: call the wrapped function up
    to `max_attempts` times, return the first value it returns, sleep
    `delay * 2^attempt` after a failed attempt that is not the last, and re-raise the
    exception of the last attempt. */
module Retry {
  import opened Wrappers

  function Pow2(k: nat): (r: nat)
    ensures r >= 1
  {
    if k == 0 then 1 else 2 * Pow2(k - 1)
  }

  /** What one decorated call did: its outcome (a returned value, `None` when no
      attempt was made at all, or the exception that escaped), the number of calls to
      the wrapped function, and the lengths of the sleeps between them. */
  datatype RetryRun<T> = RetryRun(outcome: Attempt<Option<T>>, calls: nat, sleeps: seq<int>)

  /** The exception `time.sleep` raises for a negative length. */
  const NegativeSleep := "ValueError: sleep length must be non-negative"

  /** Attempts `k`, `k + 1`, ... of at most `n`; `call(j)` is what attempt `j` does. A
      failed attempt that is not the last sleeps `delay * 2^j`, and with a negative
      `delay` that sleep itself raises, inside the `except`, ending the run. */
  function AttemptsFrom<T>(k: nat, n: nat, delay: int, call: nat -> Attempt<T>): (r: RetryRun<T>)
    requires k < n
    decreases n - k
    ensures k < r.calls <= n
    ensures |r.sleeps| == r.calls - 1 - k
    ensures forall j :: 0 <= j < |r.sleeps| ==> r.sleeps[j] == delay * Pow2(k + j) >= 0
    ensures forall j :: k <= j < r.calls - 1 ==> call(j).Raises?
    ensures delay < 0 ==> r.calls == k + 1
    ensures r.outcome.Returns? ==>
      r.outcome.value.Some? && call(r.calls - 1) == Returns(r.outcome.value.value)
    ensures r.outcome.Raises? ==> call(r.calls - 1).Raises?
    ensures r.outcome.Raises? ==>
      r.outcome.error == (if r.calls == n then call(n - 1).error else NegativeSleep)
    ensures r.outcome.Raises? && r.calls < n ==> delay < 0
  {
    match call(k)
    case Returns(v) => RetryRun(Returns(Some(v)), k + 1, [])
    case Raises(e) =>
      if k == n - 1 then RetryRun(Raises(e), n, [])
      else if delay * Pow2(k) < 0 then RetryRun(Raises(NegativeSleep), k + 1, [])
      else
        var rest := AttemptsFrom(k + 1, n, delay, call);
        RetryRun(rest.outcome, rest.calls, [delay * Pow2(k)] + rest.sleeps)
  }

  /** The decorated call. With `max_attempts <= 0` the loop body never runs and the
      wrapper returns `None` without calling anything. Otherwise the wrapped function
      is called at most `max_attempts` times, every call but the last raised, the result
      is the value of the first call that returned, and the k-th sleep (0-based) lasts
      `delay * 2^k`, with no sleep after the final attempt. With `delay >= 0` an
      exception escapes only when all `max_attempts` calls raised, and it is the last
      one's; with `delay < 0` the first failure that is not the last attempt ends the
      run with the ValueError of `sleep`. */
  function Retry<T>(maxAttempts: int, delay: int, call: nat -> Attempt<T>): (r: RetryRun<T>)
    ensures maxAttempts <= 0 ==> r == RetryRun(Returns(None), 0, [])
    ensures maxAttempts > 0 ==> 1 <= r.calls <= maxAttempts && |r.sleeps| == r.calls - 1
    ensures forall j :: 0 <= j < |r.sleeps| ==> r.sleeps[j] == delay * Pow2(j) >= 0
    ensures forall j :: 0 <= j < r.calls - 1 ==> call(j).Raises?
    ensures maxAttempts > 0 && r.outcome.Returns? ==>
      r.outcome.value.Some? && call(r.calls - 1) == Returns(r.outcome.value.value)
    ensures delay >= 0 ==>
      (r.outcome.Raises? <==> maxAttempts > 0 && forall j :: 0 <= j < maxAttempts ==> call(j).Raises?)
    ensures delay < 0 ==> (r.outcome.Raises? <==> maxAttempts > 0 && call(0).Raises?)
    ensures delay < 0 && maxAttempts > 0 ==> r.calls == 1
    ensures r.outcome.Raises? ==>
      r.outcome.error == (if r.calls == maxAttempts then call(maxAttempts - 1).error else NegativeSleep)
  {
    if maxAttempts <= 0 then RetryRun(Returns(None), 0, [])
    else AttemptsFrom(0, maxAttempts, delay, call)
  }

  function Sum(xs: seq<int>): int
  {
    if xs == [] then 0 else xs[0] + Sum(xs[1..])
  }

  /** Total time spent sleeping by attempts `k..`: the geometric series
      `delay * (2^k + ... + 2^(calls-2)) = delay * (2^(calls-1) - 2^k)`. */
  lemma {:induction false} SleepTotalFrom<T>(k: nat, n: nat, delay: int, call: nat -> Attempt<T>)
    requires k < n
    decreases n - k
    ensures Sum(AttemptsFrom(k, n, delay, call).sleeps)
      == delay * (Pow2(AttemptsFrom(k, n, delay, call).calls - 1) - Pow2(k))
  {
    var r := AttemptsFrom(k, n, delay, call);
    if call(k).Returns? || k == n - 1 || delay < 0 {
      assert r.sleeps == [] && r.calls == k + 1;
      MulZero(delay);
    } else {
      var rest := AttemptsFrom(k + 1, n, delay, call);
      SleepTotalFrom(k + 1, n, delay, call);
      assert r.sleeps == [delay * Pow2(k)] + rest.sleeps && r.calls == rest.calls;
      assert r.sleeps[1..] == rest.sleeps;
      GeometricStep(delay, Pow2(k), Pow2(rest.calls - 1), Sum(rest.sleeps));
    }
  }

  lemma MulZero(d: int)
    ensures d * 0 == 0
  {
  }

  /** One step of the geometric series: `d*q + d*(p - 2q) == d*(p - q)`. */
  lemma GeometricStep(d: int, q: int, p: int, tail: int)
    requires tail == d * (p - 2 * q)
    ensures d * q + tail == d * (p - q)
  {
  }

  /** A decorated call that made `calls` attempts slept `delay * (2^(calls-1) - 1)` in
      all; with the defaults `(3, 1)` and three failures that is 1 + 2 = 3. */
  lemma RetrySleepTotal<T>(maxAttempts: int, delay: int, call: nat -> Attempt<T>)
    requires maxAttempts > 0
    ensures Sum(Retry(maxAttempts, delay, call).sleeps)
      == delay * (Pow2(Retry(maxAttempts, delay, call).calls - 1) - 1)
  {
    SleepTotalFrom(0, maxAttempts, delay, call);
  }

  /** A wrapped function that never raises is called exactly once and its value is
      returned unchanged: the decorator is transparent for it. The `publish_*` methods
      of main.py catch every exception themselves, so their `retry(3)` is of this kind. */
  lemma RetryOfNonRaising<T>(maxAttempts: int, delay: int, call: nat -> Attempt<T>)
    requires maxAttempts > 0
    requires call(0).Returns?
    ensures Retry(maxAttempts, delay, call) == RetryRun(Returns(Some(call(0).value)), 1, [])
  {
  }
}
