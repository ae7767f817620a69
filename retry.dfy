/**
 * The rate-limit retry wrapper `retry_for_rate_limit_per_minute`: it calls
 * a function until it returns, retrying only on a quota-exhausted error,
 * at most `maxRetries` times, and sleeps a linearly growing, jittered time
 * between attempts.
 *
 * The wrapped function is modelled by `call(k)`, the outcome of its
 * (k+1)-th call; the sleep is a recorded wait; the jitter is a
 * nondeterministic factor in [0.9, 1.1].
 */
module Retry {

  /** What one call of the wrapped function does: return a value, raise
      ResourceExhausted (a quota error) or raise anything else. */
  datatype Outcome<T> = Ok(value: T) | Quota | Other

  /** How the wrapper ends: it returns the value, raises ResourceExhausted
      after the last allowed quota failure (or without calling at all), or
      re-raises another error. */
  datatype RetryResult<T> = Returned(value: T) | Exhausted | Failed

  /** The wait after the r-th quota failure, before jitter: the linear
      interpolation from `initial` towards `target`, or `target` alone when
      at most one attempt is allowed, then clamped to [0, target]. */
  function BaseWait(r: int, maxRetries: int, initial: real, target: real): real
  {
    Clamp(Linear(r, maxRetries, initial, target), target)
  }

  /** The unclamped schedule. */
  function Linear(r: int, maxRetries: int, initial: real, target: real): real
  {
    if maxRetries <= 1 then target
    else initial + (target - initial) * (r - 1) as real / (maxRetries - 1) as real
  }

  /** `min(wait, target)`, then `max(0, ...)`. */
  function Clamp(wait: real, target: real): real
  {
    var capped := if wait < target then wait else target;
    if capped > 0.0 then capped else 0.0
  }

  /** The clamping keeps every wait within [0, max(target, 0)]. */
  lemma BaseWaitBounds(r: int, maxRetries: int, initial: real, target: real)
    ensures 0.0 <= BaseWait(r, maxRetries, initial, target)
    ensures target >= 0.0 ==> BaseWait(r, maxRetries, initial, target) <= target
    ensures target < 0.0 ==> BaseWait(r, maxRetries, initial, target) == 0.0
  {
  }

  /** The schedule starts at `initial` (when that lies in [0, target]) and
      reaches `target` at r == maxRetries. */
  lemma BaseWaitEnds(maxRetries: int, initial: real, target: real)
    requires maxRetries >= 2 && 0.0 <= initial <= target
    ensures BaseWait(1, maxRetries, initial, target) == initial
    ensures BaseWait(maxRetries, maxRetries, initial, target) == target
  {
    var m := (maxRetries - 1) as real;
    assert (target - initial) * m / m == target - initial;
  }

  /** With initial <= target the waits never decrease from one quota
      failure to the next. */
  lemma BaseWaitMonotone(r: int, r': int, maxRetries: int, initial: real, target: real)
    requires initial <= target && 1 <= r <= r'
    ensures BaseWait(r, maxRetries, initial, target) <= BaseWait(r', maxRetries, initial, target)
  {
    if maxRetries > 1 {
      var d, m := target - initial, (maxRetries - 1) as real;
      var a, b := (r - 1) as real, (r' - 1) as real;
      ScaleMonotone(d, m, a, b);
      assert Linear(r, maxRetries, initial, target) == initial + d * a / m;
      assert Linear(r', maxRetries, initial, target) == initial + d * b / m;
    }
    assert Linear(r, maxRetries, initial, target) <= Linear(r', maxRetries, initial, target);
  }

  /** Scaling by a non-negative slope over a positive run keeps order. */
  lemma ScaleMonotone(d: real, m: real, a: real, b: real)
    requires 0.0 <= d && 0.0 < m && a <= b
    ensures d * a / m <= d * b / m
  {
    MulNonNegative(d, b - a);
    assert d * b - d * a == d * (b - a);
    DivNonNegative(d * b - d * a, m);
    assert d * b / m - d * a / m == (d * b - d * a) / m;
  }

  /** With 0 <= initial < target, every wait the wrapper actually sleeps
      (after the r-th quota failure, r < maxRetries) is below the target:
      the schedule reaches the target only at r == maxRetries, where the
      wrapper raises instead of sleeping. */
  lemma BaseWaitBelowTarget(r: int, maxRetries: int, initial: real, target: real)
    requires 0.0 <= initial < target && 1 <= r < maxRetries
    ensures BaseWait(r, maxRetries, initial, target) < target
  {
    var d, m := target - initial, (maxRetries - 1) as real;
    var a := (r - 1) as real;
    ScaleBelow(d, m, a);
    assert Linear(r, maxRetries, initial, target) == initial + d * a / m;
  }

  /** A positive slope over less than the full run stays below the rise. */
  lemma ScaleBelow(d: real, m: real, a: real)
    requires 0.0 < d && 0.0 <= a < m
    ensures d * a / m < d
  {
    MulNonNegative(d, m - a);
    assert d * m - d * a == d * (m - a);
    assert d * (m - a) > 0.0 by { MulPositive(d, m - a); }
    assert d * m / m == d;
    assert d * m / m - d * a / m == (d * m - d * a) / m;
    DivPositive(d * m - d * a, m);
  }

  lemma MulPositive(x: real, y: real)
    requires 0.0 < x && 0.0 < y
    ensures 0.0 < x * y
  {
  }

  lemma DivPositive(x: real, m: real)
    requires 0.0 < x && 0.0 < m
    ensures 0.0 < x / m
  {
  }

  lemma MulNonNegative(x: real, y: real)
    requires 0.0 <= x && 0.0 <= y
    ensures 0.0 <= x * y
  {
  }

  lemma DivNonNegative(x: real, m: real)
    requires 0.0 <= x && 0.0 < m
    ensures 0.0 <= x / m
  {
  }

  /** `1 + random.uniform(-0.1, 0.1)`: any factor in [0.9, 1.1]. */
  predicate IsJitterFactor(f: real) {
    0.9 <= f <= 1.1
  }

  /** A jittered wait: within 10% of a (non-negative) base wait. */
  predicate Jittered(wait: real, base: real) {
    base * 0.9 <= wait <= base * 1.1
  }

  /** The outcome of the wrapper and how many calls it made, from the
      (k+1)-th call on. */
  function Attempts<T>(call: nat -> Outcome<T>, maxRetries: int, k: nat): (RetryResult<T>, nat)
    decreases maxRetries - k
  {
    if k >= maxRetries then (Exhausted, k)
    else match call(k)
      case Ok(v) => (Returned(v), k + 1)
      case Other => (Failed, k + 1)
      case Quota => if k + 1 >= maxRetries then (Exhausted, k + 1) else Attempts(call, maxRetries, k + 1)
  }

  /** The wrapper's outcome and the number of calls it makes. */
  function RetrySpec<T>(call: nat -> Outcome<T>, maxRetries: int): (RetryResult<T>, nat)
  {
    Attempts(call, maxRetries, 0)
  }

  /** Every call before the last one raised a quota error; the last one
      decides the outcome: its value is returned unchanged, another error
      propagates at once, and ResourceExhausted follows exactly
      `maxRetries` quota errors, or no call at all when maxRetries <= 0. */
  lemma {:induction false} AttemptsMeaning<T>(call: nat -> Outcome<T>, maxRetries: int, k: nat)
    requires k == 0 || k < maxRetries
    requires forall j :: 0 <= j < k ==> call(j).Quota?
    ensures var (res, calls) := Attempts(call, maxRetries, k);
      && k <= calls
      && (maxRetries <= 0 ==> res.Exhausted? && calls == 0)
      && (maxRetries > 0 ==> 1 <= calls <= maxRetries)
      && (forall j :: 0 <= j < calls - 1 ==> call(j).Quota?)
      && (res.Returned? ==> call(calls - 1) == Ok(res.value))
      && (res.Failed? ==> call(calls - 1).Other?)
      && (res.Exhausted? && maxRetries > 0 ==> calls == maxRetries && call(calls - 1).Quota?)
    decreases maxRetries - k
  {
    if k < maxRetries && call(k).Quota? && k + 1 < maxRetries {
      AttemptsMeaning(call, maxRetries, k + 1);
    }
  }

  /** RetrySpec in full: see AttemptsMeaning. */
  lemma RetryMeaning<T>(call: nat -> Outcome<T>, maxRetries: int)
    ensures var (res, calls) := RetrySpec(call, maxRetries);
      && (maxRetries <= 0 ==> res.Exhausted? && calls == 0)
      && (maxRetries > 0 ==> 1 <= calls <= maxRetries)
      && (forall j :: 0 <= j < calls - 1 ==> call(j).Quota?)
      && (res.Returned? ==> call(calls - 1) == Ok(res.value))
      && (res.Failed? ==> call(calls - 1).Other?)
      && (res.Exhausted? && maxRetries > 0 ==> calls == maxRetries && call(calls - 1).Quota?)
  {
    AttemptsMeaning(call, maxRetries, 0);
  }

  /** retry_for_rate_limit_per_minute. Returns the outcome, the number of
      calls of the wrapped function and the waits slept between them. */
  method RetryForRateLimit<T>(call: nat -> Outcome<T>, maxRetries: int, initial: real, target: real)
    returns (result: RetryResult<T>, calls: nat, waits: seq<real>)
    ensures (result, calls) == RetrySpec(call, maxRetries)
    ensures |waits| == if calls == 0 then 0 else calls - 1
    ensures |waits| > 0 ==> maxRetries >= 2
    ensures forall r :: 0 <= r < |waits| ==> Jittered(waits[r], BaseWait(r + 1, maxRetries, initial, target))
  {
    var retries := 0;
    waits := [];
    while retries < maxRetries
      invariant 0 <= retries && (retries == 0 || retries < maxRetries)
      invariant Attempts(call, maxRetries, retries) == RetrySpec(call, maxRetries)
      invariant |waits| == retries
      invariant retries > 0 ==> maxRetries >= 2
      invariant forall r :: 0 <= r < |waits| ==> Jittered(waits[r], BaseWait(r + 1, maxRetries, initial, target))
      decreases maxRetries - retries
    {
      match call(retries)
      case Ok(v) =>
        return Returned(v), retries + 1, waits;
      case Other =>
        return Failed, retries + 1, waits;
      case Quota =>
        retries := retries + 1;
        if retries >= maxRetries {
          return Exhausted, retries, waits;
        }
        assert IsJitterFactor(1.0);
        var factor: real :| IsJitterFactor(factor);
        assert IsJitterFactor(factor);
        var base := BaseWait(retries, maxRetries, initial, target);
        BaseWaitBounds(retries, maxRetries, initial, target);
        var wait := base * factor;
        MulNonNegative(base, factor - 0.9);
        MulNonNegative(base, 1.1 - factor);
        waits := waits + [wait];
    }
    return Exhausted, retries, waits;
  }
}
