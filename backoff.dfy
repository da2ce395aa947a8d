/**
 * The delay policies `asyncParallelForEach` ships for its `interval` option.
 */
module BackOffRetry {
  import opened TaskStates

  function Pow2(n: nat): (p: nat)
    ensures p >= 1
  {
    if n == 0 then 1 else 2 * Pow2(n - 1)
  }

  /** `exponential()`'s delay before attempt `retryCount`: fifty milliseconds
      times two to the power `retryCount - 1`, that power being one half when
      `retryCount` is zero. */
  function ExponentialBackoff(retryCount: nat): int
  {
    if retryCount == 0 then 25 else 50 * Pow2(retryCount - 1)
  }

  /** The interval `exponential()` returns. */
  function Exponential(): Interval
  {
    PerTrial(ExponentialBackoff)
  }

  /** Each delay is twice the one before it. */
  lemma ExponentialDoubles(retryCount: nat)
    ensures ExponentialBackoff(retryCount + 1) == 2 * ExponentialBackoff(retryCount)
  {
  }

  /** As a delay before attempt `k + 2`, the first retry waits 100 ms and every
      later one twice as long as the one before: 100, 200, 400, 800, ... */
  lemma {:induction false} ExponentialBeforeAttempt(k: nat)
    ensures DelayBefore(Exponential(), k + 2) == 100 * Pow2(k)
  {
    if k > 0 {
      ExponentialBeforeAttempt(k - 1);
      ExponentialDoubles(k);
    }
  }
}
