/** Retries with capped exponential backoff around one upstream call. */
module Retry {
  import opened Powers
  import opened Status

  const FIRST_BACKOFF_MS := 50
  const MAX_BACKOFF_MS := 2000

  /** What the executor did: returned the last outcome, or hit its unreachable end. */
  datatype RetryResult = Returned(outcome: Outcome) | Unreachable

  /** The outcomes of the calls made so far leave the executor still retrying. */
  ghost predicate StillRetrying(maxAttempts: nat, log: seq<Outcome>) {
    && |log| < maxAttempts
    && (forall k | 0 <= k < |log| :: log[k].IsRetryable())
  }

  /** The outcomes of a finished run: every call before the last failed with a retryable code,
      and the last one either did not or was the last allowed. */
  ghost predicate IsRetryRun(maxAttempts: nat, log: seq<Outcome>) {
    && 1 <= |log| <= maxAttempts
    && (forall k | 0 <= k < |log| - 1 :: log[k].IsRetryable())
    && (|log| == maxAttempts || !log[|log| - 1].IsRetryable())
  }

  /** Total time slept, in milliseconds, for m sleeps. */
  function TotalSleep(m: nat): nat {
    if m <= 6 then 50 * (Power2(m) - 1) else 3150 + 2000 * (m - 6)
  }

  /** The sleep after m earlier ones. */
  function Backoff(m: nat): nat {
    if m <= 5 then 50 * Power2(m) else 2000
  }

  lemma {:induction false} PowerAtLeast(m: nat)
    ensures m >= 6 ==> Power2(m) >= 64
    ensures m < 6 ==> Power2(m) <= 32
  {
    if m > 0 { PowerAtLeast(m - 1); }
  }

  lemma SleepAdds(m: nat)
    ensures TotalSleep(m + 1) == TotalSleep(m) + Backoff(m)
    ensures Backoff(m + 1) == (if Backoff(m) * 2 < MAX_BACKOFF_MS then Backoff(m) * 2 else MAX_BACKOFF_MS)
  {
    PowerAtLeast(m);
    PowerAtLeast(m + 1);
    assert Power2(6) == 64 && Power2(5) == 32;
    if m == 5 { assert Power2(m + 1) == 64; }
  }

  /** The outcomes of the first n calls. */
  function Log(f: nat -> Outcome, n: nat): (log: seq<Outcome>)
    ensures |log| == n && forall k: nat | k < n :: log[k] == f(k)
  {
    if n == 0 then [] else Log(f, n - 1) + [f(n - 1)]
  }

  /** Calls f up to maxAttempts times; the nth call's outcome is f(n). */
  method WithRetry(maxAttempts: nat, f: nat -> Outcome) returns (r: RetryResult, calls: nat, sleptMs: nat)
    ensures r.Unreachable? <==> maxAttempts == 0
    ensures r.Returned? ==> IsRetryRun(maxAttempts, Log(f, calls)) && r.outcome == f(calls - 1)
    ensures r.Returned? ==> sleptMs == TotalSleep(calls - 1)
  {
    var backoffMs := FIRST_BACKOFF_MS;
    calls, sleptMs := 0, 0;
    for attempt := 1 to maxAttempts + 1
      invariant calls == attempt - 1 && forall k: nat | k < calls :: f(k).IsRetryable()
      invariant sleptMs == TotalSleep(calls) && backoffMs == Backoff(calls)
      invariant calls == maxAttempts ==> maxAttempts == 0
    {
      var outcome := f(calls);
      calls := calls + 1;
      if outcome.Ok? || attempt == maxAttempts || !outcome.error.IsRetryable() {
        return Returned(outcome), calls, sleptMs;
      }
      SleepAdds(calls - 1);
      sleptMs := sleptMs + backoffMs;
      backoffMs := if backoffMs * 2 < MAX_BACKOFF_MS then backoffMs * 2 else MAX_BACKOFF_MS;
    }
    return Unreachable, calls, sleptMs;
  }
}
