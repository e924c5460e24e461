/** Calling a tool with retries and a growing pause between attempts. */
module Retry {
  datatype Error = Timeout | Reported(text: string)

  datatype Outcome = Success(result: string) | Failure(error: Error)

  /** The configured pause; a non-positive one means 150 ms (times are in milliseconds). */
  function EffectiveBackoff(configured: int): (n: nat)
    ensures n > 0
  {
    if configured <= 0 then 150 else configured
  }

  ghost predicate AllFail(attempt: nat -> Outcome, n: nat) {
    forall i: nat :: i < n ==> attempt(i).Failure?
  }

  /**
   * `attempt(i)` is what the handler does on attempt i; running into the timeout is one of
   * the ways to fail. At most `retries + 1` attempts are made. The first success is
   * returned; without one, the last failure. Between attempts the pauses grow linearly.
   */
  method CallWithRetry(retries: int, configuredBackoff: int, attempt: nat -> Outcome)
    returns (outcome: Outcome, calls: nat, slept: int)
    ensures retries < 0 ==> calls == 0 && outcome == Failure(Reported("tool error"))
    ensures retries >= 0 ==> 1 <= calls <= retries + 1 && outcome == attempt(calls - 1) && AllFail(attempt, calls - 1)
    ensures retries >= 0 && outcome.Failure? ==> calls == retries + 1
    ensures 2 * slept == (if configuredBackoff > 0 then configuredBackoff else 150) * (calls * (calls - 1))
  {
    var backoff := EffectiveBackoff(configuredBackoff);
    var attempts := retries + 1;
    outcome := Failure(Reported("tool error"));
    calls := 0;
    slept := 0;
    var i := 0;
    while i < attempts
      invariant calls == i
      invariant i == 0 || i <= attempts
      invariant AllFail(attempt, i)
      invariant if i == 0 then outcome == Failure(Reported("tool error")) else outcome == attempt(i - 1)
      invariant 2 * slept == backoff * (if i == attempts then i * (i - 1) else i * (i + 1))
    {
      var result := attempt(i);
      calls := calls + 1;
      outcome := result;
      if result.Success? {
        PausesSoFar(backoff, i);
        return;
      }
      if i < attempts - 1 {
        OneMorePause(backoff, i + 1);
        slept := slept + backoff * (i + 1);
      }
      i := i + 1;
    }
  }

  lemma PausesSoFar(backoff: int, i: int)
    ensures backoff * (i * (i + 1)) == backoff * ((i + 1) * ((i + 1) - 1))
  {
    assert i * (i + 1) == (i + 1) * ((i + 1) - 1);
  }

  lemma OneMorePause(backoff: int, k: int)
    ensures backoff * ((k - 1) * k) + 2 * (backoff * k) == backoff * (k * (k + 1))
  {
    assert (k - 1) * k + 2 * k == k * (k + 1);
  }
}
