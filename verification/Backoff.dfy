/** Exponential backoff: the waits of a retry loop and `retryWithBackoff` of the storage utilities. */
module Backoff {
  import opened AuthTypes

  function Pow(m: real, n: nat): real {
    if n == 0 then 1.0 else m * Pow(m, n - 1)
  }

  /** The wait before retry number `attempt` (counted from 0). */
  function Delay(base: real, multiplier: real, attempt: nat): real {
    base * Pow(multiplier, attempt)
  }

  /** The total wait of the first `n` retries. */
  function DelaySum(base: real, multiplier: real, n: nat): real {
    if n == 0 then 0.0 else DelaySum(base, multiplier, n - 1) + Delay(base, multiplier, n - 1)
  }

  /** The geometric closed form: base * (multiplier^n - 1) / (multiplier - 1). */
  lemma {:induction false} DelaySumClosedForm(base: real, multiplier: real, n: nat)
    ensures (multiplier - 1.0) * DelaySum(base, multiplier, n) == base * (Pow(multiplier, n) - 1.0)
  {
    if n > 0 {
      DelaySumClosedForm(base, multiplier, n - 1);
      Factor(base, multiplier, DelaySum(base, multiplier, n - 1), Pow(multiplier, n - 1),
             DelaySum(base, multiplier, n), Pow(multiplier, n));
    }
  }

  lemma Factor(base: real, m: real, s: real, p: real, longer: real, higher: real)
    requires (m - 1.0) * s == base * (p - 1.0) && longer == s + base * p && higher == m * p
    ensures (m - 1.0) * longer == base * (higher - 1.0)
  {
    assert (m - 1.0) * (base * p) == base * (m * p) - base * p;
  }

  lemma PowPositive(m: real, n: nat)
    requires m >= 0.0
    ensures Pow(m, n) >= 0.0
  {
  }

  /** More retries never wait less. */
  lemma {:induction false} DelaySumMonotone(base: real, multiplier: real, few: nat, many: nat)
    requires base >= 0.0 && multiplier >= 0.0 && few <= many
    ensures DelaySum(base, multiplier, few) <= DelaySum(base, multiplier, many)
    decreases many
  {
    if few < many {
      DelaySumMonotone(base, multiplier, few, many - 1);
      PowPositive(multiplier, many - 1);
    }
  }

  /** The calls `retryWithBackoff` makes: up to the first success, and maxRetries + 1 without one. */
  function CallsUntilSuccess<T>(outcomes: nat -> Result<T>, attempt: nat, maxRetries: nat): (calls: nat)
    requires attempt <= maxRetries
    ensures attempt < calls <= maxRetries + 1
    ensures forall i :: attempt <= i < calls - 1 ==> outcomes(i).Err?
    ensures outcomes(calls - 1).Ok? || calls == maxRetries + 1
    decreases maxRetries - attempt
  {
    if outcomes(attempt).Ok? || attempt == maxRetries then attempt + 1
    else CallsUntilSuccess(outcomes, attempt + 1, maxRetries)
  }

  /** `outcomes(i)` is what call number i of the retried function does. A failed call is followed by a
      wait unless it was the last one. */
  method RetryWithBackoff<T>(outcomes: nat -> Result<T>, maxRetries: nat, baseDelay: real, multiplier: real)
    returns (r: Result<T>, calls: nat, slept: real)
    requires baseDelay >= 0.0 && multiplier >= 0.0
    ensures calls == CallsUntilSuccess(outcomes, 0, maxRetries) && 1 <= calls <= maxRetries + 1
    ensures r == outcomes(calls - 1)
    ensures slept == DelaySum(baseDelay, multiplier, calls - 1) <= DelaySum(baseDelay, multiplier, maxRetries)
  {
    hide Pow;
    hide Delay;
    calls, slept := 0, 0.0;
    var lastError := Err(StorageFailure);
    while calls <= maxRetries
      invariant calls <= maxRetries ==>
        CallsUntilSuccess(outcomes, calls, maxRetries) == CallsUntilSuccess(outcomes, 0, maxRetries)
      invariant calls == maxRetries + 1 ==>
        CallsUntilSuccess(outcomes, 0, maxRetries) == calls && lastError == outcomes(maxRetries)
      invariant calls <= maxRetries + 1
      invariant slept == DelaySum(baseDelay, multiplier, if calls <= maxRetries then calls else maxRetries)
    {
      var attempt := calls;
      calls := calls + 1;
      var outcome := outcomes(attempt);
      if outcome.Ok? {
        DelaySumMonotone(baseDelay, multiplier, attempt, maxRetries);
        return outcome, calls, slept;
      }
      lastError := outcome;
      if attempt < maxRetries {
        slept := slept + Delay(baseDelay, multiplier, attempt);
      }
    }
    r := lastError;
  }
}
