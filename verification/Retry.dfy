/** The consumer's retry loop: bounded attempts with capped exponential backoff. */
module Retry {

  /**
   The dead-letter settings. Durations are nanoseconds. `toDuration` is the conversion from floating point to a
   64-bit duration: it truncates where the value fits and is whatever the platform makes of it where it does not,
   so nothing is assumed about it.
   */
  datatype RetryConfig = RetryConfig(
    maxRetries: int,
    initialBackoff: int,
    maxBackoff: int,
    multiplier: real,
    toDuration: real -> int)

  function Max(a: int, b: int): int {
    if a < b then b else a
  }

  // A negative retry limit still allows the first attempt.
  function Budget(maxRetries: int): nat {
    Max(0, maxRetries)
  }

  function Pow(base: real, exponent: nat): real {
    if exponent == 0 then 1.0 else base * Pow(base, exponent - 1)
  }

  // The wait computed after the failed attempt number `retry`, before its conversion and the cap.
  function ComputedWait(config: RetryConfig, retry: nat): real {
    config.initialBackoff as real * Pow(config.multiplier, retry)
  }

  function Backoff(config: RetryConfig, retry: nat): int {
    config.toDuration(ComputedWait(config, retry))
  }

  // The time slept after that attempt; sleeping for a negative duration returns at once.
  function Delay(config: RetryConfig, retry: nat): nat {
    Max(0, if Backoff(config, retry) > config.maxBackoff then config.maxBackoff else Backoff(config, retry))
  }

  // The first computed wait is the initial backoff, each later one the multiplier times the one before it.
  lemma WaitsGrow(config: RetryConfig, retry: nat)
    ensures ComputedWait(config, 0) == config.initialBackoff as real
    ensures ComputedWait(config, retry + 1) == config.multiplier * ComputedWait(config, retry)
    ensures Delay(config, retry) <= Max(0, config.maxBackoff)
    ensures 0 <= config.toDuration(ComputedWait(config, retry)) <= config.maxBackoff ==>
      Delay(config, retry) == config.toDuration(ComputedWait(config, retry))
  {
    var initial, pow := config.initialBackoff as real, Pow(config.multiplier, retry);
    assert initial * (config.multiplier * pow) == config.multiplier * (initial * pow);
  }

  // Doubling from 100 with a cap of 1000 waits 100, 200, 400, 800, 1000.
  lemma DoublingWaits(maxRetries: int)
    ensures var config := RetryConfig(maxRetries, 100, 1000, 2.0, (x: real) => x.Floor);
            && Delay(config, 0) == 100 && Delay(config, 1) == 200 && Delay(config, 2) == 400
            && Delay(config, 3) == 800 && Delay(config, 4) == 1000
  {
    assert Pow(2.0, 4) == 2.0 * Pow(2.0, 3) == 16.0;
  }

  function TotalDelay(config: RetryConfig, sleeps: nat): nat {
    if sleeps == 0 then 0 else TotalDelay(config, sleeps - 1) + Delay(config, sleeps - 1)
  }

  lemma {:induction false} TotalDelayBound(config: RetryConfig, sleeps: nat)
    ensures TotalDelay(config, sleeps) <= sleeps * Max(0, config.maxBackoff)
  {
    if sleeps > 0 {
      TotalDelayBound(config, sleeps - 1);
      var cap := Max(0, config.maxBackoff);
      assert (sleeps - 1) * cap + cap == sleeps * cap;
    }
  }

  lemma TimesMonotone(a: nat, b: nat, c: nat)
    requires a <= b
    ensures a * c <= b * c
  {
  }

  /**
   The attempts numbered 0..calls-1 are exactly those a retry loop makes against a handler whose k-th call fails
   when fails(k): it stops at the first success, and gives up only when the budget is spent.
   */
  ghost predicate Stops(fails: nat -> bool, maxRetries: int, calls: nat, ok: bool) {
    && 1 <= calls <= Budget(maxRetries) + 1
    && (forall k: nat | k < calls - 1 :: fails(k))
    && (ok <==> !fails(calls - 1))
    && (!ok ==> calls == Budget(maxRetries) + 1)
  }

  lemma StopsUnique(fails: nat -> bool, maxRetries: int, calls: nat, ok: bool, calls': nat, ok': bool)
    requires Stops(fails, maxRetries, calls, ok) && Stops(fails, maxRetries, calls', ok')
    ensures calls == calls' && ok == ok'
  {
  }

  method ProcessWithRetry(fails: nat -> bool, config: RetryConfig) returns (ok: bool, calls: nat, slept: nat)
    ensures Stops(fails, config.maxRetries, calls, ok)
    ensures ok <==> exists k: nat :: k <= Budget(config.maxRetries) && !fails(k)
    ensures calls <= if config.maxRetries < 0 then 1 else config.maxRetries + 1
    ensures !ok ==> calls == if config.maxRetries < 0 then 1 else config.maxRetries + 1
    ensures slept == TotalDelay(config, calls - 1)
    ensures slept <= Budget(config.maxRetries) * Max(0, config.maxBackoff)
  {
    var retry: nat := 0;
    slept := 0;
    while true
      invariant 0 <= retry <= Budget(config.maxRetries)
      invariant forall k: nat | k < retry :: fails(k)
      invariant slept == TotalDelay(config, retry)
      decreases Budget(config.maxRetries) - retry
    {
      if fails(retry) {
        if retry >= config.maxRetries {
          ok, calls := false, retry + 1;
          break;
        }
        var delay := Backoff(config, retry);
        if delay > config.maxBackoff {
          delay := config.maxBackoff;
        }
        slept := slept + Max(0, delay);
        retry := retry + 1;
      } else {
        ok, calls := true, retry + 1;
        break;
      }
    }
    TotalDelayBound(config, calls - 1);
    TimesMonotone(calls - 1, Budget(config.maxRetries), Max(0, config.maxBackoff));
  }
}
