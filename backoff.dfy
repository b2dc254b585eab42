/**
 * The replica-lag throttler's control law: the pause between strides doubles while the
 * replicas lag more than allowed and halves once they catch up, between INITIAL_TIMEOUT
 * and MAX_TIMEOUT. Timeouts are seconds, as exact `real`s: the source's floats
 * 0.1 * 2^k double and halve without rounding, so every comparison it makes comes out
 * the same as on these reals.
 */
module Backoff {

  const INITIAL_TIMEOUT: real := 0.1
  const DEFAULT_STRIDE: int := 40_000
  const DEFAULT_MAX_ALLOWED_LAG: int := 10
  const MAX_TIMEOUT: real := INITIAL_TIMEOUT * 1024.0

  /**
   * The timeout after one observation of the replicas' maximum lag (`throttle_seconds`):
   * double it when the lag exceeds what is allowed and it is below the maximum, halve it
   * when the lag is within what is allowed and it is above the initial value, otherwise
   * keep it.
   */
  function NextTimeout(timeout: real, lag: int, allowedLag: int): (t: real)
    ensures OnLadder(timeout) ==> OnLadder(t)
    ensures 0.0 < timeout && lag > allowedLag ==> timeout <= t
    ensures 0.0 < timeout && lag <= allowedLag ==> t <= timeout
  {
    if lag > allowedLag && timeout < MAX_TIMEOUT then
      LadderUp(timeout);
      timeout * 2.0
    else if lag <= allowedLag && timeout > INITIAL_TIMEOUT then
      LadderDown(timeout);
      timeout / 2.0
    else
      timeout
  }

  /** 2^k. */
  function Pow2(k: nat): (p: nat)
    ensures p >= 1
  {
    if k == 0 then 1 else 2 * Pow2(k - 1)
  }

  /** The k-th value a timeout can take from INITIAL_TIMEOUT: INITIAL_TIMEOUT * 2^k. */
  function Rung(k: nat): real {
    INITIAL_TIMEOUT * Pow2(k) as real
  }

  /** The timeout is one of INITIAL_TIMEOUT * 2^k, 0 <= k <= 10. */
  ghost predicate OnLadder(t: real) {
    exists k: nat :: k <= 10 && t == Rung(k)
  }

  lemma {:induction false} RungIncreasing(i: nat, j: nat)
    requires i < j
    ensures Rung(i) < Rung(j)
  {
    if i < j - 1 {
      RungIncreasing(i, j - 1);
    }
  }

  /** Each rung is twice the one below it. */
  lemma RungDoubles(k: nat)
    ensures Rung(k + 1) == Rung(k) * 2.0
  {
    assert Pow2(k + 1) == 2 * Pow2(k);
  }

  lemma RungTop()
    ensures Rung(10) == MAX_TIMEOUT
  {
    assert Pow2(10) == 1024;
  }

  /** Doubling a rung below the top reaches the next rung. */
  lemma LadderUp(t: real)
    requires t < MAX_TIMEOUT
    ensures OnLadder(t) ==> OnLadder(t * 2.0)
  {
    if OnLadder(t) {
      var k: nat :| k <= 10 && t == Rung(k);
      if k == 10 {
        RungTop();
        assert false;
      }
      RungDoubles(k);
    }
  }

  /** Halving a rung above the bottom reaches the rung below. */
  lemma LadderDown(t: real)
    requires t > INITIAL_TIMEOUT
    ensures OnLadder(t) ==> OnLadder(t / 2.0)
  {
    if OnLadder(t) {
      var k: nat :| k <= 10 && t == Rung(k);
      if k == 0 {
        assert false;
      }
      RungDoubles(k - 1);
    }
  }

  /** Every rung lies within [INITIAL_TIMEOUT, MAX_TIMEOUT]. */
  lemma LadderBounds(t: real)
    requires OnLadder(t)
    ensures INITIAL_TIMEOUT <= t <= MAX_TIMEOUT
  {
    var k: nat :| k <= 10 && t == Rung(k);
    if 0 < k {
      RungIncreasing(0, k);
    }
    if k < 10 {
      RungIncreasing(k, 10);
    }
    RungTop();
  }

  /** The timeout after each of `lags` has been observed in turn, one call per stride. */
  function Run(timeout: real, lags: seq<int>, allowedLag: int): real
    decreases |lags|
  {
    if lags == [] then timeout else Run(NextTimeout(timeout, lags[0], allowedLag), lags[1..], allowedLag)
  }

  /**
   * From the value `initialize` sets, every sequence of observations keeps the timeout
   * on the ladder INITIAL_TIMEOUT * 2^k, 0 <= k <= 10, hence within its bounds.
   */
  lemma {:induction false} RunStaysOnLadder(lags: seq<int>, allowedLag: int)
    ensures OnLadder(Run(INITIAL_TIMEOUT, lags, allowedLag))
    ensures INITIAL_TIMEOUT <= Run(INITIAL_TIMEOUT, lags, allowedLag) <= MAX_TIMEOUT
  {
    assert Rung(0) == INITIAL_TIMEOUT;
    RunFromLadder(INITIAL_TIMEOUT, lags, allowedLag);
    LadderBounds(Run(INITIAL_TIMEOUT, lags, allowedLag));
  }

  lemma {:induction false} RunFromLadder(t: real, lags: seq<int>, allowedLag: int)
    requires OnLadder(t)
    ensures OnLadder(Run(t, lags, allowedLag))
    decreases |lags|
  {
    if lags != [] {
      RunFromLadder(NextTimeout(t, lags[0], allowedLag), lags[1..], allowedLag);
    }
  }

  /**
   * The ladder holds only from INITIAL_TIMEOUT: a timeout put off it through the public
   * setter (0.15 here) is halved below INITIAL_TIMEOUT when there is no lag.
   */
  lemma SetterCanLeaveBounds()
    ensures NextTimeout(0.15, 0, DEFAULT_MAX_ALLOWED_LAG) == 0.075 < INITIAL_TIMEOUT
  {
  }

  /** The timeout after `n` calls that all observe the same lag. */
  function Repeat(timeout: real, lag: int, allowedLag: int, n: nat): real
    decreases n
  {
    if n == 0 then timeout else Repeat(NextTimeout(timeout, lag, allowedLag), lag, allowedLag, n - 1)
  }

  function Min(a: int, b: int): int {
    if a <= b then a else b
  }

  function Max(a: int, b: int): int {
    if a <= b then b else a
  }

  /**
   * Under sustained lag the timeout climbs one rung per call and then stays at
   * MAX_TIMEOUT: 0.1, 0.2, 0.4, ..., 102.4, 102.4, ...
   */
  lemma {:induction false} SustainedLagBacksOff(k: nat, lag: int, allowedLag: int, n: nat)
    requires k <= 10 && lag > allowedLag
    ensures Repeat(Rung(k), lag, allowedLag, n) == Rung(Min(k + n, 10))
    decreases n
  {
    if n > 0 {
      if k < 10 {
        RungIncreasing(k, 10);
        RungTop();
        RungDoubles(k);
        assert NextTimeout(Rung(k), lag, allowedLag) == Rung(k + 1);
        SustainedLagBacksOff(k + 1, lag, allowedLag, n - 1);
      } else {
        RungTop();
        assert NextTimeout(Rung(k), lag, allowedLag) == Rung(k);
        SustainedLagBacksOff(k, lag, allowedLag, n - 1);
      }
    }
  }

  /**
   * Once the lag is within what is allowed the timeout comes down one rung per call
   * to INITIAL_TIMEOUT, and no lower.
   */
  lemma {:induction false} RecoveryComesDown(k: nat, lag: int, allowedLag: int, n: nat)
    requires k <= 10 && lag <= allowedLag
    ensures Repeat(Rung(k), lag, allowedLag, n) == Rung(Max(k - n, 0))
    decreases n
  {
    if n > 0 {
      if k > 0 {
        RungIncreasing(0, k);
        RungDoubles(k - 1);
        assert NextTimeout(Rung(k), lag, allowedLag) == Rung(k - 1);
        RecoveryComesDown(k - 1, lag, allowedLag, n - 1);
      } else {
        assert NextTimeout(Rung(k), lag, allowedLag) == Rung(k);
        RecoveryComesDown(k, lag, allowedLag, n - 1);
      }
    }
  }
}
