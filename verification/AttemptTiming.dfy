/**
  The timing constants of the auto-connect engine and its adaptive handshake budget.
  Time is in integer milliseconds; a round-trip time is in tenths of a millisecond, the
  precision the speed test reports.
 */
module AttemptTiming {
  import opened Prelude

  const BASE_HANDSHAKE_MS: nat := 30_000
  const UNKNOWN_RTT_TIMEOUT_MS: nat := 30_000
  const MIN_ATTEMPT_TIMEOUT_MS: nat := 30_000
  const MAX_ATTEMPT_TIMEOUT_MS: nat := 45_000
  const DISCONNECT_SETTLE_MS: nat := 550
  const PROGRESS_TICK_MS: nat := 100
  const DIALOG_GRACE_MS: nat := 4_000
  const SHORTEST_TIMEOUT_MS: nat := 250
  const MAX_CASCADE_CANDIDATES: nat := 50
  const MAX_DISCONNECT_RETRIES: nat := 3

  /** The unrounded budget in tenths of a millisecond: every tenth of RTT adds eight. */
  function ClampedTenths(rtt: nat): nat {
    Min(10 * MAX_ATTEMPT_TIMEOUT_MS, Max(10 * MIN_ATTEMPT_TIMEOUT_MS, 10 * BASE_HANDSHAKE_MS + 8 * rtt))
  }

  /** The handshake budget, rounded to a hundredth of a second. */
  function ComputeAttemptTimeout(rtt: Option<int>): (ms: nat)
    ensures MIN_ATTEMPT_TIMEOUT_MS <= ms <= MAX_ATTEMPT_TIMEOUT_MS
  {
    if rtt.None? || rtt.value < 0 then UNKNOWN_RTT_TIMEOUT_MS
    else (ClampedTenths(rtt.value) + 50) / 100 * 10
  }

  lemma RoundedMonotone(a: nat, b: nat)
    requires a <= b
    ensures (a + 50) / 100 * 10 <= (b + 50) / 100 * 10
  {
    assert (a + 50) / 100 <= (b + 50) / 100;
  }

  /** A slower server never gets a shorter budget. */
  lemma TimeoutMonotone(r1: nat, r2: nat)
    requires r1 <= r2
    ensures ComputeAttemptTimeout(Some(r1)) <= ComputeAttemptTimeout(Some(r2))
  {
    RoundedMonotone(ClampedTenths(r1), ClampedTenths(r2));
  }

  /** A multiple of eight is never halfway between two multiples of a hundred. */
  lemma NoTie(eighth: nat)
    ensures -50 < 100 * ((8 * eighth + 50) / 100) - 8 * eighth < 50
  {
    var m := (8 * eighth + 50) / 100;
    assert 4 * (2 * eighth - 25 * m) != -50;
  }

  /** Without a usable measurement it is exactly 30 seconds. */
  lemma UnknownGetsBase(rtt: Option<int>)
    ensures rtt.None? || rtt.value < 0 ==> ComputeAttemptTimeout(rtt) == 30_000
  {
  }

  /**
    In tenths of a millisecond the budget is 30 seconds and eight times the round-trip time, at
    most 45 seconds, rounded to the strictly nearest hundredth of a second: no input is halfway
    between two.
   */
  lemma TimeoutRoundsToNearest(r: nat)
    ensures exists hundredths: nat ::
              && ComputeAttemptTimeout(Some(r)) == 10 * hundredths
              && -50 < 100 * hundredths - Min(450_000, 300_000 + 8 * r) < 50
  {
    var eighth := if r <= 18_750 then 37_500 + r else 56_250;
    assert ClampedTenths(r) == 8 * eighth;
    NoTie(eighth);
    var hundredths := (8 * eighth + 50) / 100;
    assert ComputeAttemptTimeout(Some(r)) == 10 * hundredths;
  }
}
