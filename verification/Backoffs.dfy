/** Reconnect delays in milliseconds: one second, doubling up to a minute. */
module Backoffs {
  const FIRST: nat := 1_000
  const MAX: nat := 60_000

  /** The backoff starts over after a connection at least this long. */
  const STABLE_AFTER: nat := 30_000

  function Min(a: nat, b: nat): nat { if a <= b then a else b }

  datatype Backoff = Backoff(next: nat) {
    /** The state after `next` was handed out as a delay. */
    function Advanced(): Backoff { Backoff(Min(next * 2, MAX)) }
  }

  const FRESH := Backoff(FIRST)

  function Pow2(k: nat): nat { if k == 0 then 1 else 2 * Pow2(k - 1) }

  /** The state after `k` delays since the last reset. */
  function After(k: nat): Backoff { if k == 0 then FRESH else After(k - 1).Advanced() }

  /** The k-th delay since the last reset is 2^k seconds, capped at a minute. */
  lemma {:induction false} DelayIsCappedPowerOfTwo(k: nat)
    ensures After(k).next == Min(FIRST * Pow2(k), MAX)
  {
    if k != 0 {
      DelayIsCappedPowerOfTwo(k - 1);
    }
  }
}
