/** Time on the device: `millis()` is an unsigned 32-bit counter, so every
    duration is computed with wrap-around subtraction. */
module Clock {

  const TWO_32: int := 0x1_0000_0000

  /** A reading of `millis()` or a difference of two readings (`unsigned long`). */
  type Millis = t: int | 0 <= t < TWO_32

  /** Total length of the setup window: 10 minutes. */
  const SETUP_TIMEOUT: Millis := 600000

  /** Minimum spacing of credential submissions once the attempt ceiling is reached. */
  const RETRY_WINDOW: Millis := 10000

  /** Accepted submissions after which the spacing rule applies. */
  const MAX_CONNECT_ATTEMPTS: nat := 3

  /** `a - b` on `unsigned long`: the unique `d` with `b + d == a` modulo 2^32. */
  function Sub(a: Millis, b: Millis): (d: Millis)
    ensures (b + d) % TWO_32 == a
    ensures b <= a ==> d == a - b
    ensures a < b ==> d == TWO_32 + a - b
  {
    (a - b) % TWO_32
  }

  /** `Sub` is the only wrap-around difference: nothing else added to `b` gives `a`. */
  lemma SubUnique(a: Millis, b: Millis, d: Millis)
    requires (b + d) % TWO_32 == a
    ensures d == Sub(a, b)
  {
  }

  /** A reading taken `elapsed` real milliseconds after `start` differs from
      `start` by `elapsed` modulo 2^32: a duration of 2^32 ms or more is seen
      as its remainder. */
  lemma SubElapsed(start: Millis, elapsed: nat)
    ensures Sub((start + elapsed) % TWO_32, start) == elapsed % TWO_32
  {
    var q := (start + elapsed) / TWO_32;
    assert (start + elapsed) % TWO_32 - start == elapsed - q * TWO_32;
    SubUnique((start + elapsed) % TWO_32, start, elapsed % TWO_32);
  }

  /** Seconds left in the setup window, as the setup page computes it:
      `(SETUP_TIMEOUT - (now - apStartTime)) / 1000`, all in `unsigned long`. */
  function RemainingSeconds(now: Millis, start: Millis): Millis
  {
    Sub(SETUP_TIMEOUT, Sub(now, start)) / 1000
  }

  /** Inside the window the countdown is the exact number of whole seconds left,
      at most 600, and it never increases as time passes. */
  lemma RemainingWithinWindow(now: Millis, start: Millis)
    requires Sub(now, start) <= SETUP_TIMEOUT
    ensures RemainingSeconds(now, start) <= SETUP_TIMEOUT / 1000
    ensures RemainingSeconds(now, start) * 1000 <= SETUP_TIMEOUT - Sub(now, start)
    ensures SETUP_TIMEOUT - Sub(now, start) < RemainingSeconds(now, start) * 1000 + 1000
  {
  }

  /** The countdown is non-increasing in the elapsed time while inside the window. */
  lemma RemainingMonotone(now1: Millis, now2: Millis, start: Millis)
    requires Sub(now1, start) <= Sub(now2, start) <= SETUP_TIMEOUT
    ensures RemainingSeconds(now2, start) <= RemainingSeconds(now1, start)
  {
  }

  /** Past the deadline the unsigned subtraction wraps: the formula then yields
      `(2^32 + SETUP_TIMEOUT - elapsed) / 1000`, never less than 600 seconds.
      Only the restart that precedes this computation keeps it off the page. */
  lemma RemainingWrapsPastDeadline(now: Millis, start: Millis)
    requires Sub(now, start) > SETUP_TIMEOUT
    ensures RemainingSeconds(now, start) == (TWO_32 + SETUP_TIMEOUT - Sub(now, start)) / 1000
    ensures RemainingSeconds(now, start) >= SETUP_TIMEOUT / 1000
  {
  }

  /** The `m:s` text of the setup page: minutes and seconds of a second count. */
  function Countdown(seconds: nat): (ms: (nat, nat))
    ensures ms.1 < 60
    ensures ms.0 * 60 + ms.1 == seconds
  {
    (seconds / 60, seconds % 60)
  }
}
