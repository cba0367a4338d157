/**
 * The frame-rate limiter of the game's main file: after a tick that took `dt`
 * milliseconds, wait for the rest of a 16 ms budget (about 60 frames per
 * second), never a negative amount.
 *
 * The source stores `16 - dt`, computed on the clock's 64-bit millisecond
 * count, in a 32-bit `int`; that narrowing is modelled as the usual
 * two's-complement wrap. Wrapping the 64-bit difference first changes nothing,
 * since 2^32 divides 2^64, so `dt` is taken as an unbounded integer.
 */
module FrameLimiter {

  /** The frame budget in milliseconds (16 = 60 fps). */
  const FrameBudgetMs: int := 16

  const TwoTo31: int := 0x8000_0000
  const TwoTo32: int := 0x1_0000_0000

  predicate InInt32(v: int)
  {
    -TwoTo31 <= v < TwoTo31
  }

  /** Two's-complement narrowing to 32 bits. */
  function ToInt32(v: int): (r: int)
    ensures InInt32(r)
    ensures (v - r) % TwoTo32 == 0
    ensures InInt32(v) ==> r == v
  {
    var m := v % TwoTo32;
    if m < TwoTo31 then m else m - TwoTo32
  }

  /**
   * The delay requested after a tick that took `dt` milliseconds. It is never
   * negative; whenever `16 - dt` fits the 32-bit variable it is
   * `max(16 - dt, 0)`, so at most 16 for a non-negative `dt`.
   */
  function FrameWait(dt: int): (wait: int)
    ensures 0 <= wait < TwoTo31
    ensures InInt32(FrameBudgetMs - dt) && dt <= FrameBudgetMs ==> wait == FrameBudgetMs - dt
    ensures InInt32(FrameBudgetMs - dt) && dt >= FrameBudgetMs ==> wait == 0
    ensures InInt32(FrameBudgetMs - dt) && dt >= 0 ==> wait <= FrameBudgetMs
  {
    var timeToWait := ToInt32(FrameBudgetMs - dt);
    if timeToWait < 0 then 0 else timeToWait
  }

  /**
   * Outside the 32-bit range the clamp no longer sees the true difference:
   * for a tick longer than 2^31 + 16 ms, and up to 2^32 + 16 ms, `16 - dt`
   * wraps to the positive `2^32 + 16 - dt`, and that is the delay requested.
   */
  lemma OverlongTickWraps(dt: int)
    requires TwoTo31 + FrameBudgetMs < dt <= TwoTo32 + FrameBudgetMs
    ensures FrameWait(dt) == TwoTo32 + FrameBudgetMs - dt
  {
  }
}
