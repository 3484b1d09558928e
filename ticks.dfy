/** SDL's millisecond tick counter is an unsigned 32-bit value, and the systems
    subtract stored start times from it in unsigned arithmetic. These helpers
    write that arithmetic out on mathematical integers. */
module Ticks {

  /** Number of distinct 32-bit values. */
  const TICKS: nat := 0x1_0000_0000

  /** A value of `SDL_GetTicks()`: milliseconds since start-up, as a `Uint32`. */
  type Tick = t: nat | t < TICKS

  /** Conversion of any integer to `unsigned int` (reduction modulo 2^32). */
  function Wrap(x: int): (r: nat)
    ensures r < TICKS
    ensures 0 <= x < TICKS ==> r == x
  {
    x % TICKS
  }

  /** Conversion of an `unsigned int` back to a 32-bit `int` (two's complement). */
  function Signed(x: nat): (r: int)
    requires x < TICKS
    ensures -0x8000_0000 <= r < 0x8000_0000
    ensures Wrap(r) == x
  {
    if x < 0x8000_0000 then x else x - TICKS
  }

  /** Unsigned difference `now - since`, as the expression `SDL_GetTicks() - t`
      computes it. */
  function Elapsed(now: Tick, since: int): (r: nat)
    ensures r < TICKS
    ensures since <= now < since + TICKS ==> r == now - since
  {
    Wrap(now - since)
  }

  lemma {:induction false} SignedWrap(x: int)
    requires -0x8000_0000 <= x < 0x8000_0000
    ensures Signed(Wrap(x)) == x
  {
    if x < 0 {
      assert Wrap(x) == x + TICKS;
    }
  }
}
