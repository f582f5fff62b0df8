/**
 * The millisecond tick counter of the radar firmware: the global `ticks_ms`
 * (an unsigned 32-bit integer) and the sticky flag `ticks_overflowed`.
 * The SysTick interrupt advances the counter; the main loop reads it and
 * zeroes it between sampling windows.
 */
module TickCounter {

  /** Values of a C `uint32_t` are taken modulo this. */
  const WRAP: int := 0x1_0000_0000

  type U32 = x: int | 0 <= x < WRAP

  /** The two globals the SysTick handler writes. */
  datatype Counter = Counter(ticks: U32, overflowed: bool)

  /** Both globals as they are initialised at start-up. */
  const Boot: Counter := Counter(0, false)

  /** `ticks_ms++` on a `uint32_t`: unsigned arithmetic wraps to 0. */
  function Increment(t: U32): (r: U32)
    ensures r == 0 <==> t == WRAP - 1
    ensures r != 0 ==> r == t + 1
  {
    (t + 1) % WRAP
  }

  /** One run of `systick_isr`: increment, and raise the flag when the result is 0. */
  function Tick(c: Counter): (r: Counter)
    ensures r.ticks == Increment(c.ticks)
    ensures r.overflowed <==> c.overflowed || c.ticks == WRAP - 1
  {
    var t := Increment(c.ticks);
    if t == 0 then Counter(t, true) else Counter(t, c.overflowed)
  }

  /** `reset_ticks_ms`: the count goes to 0, the overflow flag is left alone. */
  function Reset(c: Counter): (r: Counter)
    ensures r.ticks == 0 && r.overflowed == c.overflowed
  {
    c.(ticks := 0)
  }

  /** `n` consecutive SysTick interrupts. */
  function Ticks(c: Counter, n: nat): Counter
  {
    if n == 0 then c else Tick(Ticks(c, n - 1))
  }

  lemma ModSucc(a: nat)
    ensures (a % WRAP + 1) % WRAP == (a + 1) % WRAP
  {
  }

  /**
   * After `n` interrupts the counter holds the start value plus `n`, modulo
   * 2^32, and the flag is set exactly when it was already set or the true
   * count reached 2^32 on the way.
   */
  lemma {:induction false} TicksAfter(c: Counter, n: nat)
    ensures Ticks(c, n).ticks == (c.ticks + n) % WRAP
    ensures Ticks(c, n).overflowed <==> c.overflowed || c.ticks + n >= WRAP
  {
    if n > 0 {
      TicksAfter(c, n - 1);
      ModSucc(c.ticks + n - 1);
      var p := Ticks(c, n - 1);
      if c.ticks + n - 1 < WRAP {
        assert p.ticks == c.ticks + n - 1;
      }
    }
  }

  /** The overflow flag is sticky: no number of further interrupts clears it. */
  lemma OverflowSticky(c: Counter, n: nat)
    requires c.overflowed
    ensures Ticks(c, n).overflowed
  {
    TicksAfter(c, n);
  }

  /** After a reset, the counter reads the number of interrupts since, modulo 2^32. */
  lemma ElapsedSinceReset(c: Counter, n: nat)
    ensures Ticks(Reset(c), n).ticks == n % WRAP
    ensures Ticks(Reset(c), n).overflowed <==> c.overflowed || n >= WRAP
  {
    TicksAfter(Reset(c), n);
  }

  /** Resetting twice is resetting once. */
  lemma ResetIdempotent(c: Counter)
    ensures Reset(Reset(c)) == Reset(c)
  {
  }
}
