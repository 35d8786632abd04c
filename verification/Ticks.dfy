/** The 32-bit tick counter and its order modulo 2^32 (timer.c, clock.c). */
module Ticks {

  const TICKS := 0x1_0000_0000
  const HALF := 0x7FFF_FFFF      // RT_TICK_MAX / 2

  type Tick = t: int | 0 <= t < TICKS

  /** Unsigned 32-bit subtraction and addition. */
  function Sub(a: Tick, b: Tick): Tick {
    (a - b) % TICKS
  }

  function Add(a: Tick, n: nat): Tick {
    (a + n) % TICKS
  }

  /** The test by which rt_timer_start stops before a timer. */
  predicate Later(a: Tick, b: Tick) {
    Sub(a, b) != 0 && Sub(a, b) < HALF
  }

  /** The test by which rt_timer_check fires a timer. */
  predicate Expired(now: Tick, t: Tick) {
    Sub(now, t) < HALF
  }

  /** Time as seen from an origin: inside half of the range it is ordinary order. */
  function Age(o: Tick, t: Tick): Tick {
    Sub(t, o)
  }

  lemma LaterIff(o: Tick, a: Tick, b: Tick)
    requires Age(o, a) < HALF && Age(o, b) < HALF
    ensures Later(a, b) <==> Age(o, b) < Age(o, a)
  {
  }

  lemma ExpiredIff(o: Tick, now: Tick, t: Tick)
    requires Age(o, now) < HALF && Age(o, t) < HALF
    ensures Expired(now, t) <==> Age(o, t) <= Age(o, now)
  {
  }

  lemma AgeAdd(o: Tick, now: Tick, n: nat)
    requires Age(o, now) + n < HALF
    ensures Age(o, Add(now, n)) == Age(o, now) + n
  {
  }

  /** The window cannot be larger: the test orders two ticks by their ages, both ways round,
      exactly if the ages differ by less than HALF. */
  lemma WindowIff(o: Tick, a: Tick, b: Tick)
    ensures ((Later(a, b) <==> Age(o, b) < Age(o, a)) && (Later(b, a) <==> Age(o, a) < Age(o, b)))
      <==> -HALF < Age(o, a) - Age(o, b) < HALF
  {
  }
}
