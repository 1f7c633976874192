/** The firmware's clock arithmetic.

`millis()` returns an `unsigned long`, which is 32 bits wide on the ESP32, so
the timer tests in `loop()` subtract two 32-bit unsigned values and the
difference wraps modulo 2^32 when the clock rolls over (after about 49.7 days).
 */
module Millis {

  const Modulus: int := 0x1_0000_0000

  /** A value of type `unsigned long` on the target. */
  type U32 = x: int | 0 <= x < Modulus

  /** `now - since` evaluated in 32-bit unsigned arithmetic: the number of
      milliseconds that have to be added to `since` to reach `now`, going
      forward around the 32-bit clock. */
  function Elapsed(now: U32, since: U32): (d: U32)
    ensures (since + d) % Modulus == now
    ensures since <= now ==> d == now - since
    ensures now < since ==> d == Modulus - since + now
  {
    (now - since) % Modulus
  }

  /** The wrapped difference is the only 32-bit value that takes `since`
      forward to `now`, so a timer test never confuses a rollover with a
      large delay. */
  lemma ElapsedIsUnique(now: U32, since: U32, d: U32)
    requires (since + d) % Modulus == now
    ensures d == Elapsed(now, since)
  {
    if since + d >= Modulus {
      assert since + d - Modulus == now;
    } else {
      assert since + d == now;
    }
  }

  /** Waiting exactly `d` milliseconds after `since` makes the wrapped
      difference equal `d`, whether or not the clock rolled over. */
  lemma ElapsedAfterWait(since: U32, d: U32)
    ensures Elapsed((since + d) % Modulus, since) == d
  {
    ElapsedIsUnique((since + d) % Modulus, since, d);
  }
}
