/**
 * Fixed-width C integer types used by the flight computer and the
 * recovery tool, and the two C conversions the model needs written out:
 * float-to-int truncation and the reinterpretation of an unsigned 32-bit
 * value printed through a signed `%d` conversion.
 */
module CInts {

  type uint8 = x: int | 0 <= x < 0x100
  type uint32 = x: int | 0 <= x < 0x1_0000_0000

  /** Unsigned 8-bit increment, wrapping 255 to 0. */
  function Inc8(x: uint8): (r: uint8)
    ensures x < 255 ==> r == x + 1
    ensures x == 255 ==> r == 0
  {
    (x + 1) % 0x100
  }

  /** Unsigned 8-bit decrement, wrapping 0 to 255. */
  function Dec8(x: uint8): (r: uint8)
    ensures x > 0 ==> r == x - 1
    ensures x == 0 ==> r == 255
  {
    (x - 1) % 0x100
  }

  /** The value C's `%d` prints for an unsigned 32-bit argument (two's complement). */
  function AsSigned32(x: uint32): (r: int)
    ensures -0x8000_0000 <= r < 0x8000_0000
    ensures r % 0x1_0000_0000 == x
  {
    if x < 0x8000_0000 then x else x - 0x1_0000_0000
  }

  /**
   * C's conversion of a floating value to an integer: truncation toward zero.
   * C leaves the conversion undefined when the truncated value does not fit
   * in an int; this is the mathematical truncation, with no bound.
   */
  function Trunc(r: real): (i: int)
    ensures r >= 0.0 ==> i as real <= r < i as real + 1.0
    ensures r < 0.0 ==> i as real - 1.0 < r <= i as real
  {
    if r >= 0.0 then r.Floor else -((-r).Floor)
  }
}
