/**
 * Kotlin `Int`: a 32-bit two's-complement integer whose arithmetic wraps around.
 */
module Ints {

  const INT_MIN: int := -0x8000_0000
  const INT_MAX: int := 0x7fff_ffff

  type Int32 = x: int | INT_MIN <= x <= INT_MAX

  /** The 32-bit value that an unbounded result `x` wraps to. */
  function Wrap(x: int): (r: Int32)
    ensures (r - x) % 0x1_0000_0000 == 0
    ensures INT_MIN <= x <= INT_MAX ==> r == x
  {
    (x - INT_MIN) % 0x1_0000_0000 + INT_MIN
  }

  /** Kotlin `a + b` on `Int`. */
  function Add(a: Int32, b: Int32): Int32
  {
    Wrap(a + b)
  }

  /** Kotlin `a * b` on `Int`. */
  function Mul(a: Int32, b: Int32): Int32
  {
    Wrap(a * b)
  }
}
