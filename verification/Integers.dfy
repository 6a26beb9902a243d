/** The signed 64-bit integers of the original, and its saturating arithmetic. */
module Integers {

  const I64_MIN := -0x8000_0000_0000_0000
  const I64_MAX := 0x7FFF_FFFF_FFFF_FFFF

  type i64 = x: int | I64_MIN <= x <= I64_MAX

  predicate IsI64(x: int) { I64_MIN <= x <= I64_MAX }

  /** The nearest 64-bit integer. */
  function Saturate(x: int): i64 { if x > I64_MAX then I64_MAX else if x < I64_MIN then I64_MIN else x }

  /** What is left of an integer in 64 bits. */
  function Wrap(x: int): i64 { (x - I64_MIN) % 0x1_0000_0000_0000_0000 + I64_MIN }

  function Max(a: i64, b: i64): i64 { if a < b then b else a }
}
