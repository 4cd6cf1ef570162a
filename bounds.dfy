/** Java's fixed-width integer ranges and the 64-bit wrap-around of `long` arithmetic. */
module Bounds {

  const Int32Min: int := -0x8000_0000
  const Int32Max: int := 0x7fff_ffff
  const Int64Min: int := -0x8000_0000_0000_0000
  const Int64Max: int := 0x7fff_ffff_ffff_ffff
  const TwoTo32: int := 0x1_0000_0000
  const TwoTo64: int := 0x1_0000_0000_0000_0000

  /** `x` is a value of Java's `int`. */
  predicate InInt32(x: int) {
    Int32Min <= x <= Int32Max
  }

  /** `x` is a value of Java's `long`. */
  predicate InInt64(x: int) {
    Int64Min <= x <= Int64Max
  }

  /** The `int` that Java's two's-complement arithmetic produces for the exact
      result `x`: the one value of the 32-bit range congruent to `x` modulo 2^32. */
  function Wrap32(x: int): (r: int)
    ensures InInt32(r)
    ensures (x - r) % TwoTo32 == 0
    ensures InInt32(x) ==> r == x
  {
    var d := x - Int32Min;
    assert d == (d / TwoTo32) * TwoTo32 + d % TwoTo32;
    d % TwoTo32 + Int32Min
  }

  /** The `long` that Java's two's-complement arithmetic produces for the exact
      result `x`: the one value of the 64-bit range congruent to `x` modulo 2^64. */
  function Wrap64(x: int): (r: int)
    ensures InInt64(r)
    ensures (x - r) % TwoTo64 == 0
    ensures InInt64(x) ==> r == x
  {
    var d := x - Int64Min;
    assert d == (d / TwoTo64) * TwoTo64 + d % TwoTo64;
    d % TwoTo64 + Int64Min
  }
}
