/** Java's fixed-width integers over Dafny's unbounded `int`. */
module Numeric {

  const INT_MIN: int := -0x8000_0000
  const INT_MAX: int := 0x7FFF_FFFF
  const LONG_MIN: int := -0x8000_0000_0000_0000
  const LONG_MAX: int := 0x7FFF_FFFF_FFFF_FFFF

  const TWO_32: int := 0x1_0000_0000
  const TWO_64: int := 0x1_0000_0000_0000_0000

  predicate IsInt(x: int) { INT_MIN <= x <= INT_MAX }
  predicate IsLong(x: int) { LONG_MIN <= x <= LONG_MAX }

  /** Two's-complement wrap-around to 32 bits: Java `int` arithmetic and the `(int)` cast. */
  function WrapInt(x: int): (r: int)
    ensures IsInt(r)
    ensures IsInt(x) ==> r == x
  {
    (x - INT_MIN) % TWO_32 + INT_MIN
  }

  /** Two's-complement wrap-around to 64 bits: Java `long` arithmetic. */
  function WrapLong(x: int): (r: int)
    ensures IsLong(r)
    ensures IsLong(x) ==> r == x
  {
    (x - LONG_MIN) % TWO_64 + LONG_MIN
  }

  /** Wrapping after every addition is the same as wrapping once at the end. */
  lemma WrapIntAdd(a: int, b: int)
    ensures WrapInt(WrapInt(a) + b) == WrapInt(a + b)
  {
    var k := (a - INT_MIN) / TWO_32;
    assert WrapInt(a) == a - k * TWO_32;
    var x := a + b - INT_MIN;
    assert (x - k * TWO_32) % TWO_32 == x % TWO_32;
  }

  lemma WrapLongAdd(a: int, b: int)
    ensures WrapLong(WrapLong(a) + b) == WrapLong(a + b)
  {
    var k := (a - LONG_MIN) / TWO_64;
    assert WrapLong(a) == a - k * TWO_64;
    var x := a + b - LONG_MIN;
    assert (x - k * TWO_64) % TWO_64 == x % TWO_64;
  }
}
