/** Machine integers of the 32-bit target. */
module Ints {

  const MAXINT: int := 0x7fff_ffff
  const MININT: int := -0x8000_0000
  const TWO32: int := 0x1_0000_0000

  /** A C `int`. */
  type Int32 = x: int | -0x8000_0000 <= x <= 0x7fff_ffff

  /** A C `unsigned`. */
  type UInt32 = x: int | 0 <= x < 0x1_0000_0000

  /** The value a 32-bit register keeps of a signed result. */
  function Wrap32(x: int): (r: Int32)
    ensures (MININT <= x <= MAXINT) <==> r == x
    ensures (r - x) % TWO32 == 0
  {
    var u := x % TWO32;
    if u <= MAXINT then u else u - TWO32
  }

  /** The value a 32-bit register keeps of an unsigned result. */
  function WrapU32(x: int): (r: UInt32)
    ensures 0 <= x < TWO32 <==> r == x
  {
    x % TWO32
  }
}
