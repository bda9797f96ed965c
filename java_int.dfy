/** Java's 32-bit `int` and its wrap-around arithmetic. */
module JavaInt {

  const MIN_VALUE: int := -0x8000_0000
  const MAX_VALUE: int := 0x7fff_ffff
  const TWO_32: int := 0x1_0000_0000

  /** The values of a Java `int`. */
  type int32 = x: int | -0x8000_0000 <= x <= 0x7fff_ffff

  /** The result of a Java `int` addition or subtraction whose exact value is `x`:
      the int32 congruent to `x` modulo 2^32. */
  function Wrap(x: int): (r: int32)
    ensures MIN_VALUE <= x <= MAX_VALUE ==> r == x
    ensures MAX_VALUE < x <= MAX_VALUE + TWO_32 ==> r == x - TWO_32
    ensures MIN_VALUE - TWO_32 <= x < MIN_VALUE ==> r == x + TWO_32
    ensures (x - r) % TWO_32 == 0
  {
    if MIN_VALUE <= x <= MAX_VALUE then x
    else if MAX_VALUE < x <= MAX_VALUE + TWO_32 then x - TWO_32
    else if MIN_VALUE - TWO_32 <= x < MIN_VALUE then x + TWO_32
    else
      var m := x % TWO_32;
      if m <= MAX_VALUE then m else m - TWO_32
  }
}
