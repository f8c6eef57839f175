/** Go's 64-bit integers and its durations, which count nanoseconds in such an integer. */
module GoTypes {
  const MAX_INT := 0x7FFF_FFFF_FFFF_FFFF
  const MIN_INT := -0x8000_0000_0000_0000
  const TWO64 := 0x1_0000_0000_0000_0000

  const SECOND := 1_000_000_000

  /** A Go int on a 64-bit platform. */
  type Int64 = x: int | MIN_INT <= x <= MAX_INT

  /** The value that a 64-bit integer keeps of x: two's complement wrap-around. */
  function Wrap(x: int): (r: Int64)
    ensures MIN_INT <= x <= MAX_INT ==> r == x
  {
    var m := x % TWO64;
    if m <= MAX_INT then m else m - TWO64
  }

  /** Negation: the smallest integer is its own. */
  function Negated(x: int): Int64 { Wrap(-x) }
}
