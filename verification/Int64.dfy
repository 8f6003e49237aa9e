/** Go's `int64`: the range, the wrap-around of its arithmetic, and the
    saturating subtraction of `time.Time.Sub`. */
module Int64 {

  const TWO_63: int := 0x8000_0000_0000_0000
  const TWO_64: int := 0x1_0000_0000_0000_0000
  const MIN: int := -TWO_63
  const MAX: int := TWO_63 - 1

  type int64 = x: int | MIN <= x <= MAX

  /** The value Go keeps of the mathematical result `x`. */
  function Wrap(x: int): (r: int64)
    ensures (r - x) % TWO_64 == 0
    ensures MIN <= x <= MAX ==> r == x
    ensures MAX < x <= MAX + TWO_64 ==> r == x - TWO_64
    ensures MIN - TWO_64 <= x < MIN ==> r == x + TWO_64
  {
    (x + TWO_63) % TWO_64 - TWO_63
  }

  /** `a.Sub(b)`: the difference, saturated at both ends of the range. */
  function SaturatingSub(a: int, b: int): int64 {
    if a - b > MAX then MAX else if a - b < MIN then MIN else a - b
  }

  /** No 64-bit value is nearer to the true difference. */
  lemma SaturatesToNearest(a: int, b: int, x: int64)
    ensures Max(SaturatingSub(a, b) - (a - b), (a - b) - SaturatingSub(a, b)) <= Max(x - (a - b), (a - b) - x)
  {
  }

  function Max(a: int, b: int): int {
    if a < b then b else a
  }

  function Min(a: int, b: int): int {
    if a < b then a else b
  }
}
