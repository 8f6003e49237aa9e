/** Go's `time.Time`, as far as it is subtracted, saved and compared with zero. */
module Times {
  import opened Int64

  const SECOND: int := 1_000_000_000

  /** The monotonic clock's reading that `time.Now` adds, in nanoseconds. */
  datatype Reading = NoReading | Mono(value: int)

  /** A wall-clock instant in nanoseconds since the Unix epoch, and perhaps a reading. */
  datatype Time = Time(wall: int, reading: Reading)

  const ZERO: Time := Time(-62_135_596_800 * SECOND, NoReading)

  /** The same instant as it comes back from storage. */
  function Plain(t: Time): Time {
    t.(reading := NoReading)
  }

  /** `t.Sub(u)`: by the readings if both have one, by the wall clock otherwise. */
  function Sub(t: Time, u: Time): int64 {
    if t.reading.Mono? && u.reading.Mono?
    then SaturatingSub(t.reading.value, u.reading.value)
    else SaturatingSub(t.wall, u.wall)
  }

  /** How far the monotonic clock is ahead of the wall clock; it changes when the wall clock
      is set. */
  function Offset(t: Time): int
    requires t.reading.Mono?
  {
    t.reading.value - t.wall
  }

  /** Any reading of `t` has one of these offsets. */
  ghost predicate ReadsBy(t: Time, offsets: iset<int>) {
    t.reading.Mono? ==> Offset(t) in offsets
  }

  ghost predicate AtMostOne(offsets: iset<int>) {
    forall a, b :: a in offsets && b in offsets ==> a == b
  }

  /** While the wall clock is not set, dropping readings changes no difference. */
  lemma OneOffsetSubtractsPlain(t: Time, u: Time)
    requires t.reading.Mono? && u.reading.Mono? ==> Offset(t) == Offset(u)
    ensures Sub(t, u) == Sub(t, Plain(u)) == Sub(Plain(t), Plain(u)) == SaturatingSub(t.wall, u.wall)
  {
  }
}
