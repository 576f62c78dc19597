/** Clock readings and durations, both counted in nanoseconds. */
module Clock {

  const SECOND: int := 1_000_000_000
  const MINUTE: int := 60 * SECOND
  const MAX_DURATION: int := 0x7FFF_FFFF_FFFF_FFFF
  const MIN_DURATION: int := -0x8000_0000_0000_0000

  predicate IsDuration(d: int) {
    MIN_DURATION <= d <= MAX_DURATION
  }

  /** The difference of two readings, which saturates at the bounds of a 64-bit duration. */
  function Sub(t: int, u: int): int {
    if t - u > MAX_DURATION then MAX_DURATION
    else if t - u < MIN_DURATION then MIN_DURATION
    else t - u
  }
}
