/** Go's time arithmetic as far as the range bucketing needs it.
    An instant is a whole number of nanoseconds since Go's zero instant
    (January 1, year 1, 00:00:00 UTC), so the zero `time.Time{}` is 0. */
module GoTime {

  /** The smallest and largest values of Go's `time.Duration` (an int64). */
  const MinDuration: int := -0x8000_0000_0000_0000
  const MaxDuration: int := 0x7FFF_FFFF_FFFF_FFFF

  /** A `time.Duration`: a signed 64-bit count of nanoseconds. */
  type Duration = d: int | MinDuration <= d <= MaxDuration

  /** `time.Second`. */
  const Second: Duration := 1_000_000_000

  /** An absolute instant; `ZeroInstant` is `time.Time{}`, which a failed parse yields. */
  type Instant = int
  const ZeroInstant: Instant := 0

  /** `t.Sub(u)`: the elapsed time, saturated to the Duration range when it overflows. */
  function Sub(t: Instant, u: Instant): (d: Duration)
    ensures MinDuration <= t - u <= MaxDuration ==> d == t - u
    ensures t - u < MinDuration ==> d == MinDuration
    ensures t - u > MaxDuration ==> d == MaxDuration
  {
    if t - u < MinDuration then MinDuration
    else if t - u > MaxDuration then MaxDuration
    else t - u
  }
}
