/** Clocks count nanoseconds; stored timestamps are whole seconds (RFC 3339). */
module Clock {
  const SECOND := 1_000_000_000
}
