/** Conversions between clock units. */
module Durations {
  const NANOSECONDS := 1_000_000_000
  const NANOSECONDS_PER_MILLISECOND := 1_000_000

  /** duration_cast rounds towards zero. */
  function Truncated(a: int, b: int): int
    requires b > 0
  {
    if a >= 0 then a / b else 0 - (0 - a) / b
  }
}
