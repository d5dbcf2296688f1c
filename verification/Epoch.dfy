/** Numeric epoch values whose unit is guessed from their magnitude, idealised over the reals. */
module Epoch {

  const E3: real := 1000.0
  const E6: real := 1000000.0
  const E7: real := 10000000.0
  const E9: real := 1000000000.0
  const E10: real := 10000000000.0
  const E13: real := 10000000000000.0
  const E16: real := 10000000000000000.0
  const INT64_END: real := 9223372036854775808.0

  /** `llround`: to the nearest integer, halves away from zero. */
  function Round(x: real): int {
    if x >= 0.0 then (x + 0.5).Floor else -((0.5 - x).Floor)
  }

  /** The nearest integer; of two equally near ones, that farther from zero. */
  lemma RoundIsNearest(x: real)
    ensures var r := Round(x) as real; -0.5 <= r - x <= 0.5
    ensures Round(x) as real - x == -0.5 ==> x < 0.0
    ensures Round(x) as real - x == 0.5 ==> x > 0.0
  {
  }

  /** The nanosecond value before rounding. */
  function Nanos(value: real): real {
    if value >= E16 then value
    else if value >= E13 then value * E3
    else if value >= E10 then value * E6
    else value * E9
  }

  function EpochToNanos(value: real): int {
    Round(Nanos(value))
  }

  /** Instants whose four usual readings (s, ms, us, ns) are all taken for what they are. */
  predicate UnitsDetected(t: real) {
    && Nanos(t) == t * E9
    && Nanos(t * E3) == t * E9
    && Nanos(t * E6) == t * E9
    && Nanos(t * E9) == t * E9
  }

  /** The magnitude test works exactly for zero and from 1e7 seconds (April 1970) to 1e10 (year 2286). */
  lemma UnitsDetectedExactly(t: real)
    ensures UnitsDetected(t) <==> t == 0.0 || E7 <= t < E10
  {
  }

  /** In that range every reading rounds to one nanosecond count, and inside int64 when t*1e9 is. */
  lemma ReadingsAgree(t: real)
    requires E7 <= t < E10
    ensures EpochToNanos(t) == EpochToNanos(t * E3) == EpochToNanos(t * E6) == EpochToNanos(t * E9) == Round(t * E9)
    ensures t * E9 < INT64_END - 0.5 ==> EpochToNanos(t) < 0x8000_0000_0000_0000
  {
  }

  /** Below 1e7 seconds a milliseconds reading is taken for seconds: a thousand times too late. */
  lemma SmallMillisecondsMisread(t: real)
    requires 0.0 < t < E7
    ensures Nanos(t * E3) == E3 * Nanos(t)
    ensures Nanos(t * E3) > t * E9
  {
  }

  /** Before rounding, the scaled value is inside the int64 range exactly in these windows, one for each unit. */
  lemma ScaledFitsExactly(value: real)
    ensures -INT64_END <= Nanos(value) < INT64_END <==>
            || -9223372036.854775808 <= value < 9223372036.854775808
            || 10000000000.0 <= value < 9223372036854.775808
            || 10000000000000.0 <= value < 9223372036854775.808
            || 10000000000000000.0 <= value < 9223372036854775808.0
  {
  }

  /**
   * The values whose nanosecond count is an int64: seconds of either sign up to the year 2262, and in each
   * of the other units the instants up to that year. Between the end of one window and the threshold of
   * the next unit the count overflows.
   */
  predicate InWindow(value: real) {
    || -9223372036.8547758085 < value < 9223372036.8547758075
    || 10000000000.0 <= value < 9223372036854.7758075
    || 10000000000000.0 <= value < 9223372036854775.8075
    || 10000000000000000.0 <= value < 9223372036854775807.5
  }

  lemma FitsExactly(value: real)
    ensures -0x8000_0000_0000_0000 <= EpochToNanos(value) < 0x8000_0000_0000_0000 <==> InWindow(value)
  {
  }
}
