/**
  Instants are integer nanoseconds since the Unix epoch (the precision of Go's
  `time.Now()`); published start times are whole Unix seconds.
*/
module Clock {
  import opened Decimal

  const NanosPerSecond: int := 1_000_000_000
  const Minute: int := 60 * NanosPerSecond

  /** Seconds from January 1 of year 1 to the Unix epoch: Go's time values count seconds from year 1. */
  const UnixToInternal: int := 62135596800

  const TwoToThe64: int := 0x1_0000_0000_0000_0000

  /** `Time.Unix()`: the whole seconds of an instant, rounded toward the past. */
  function UnixSeconds(t: int): (s: int)
    ensures s * NanosPerSecond <= t < (s + 1) * NanosPerSecond
  {
    t / NanosPerSecond
  }

  /** The start time the coordinator publishes when it creates the service at `publishAt`. */
  function StartTimeFor(publishAt: int): (s: int)
    ensures (s - 60) * NanosPerSecond <= publishAt < (s - 59) * NanosPerSecond
  {
    UnixSeconds(publishAt + Minute)
  }

  /** Two's complement int64 arithmetic: the int64 congruent to `x` modulo 2^64. */
  function Wrap64(x: int): (r: int)
    ensures IsInt64(r)
    ensures (x - r) % TwoToThe64 == 0
    ensures IsInt64(x) ==> r == x
    ensures MaxInt64 < x <= MaxInt64 + TwoToThe64 ==> r == x - TwoToThe64
  {
    (x - MinInt64) % TwoToThe64 + MinInt64
  }

  /** The seconds field of `time.Unix(v, 0)`: `v` moved to year-1 based seconds in an int64. */
  function InternalSeconds(v: int): (s: int)
    requires IsInt64(v)
    ensures v <= MaxInt64 - UnixToInternal ==> s == v + UnixToInternal
    ensures v > MaxInt64 - UnixToInternal ==> s < 0
  {
    Wrap64(v + UnixToInternal)
  }

}
