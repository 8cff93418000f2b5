/** The part of Go's `time.Time` that the lifecycle Transition element looks at:
    the wall-clock fields of a timestamp in its location, and the location's name. */
module Timestamps {

  type Month = m: int | 1 <= m <= 12 witness 1
  type Day = d: int | 1 <= d <= 31 witness 1
  type Hour = h: int | 0 <= h < 24
  type Minute = m: int | 0 <= m < 60
  type Second = s: int | 0 <= s < 60
  type Nanosecond = n: int | 0 <= n < 1_000_000_000

  /** A timestamp as read through `Date()`, `Clock()`, `Nanosecond()` and
      `Location().String()`. Those accessors always return normalised
      fields, so two times in the same location are the same instant exactly
      when their fields agree. */
  datatype Time = Time(
    year: int, month: Month, day: Day,
    hour: Hour, minute: Minute, second: Second, nanosecond: Nanosecond,
    location: string)

  /** The name Go's `time.UTC` location reports. */
  const UTC: string := "UTC"

  /** The zero value of `time.Time`: January 1, year 1, 00:00:00.000000000 UTC. */
  const ZeroTime: Time := Time(1, 1, 1, 0, 0, 0, 0, UTC)

  /** `time.Time.IsZero`. */
  predicate IsZero(t: Time) {
    t == ZeroTime
  }

  /** Midnight exactly, in the location named "UTC". The zero time is one. */
  predicate IsMidnightUtc(t: Time)
    ensures IsZero(t) ==> IsMidnightUtc(t)
  {
    t.hour == 0 && t.minute == 0 && t.second == 0 && t.nanosecond == 0 && t.location == UTC
  }
}
