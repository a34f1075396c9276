/** Wall-clock arithmetic on one local calendar day.

    An instant is an integer count of milliseconds. A day is identified by
    the instant of its local midnight (`dayStart`); setting the hours,
    minutes, seconds and milliseconds of a date on that day (`setHours`, or
    dayjs's `hour().minute().second().millisecond()`) lands on
    `dayStart + offset`. Days are taken to be exactly 24 hours long: time
    zones and daylight-saving transitions are not modelled. */
module Clock {

  const MsPerSecond: int := 1000
  const MsPerMinute: int := 60 * MsPerSecond
  const MsPerHour: int := 60 * MsPerMinute
  const MsPerDay: int := 24 * MsPerHour

  /** A wall-clock reading within one day, to the millisecond. */
  datatype ClockTime = ClockTime(hour: int, minute: int, second: int, milli: int) {
    predicate Valid() {
      && 0 <= hour < 24
      && 0 <= minute < 60
      && 0 <= second < 60
      && 0 <= milli < 1000
    }
  }

  /** Milliseconds from local midnight to the reading `c`. */
  function OffsetOf(c: ClockTime): (r: int)
    requires c.Valid()
    ensures 0 <= r < MsPerDay
    ensures r % MsPerSecond == c.milli
    ensures r / MsPerMinute == c.hour * 60 + c.minute
  {
    ((c.hour * 60 + c.minute) * 60 + c.second) * 1000 + c.milli
  }

  /** The reading shown by the clock `r` milliseconds after local midnight. */
  function ClockAt(r: int): (c: ClockTime)
    requires 0 <= r < MsPerDay
    ensures c.Valid()
  {
    ClockTime(r / MsPerHour, (r / MsPerMinute) % 60, (r / MsPerSecond) % 60, r % MsPerSecond)
  }

  /** Reading the clock at a reading's offset gives that reading back. */
  lemma ClockOffsetRoundTrip(c: ClockTime)
    requires c.Valid()
    ensures ClockAt(OffsetOf(c)) == c
  {
  }

  /** Distinct readings lie at distinct instants of a day, in clock order:
      the offset is strictly monotone in (hour, minute, second, milli). */
  lemma OffsetMonotone(a: ClockTime, b: ClockTime)
    requires a.Valid() && b.Valid()
    ensures OffsetOf(a) < OffsetOf(b) <==> ClockLess(a, b)
  {
  }

  /** Lexicographic order of clock readings. */
  predicate ClockLess(a: ClockTime, b: ClockTime) {
    || a.hour < b.hour
    || (a.hour == b.hour && a.minute < b.minute)
    || (a.hour == b.hour && a.minute == b.minute && a.second < b.second)
    || (a.hour == b.hour && a.minute == b.minute && a.second == b.second && a.milli < b.milli)
  }

  /** The instant the clock shows `c` on the day starting at `dayStart`. */
  function At(dayStart: int, c: ClockTime): (t: int)
    requires c.Valid()
    ensures dayStart <= t < dayStart + MsPerDay
  {
    dayStart + OffsetOf(c)
  }

  /** 00:00:00.000, the first millisecond of the day. */
  function StartOfDay(dayStart: int): int {
    At(dayStart, ClockTime(0, 0, 0, 0))
  }

  /** 23:59:59.999, the last millisecond of the day. */
  function EndOfDay(dayStart: int): int {
    At(dayStart, ClockTime(23, 59, 59, 999))
  }

  /** The inclusive window [00:00:00.000, 23:59:59.999] covers every
      millisecond of the 24-hour day and nothing of the days around it. */
  lemma DayWindowIsWholeDay(dayStart: int, t: int)
    ensures StartOfDay(dayStart) <= t <= EndOfDay(dayStart)
            <==> dayStart <= t < dayStart + MsPerDay
  {
  }
}
