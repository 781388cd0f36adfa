/**
 * Instants as the scheduling board uses them. A JavaScript `Date` is read
 * only through `getTime()` (milliseconds), `getHours()*60 + getMinutes()`
 * (the minute of the local day) and year/month/date equality (the local
 * calendar day). An instant is therefore an integer count of milliseconds
 * on the local time axis, whose days are all 24 hours long.
 */
module Clock {

  const MinuteMs: int := 60_000
  const HourMs: int := 3_600_000
  const DayMs: int := 86_400_000

  /** The local calendar day an instant falls on (floor division). */
  function Day(t: int): int {
    t / DayMs
  }

  /** `getHours() * 60 + getMinutes()`: the whole minutes elapsed in the instant's day. */
  function MinuteOfDay(t: int): (m: int)
    ensures 0 <= m < 1440
    ensures Day(t) * DayMs + m * MinuteMs <= t < Day(t) * DayMs + (m + 1) * MinuteMs
  {
    (t % DayMs) / MinuteMs
  }

  /** `isSameDay(a, b)`: year, month and date all agree. */
  predicate IsSameDay(a: int, b: int)
    ensures IsSameDay(a, b) ==> -DayMs < a - b < DayMs
  {
    Day(a) == Day(b)
  }

  /**
   * `d.setHours(hour, minute, 0, 0)` on a copy of `d`: the start of `d`'s day
   * plus the given hours and minutes, seconds and milliseconds cleared.
   * JavaScript rolls out-of-range hours into the neighbouring days, which the
   * sum does as well.
   */
  function AtTime(d: int, hour: int, minute: int): (t: int)
    ensures t % MinuteMs == 0
    ensures 0 <= hour * 60 + minute < 1440 ==>
              IsSameDay(t, d) && MinuteOfDay(t) == hour * 60 + minute
  {
    var m := hour * 60 + minute;
    var t := Day(d) * DayMs + m * MinuteMs;
    assert t == (Day(d) * 1440 + m) * MinuteMs;
    assert 0 <= m < 1440 ==> IsSameDay(t, d) && MinuteOfDay(t) == m by {
      if 0 <= m < 1440 {
        DayOfMinutes(Day(d), m);
      }
    }
    t
  }

  /** The instant `m` minutes into day `day` lies on that day, at minute `m`. */
  lemma DayOfMinutes(day: int, m: int)
    requires 0 <= m < 1440
    ensures Day(day * DayMs + m * MinuteMs) == day
    ensures MinuteOfDay(day * DayMs + m * MinuteMs) == m
  {
    var t := day * DayMs + m * MinuteMs;
    assert 0 <= m * MinuteMs < DayMs;
    assert t / DayMs == day;
    assert t % DayMs == m * MinuteMs;
    assert (m * MinuteMs) / MinuteMs == m;
  }
}
