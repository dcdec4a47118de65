/**
  Time on a fixed-offset local clock. A timestamp is a whole number of seconds
  since local midnight of 1970-01-01, so the date of a timestamp is its floor
  division by a day and the weekday follows from the day number.
 */
module Clock {

  const SecondsPerHour: int := 3600
  const SecondsPerDay: int := 86400

  /** A parsed `datetime.time`, in whole seconds after midnight. */
  type TimeOfDay = t: int | 0 <= t < SecondsPerDay

  /** One `[start, end]` pair of the weekly template, already parsed. */
  datatype Window = Window(opens: TimeOfDay, closes: TimeOfDay)

  /** The local date of a timestamp, as a day number (floor division). */
  function Day(t: int): int {
    t / SecondsPerDay
  }

  /** `date.weekday()`: Monday is 0. Day 0 (1970-01-01) was a Thursday. */
  function Weekday(day: int): (w: int)
    ensures 0 <= w < 7
  {
    (day + 3) % 7
  }

  /** `strftime("%a")` in the C locale, for a weekday number. */
  function DayName(w: int): string
    requires 0 <= w < 7
  {
    ["Mon", "Tue", "Wed", "Thu", "Fri", "Sat", "Sun"][w]
  }

  /** Local midnight of a day number. */
  function Midnight(day: int): int {
    day * SecondsPerDay
  }
}
