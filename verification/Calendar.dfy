/** UTC calendar days, which the daily resets compare. */
module Calendar {
  const DAY_MS := 86400000

  /** The number of the day that a time in milliseconds falls on. */
  function Day(now: int): (d: int)
    ensures d * DAY_MS <= now < (d + 1) * DAY_MS
  {
    now / DAY_MS
  }

  lemma DayMonotone(a: int, b: int)
    requires a <= b
    ensures Day(a) <= Day(b)
  {
  }
}
