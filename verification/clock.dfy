/**
 * The server's wall clock, passed to every operation that reads `new Date()`
 * or `Date.now()` instead of being read by it.
 */
module Clock {

  /**
   * One reading of the clock: epoch `seconds`, the local calendar `day` it
   * falls on (what `Date.prototype.toDateString` identifies, numbered
   * consecutively), and the local `dayOfMonth` (`getDate`) and `hour`
   * (`getHours`).
   */
  datatype Instant = Instant(seconds: int, day: int, dayOfMonth: int, hour: int)

  /** `a.toDateString() === b.toDateString()`. */
  predicate SameCalendarDay(a: Instant, b: Instant)
  {
    a.day == b.day
  }
}
