/** The clock readings the dashboard depends on, passed in as values. */
module Calendar {

  /** What `new Date().getDate()` returns: the day of the month, 1 to 31. */
  type DayOfMonth = d: int | 1 <= d <= 31 witness 1
}
