/** The command-line entry point of the project (src/index.ts): the dashboard record and
    the quote of the day. The clock is passed in as values. */
module Index {
  import opened Calendar

  const Version := "2.0.0"
  const Status := "\U{1F7E2} Online"

  /** One day in milliseconds. */
  const DayMillis := 86400000

  datatype DashboardData = DashboardData(timestamp: string, uptime: int, version: string, status: string)

  /** `getUptime()` = `Date.now() - (Date.now() - 86400000)`. The left operand is read
      first (`before`), the right one second (`after`), so the result is one day minus the
      milliseconds that passed between the two reads. */
  function GetUptime(before: int, after: int): (uptime: int)
    ensures uptime + (after - before) == DayMillis
    ensures before <= after ==> uptime <= DayMillis
    ensures uptime == DayMillis <==> before == after
    ensures after - before < DayMillis ==> uptime > 0
  {
    before - (after - DayMillis)
  }

  /** `getDashboardData()`, with the formatted time and the two clock reads of
      `getUptime` passed in. */
  function GetDashboardData(timestamp: string, before: int, after: int): (data: DashboardData)
    ensures data.version == "2.0.0" && data.status == "\U{1F7E2} Online"
    ensures data.timestamp == timestamp
    ensures data.uptime == GetUptime(before, after)
  {
    DashboardData(timestamp, GetUptime(before, after), Version, Status)
  }

  /** The table of `generateQuote`. */
  const Quotes: seq<string> := [
    "The best time to plant a tree was 20 years ago. The second best time is now.",
    "Code is like humor. When you have to explain it, it's bad.",
    "First, solve the problem. Then, write the code.",
    "The only way to do great work is to love what you do.",
    "Innovation distinguishes between a leader and a follower."
  ]

  /** `generateQuote()`: the quote at `day % 5`. */
  function GenerateQuote(day: DayOfMonth): (quote: string)
    ensures quote == Quotes[day % |Quotes|]
    ensures quote in Quotes
    ensures |quote| > 10
  {
    Quotes[day % |Quotes|]
  }

  /** Days that agree modulo 5 get the same quote; in particular the same day does. */
  lemma GenerateQuotePeriodic(day1: DayOfMonth, day2: DayOfMonth)
    requires day1 % 5 == day2 % 5
    ensures GenerateQuote(day1) == GenerateQuote(day2)
  {
  }

  /** Every quote of the table is the quote of some day of every month. */
  lemma EveryQuoteOnSomeDay(i: nat)
    requires i < |Quotes|
    ensures exists day: DayOfMonth :: GenerateQuote(day) == Quotes[i]
  {
    var day: DayOfMonth := if i == 0 then 5 else i;
    assert GenerateQuote(day) == Quotes[i];
  }
}
