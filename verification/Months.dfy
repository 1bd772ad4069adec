// Monthly series on the calendar, from any day of the month.
module Months {
  import opened Calendar
  import opened Recurrence
  import opened Series

  // Months since the year 0, by which later months come later.
  function MonthIndex(t: int): int {
    12 * FromTimestamp(t).year + FromTimestamp(t).month
  }

  // The date d - L of the month after next, when the next has L days only.
  function RunOver(c: Civil): Civil
    requires Valid(c)
  {
    var next := MonthAfter(c);
    MonthAfter(next).(day := c.day - MonthLength(next.year, next.month))
  }

  // A monthly step goes to the same day of the next month, or, if that is too
  // short, runs over into the first three days of the month behind it.
  lemma MonthlyStep(t: int)
    ensures var c, u := FromTimestamp(t), t + DAY * StepDays(3, t);
            var next := MonthAfter(c);
            if c.day <= MonthLength(next.year, next.month) then FromTimestamp(u) == next
            else FromTimestamp(u) == RunOver(c) && FromTimestamp(u).day <= 3
  {
    hide FromTimestamp, IsLeap, DaysBeforeYear, DaysBeforeMonth, ToTimestamp;
    var c := FromTimestamp(t);
    var next := MonthAfter(c);
    TimestampRoundTrip(t);
    NextMonthStamp(c);
    if c.day <= MonthLength(next.year, next.month) {
      CivilRoundTrip(next);
    } else {
      NextMonthStamp(next);
      var d := MonthAfter(next);
      DaysAreLinear(d, -MonthLength(next.year, next.month));
      CivilRoundTrip(RunOver(c));
    }
  }

  lemma NextMonthStamp(c: Civil)
    requires 1 <= c.month <= 12
    ensures ToTimestamp(MonthAfter(c)) == ToTimestamp(c) + DAY * MonthLength(c.year, c.month)
  {
    hide ToTimestamp, IsLeap;
    MonthStep(c);
    if c.month == 12 {
      MonthsCarry(c.(month := 1), 1);
    }
  }

  // Up to day 28 n steps are n months.
  lemma {:induction false} EarlyMonths(x: Span, n: nat)
    requires FromTimestamp(x.start).day <= 28
    ensures MonthIndex(Nth(3, x, n).start) == MonthIndex(x.start) + n
    ensures FromTimestamp(Nth(3, x, n).start).day == FromTimestamp(x.start).day
    decreases n
  {
    hide FromTimestamp, StepDays;
    if n > 0 {
      SameDayNextMonth(x.start);
      EarlyMonths(Next(3, x), n - 1);
    }
  }

  // From a later day they are n months, or one more once a month was too short.
  lemma {:induction false} MonthsPassed(x: Span, n: nat)
    ensures var i := MonthIndex(Nth(3, x, n).start) - MonthIndex(x.start); i == n || i == n + 1
    decreases n
  {
    hide FromTimestamp, StepDays, IsLeap;
    if n > 0 {
      var y := Next(3, x);
      MonthlyStep(x.start);
      if FromTimestamp(y.start).day <= 3 {
        EarlyMonths(y, n - 1);
      } else {
        MonthsPassed(y, n - 1);
      }
    }
  }

  lemma DayOfDate(t: int)
    ensures var c := FromTimestamp(t);
            LocalDay(t) == DaysBeforeYear(c.year) + DaysBeforeMonth(c.year, c.month) + c.day - 1
  {
    hide DaysBeforeYear, DaysBeforeMonth, LocalDay, SecondOfDay;
  }

  lemma LaterMonthOfYear(y: int, m: int, n: int)
    requires 1 <= m < n <= 12
    ensures DaysBeforeMonth(y, m) + MonthLength(y, m) <= DaysBeforeMonth(y, n)
  {
    hide IsLeap;
  }

  lemma LaterMonth(t: int, u: int)
    requires MonthIndex(t) < MonthIndex(u)
    ensures LocalDay(t) < LocalDay(u)
  {
    hide FromTimestamp, LocalDay, DaysBeforeYear, IsLeap;
    var c, d := FromTimestamp(t), FromTimestamp(u);
    DayOfDate(t);
    DayOfDate(u);
    DayWithinYear(c.year, c.month, c.day);
    DayWithinYear(d.year, d.month, d.day);
    hide DaysBeforeMonth, MonthLength, YearLength;
    if c.year < d.year {
      LaterYear(c.year, d.year);
    } else {
      LaterMonthOfYear(c.year, c.month, d.month);
    }
  }
}
