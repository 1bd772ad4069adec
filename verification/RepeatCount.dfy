// The repeat count that the add command works out from an end date
// (src/tvcmd.c).
module RepeatCount {
  import opened Calendar
  import opened Recurrence
  import opened Series
  import opened Months
  import opened Schedule
  import opened Scheduler

  // n dates of the series from x start by the limit, and no more.
  ghost predicate CountsTo(rtype: int, x: Span, limit: int, n: nat) {
    (forall k: nat :: k < n ==> Nth(rtype, x, k).start <= limit) && limit < Nth(rtype, x, n).start
  }

  // The loop of _cmd_add: the repeats of a series from a start date's midnight
  // up to the end date's last second.
  method CountRepeats(rtype: int, from: int, limit: int, now: int) returns (ok: bool, n: nat)
    requires 1 <= rtype <= 9 && 0 <= from
    ensures ok == (from <= limit)
    ensures ok ==> CountsTo(rtype, Adjusted(rtype, Span(from, from), now), limit, n)
  {
    hide Nth, Next, FromTimestamp, Adjusted;
    n := 0;
    if from > limit {
      return false, n;
    }
    var known, x := AdjustInitialRepeatDate(rtype, Span(from, from), now);
    AdjustedIsLater(rtype, Span(from, from), now);
    var cs, ce := FromTimestamp(x.start), FromTimestamp(x.end);
    ghost var first := x;
    NthNone(rtype, first);
    while x.start <= limit
      invariant x == Nth(rtype, first, n) && 0 <= x.start && 0 <= x.end
      invariant cs == FromTimestamp(x.start) && ce == FromTimestamp(x.end)
      invariant forall k: nat :: k < n ==> Nth(rtype, first, k).start <= limit
      decreases limit - x.start
    {
      NthOneMore(rtype, first, n);
      NextIsLater(rtype, x);
      LaterIsDated(rtype, x);
      n := n + 1;
      var ended;
      ended, x, cs, ce := NextDates(rtype, x, cs, ce);
    }
    ok := true;
  }

  lemma NextIsLater(rtype: int, x: Span)
    requires 1 <= rtype <= 9
    ensures x.start < Next(rtype, x).start
  {
    hide FromTimestamp, MonthLength, DaysToAdmissible, Weekday;
  }

  // Series that start on the same day have all their dates on the same days.
  lemma {:induction false} SameDays(rtype: int, x: Span, y: Span, n: nat)
    requires LocalDay(x.start) == LocalDay(y.start)
    ensures LocalDay(Nth(rtype, x, n).start) == LocalDay(Nth(rtype, y, n).start)
    decreases n
  {
    hide StepDays;
    if n > 0 {
      StepByDay(rtype, x.start, y.start);
      DaysApart(x.start, StepDays(rtype, x.start));
      DaysApart(y.start, StepDays(rtype, y.start));
      SameDays(rtype, Next(rtype, x), Next(rtype, y), n - 1);
    }
  }

  lemma DaysApart(t: int, k: int)
    ensures LocalDay(t + DAY * k) == LocalDay(t) + k
  {
    SplitDay(t + DAY * k, LocalDay(t) + k, SecondOfDay(t));
  }

  // The last second of a day divides the times by their days.
  lemma ByTheDay(t: int, limit: int)
    requires SecondOfDay(limit) == DAY - 1
    ensures t <= limit <==> LocalDay(t) <= LocalDay(limit)
  {
    hide Carry;
  }

  lemma AdjustedDay(rtype: int, x: Span, y: Span, now: int)
    requires LocalDay(x.start) == LocalDay(y.start) && now <= x.start && now <= y.start
    ensures LocalDay(Adjusted(rtype, x, now).start) == LocalDay(Adjusted(rtype, y, now).start)
  {
    hide DaysToAdmissible, LocalDay;
    var k := DaysToAdmissible(rtype, Weekday(x.start), 0);
    DaysApart(x.start, k);
    DaysApart(y.start, k);
  }

  lemma CountByDays(rtype: int, x: Span, y: Span, limit: int, n: nat)
    requires LocalDay(x.start) == LocalDay(y.start) && SecondOfDay(limit) == DAY - 1
    ensures CountsTo(rtype, x, limit, n) == CountsTo(rtype, y, limit, n)
  {
    hide Nth, LocalDay;
    forall k: nat
      ensures Nth(rtype, x, k).start <= limit <==> Nth(rtype, y, k).start <= limit
    {
      SameDays(rtype, x, y, k);
      ByTheDay(Nth(rtype, x, k).start, limit);
      ByTheDay(Nth(rtype, y, k).start, limit);
    }
  }

  // For a start date after today the count from midnight is exact, whatever
  // the time of day: the last repeat is on or before the end date and one more
  // would be after it.  The count is zero exactly when the first date that the
  // series can have is after the end date.
  lemma EndDateIsExact(rtype: int, x: Span, from: int, limit: int, now: int, n: nat)
    requires 1 <= rtype <= 9 && LocalDay(x.start) == LocalDay(from) && SecondOfDay(from) == 0
    requires now <= from && SecondOfDay(limit) == DAY - 1
    requires CountsTo(rtype, Adjusted(rtype, Span(from, from), now), limit, n)
    ensures CountsTo(rtype, Adjusted(rtype, x, now), limit, n)
    ensures n == 0 <==> LocalDay(limit) < LocalDay(Adjusted(rtype, x, now).start)
  {
    hide Adjusted, Nth;
    assert from <= x.start by { FromMidnight(x.start, from); }
    hide LocalDay;
    AdjustedDay(rtype, x, Span(from, from), now);
    CountByDays(rtype, Adjusted(rtype, x, now), Adjusted(rtype, Span(from, from), now), limit, n);
    NthNone(rtype, Adjusted(rtype, x, now));
    ByTheDay(Adjusted(rtype, x, now).start, limit);
  }

  lemma FromMidnight(t: int, from: int)
    requires LocalDay(t) == LocalDay(from) && SecondOfDay(from) == 0
    ensures from <= t < from + DAY
  {
    hide Carry;
  }

  lemma CountedFromTomorrow(rtype: int, x: Span, from: int, now: int)
    requires (rtype == 1 || ByWeekday(rtype)) && LocalDay(x.start) == LocalDay(from) && from < now
    ensures LocalDay(Adjusted(rtype, Span(from, from), now).start) == LocalDay(Next(rtype, x).start)
  {
    hide LocalDay, Weekday, WeekdayIn, MonthLength, FromTimestamp;
    var k := StepDays(rtype, from);
    StepByDay(rtype, x.start, from);
    DaysApart(x.start, k);
    DaysApart(from, k);
    if ByWeekday(rtype) {
      WeekdayInDays(from, 1);
      FromNextDay(rtype, Weekday(from));
    }
  }

  // ---------------------------------------------------------------------
  // When the counted dates and the real ones are a day or a date apart

  // A date more in front is one more by the limit ...
  lemma OneBefore(rtype: int, z: Span, limit: int, n: nat)
    requires CountsTo(rtype, Next(rtype, z), limit, n) && z.start <= limit
    ensures CountsTo(rtype, z, limit, n + 1)
  {
    hide Next;
    forall k: nat | k < n + 1
      ensures Nth(rtype, z, k).start <= limit
    {
      assert k > 0 ==> Nth(rtype, z, k) == Nth(rtype, Next(rtype, z), k - 1);
    }
    assert Nth(rtype, z, n + 1) == Nth(rtype, Next(rtype, z), n);
  }

  // ... and one in front less is one less.
  lemma OneBehind(rtype: int, z: Span, limit: int, n: nat)
    requires CountsTo(rtype, z, limit, n) && 1 <= n
    ensures CountsTo(rtype, Next(rtype, z), limit, n - 1)
  {
    hide Next;
    forall k: nat | k < n - 1
      ensures Nth(rtype, Next(rtype, z), k).start <= limit
    {
      assert Nth(rtype, z, k + 1) == Nth(rtype, Next(rtype, z), k);
    }
    assert Nth(rtype, z, n) == Nth(rtype, Next(rtype, z), n - 1);
  }

  // Is the end date on the weekday, or the day of the month, of the series?
  predicate OnDay(rtype: int, x: Span, limit: int) {
    if rtype == 2 then Rest(LocalDay(limit) - LocalDay(x.start), 7) == 0
    else FromTimestamp(limit).day == FromTimestamp(x.start).day
  }

  lemma SameDate(t: int, u: int)
    requires LocalDay(t) == LocalDay(u)
    ensures var c, d := FromTimestamp(t), FromTimestamp(u); (c.year, c.month, c.day) == (d.year, d.month, d.day)
  {
    hide LocalDay, YearFrom, MonthFrom, DaysBeforeYear, DaysBeforeMonth, Carry, SecondOfDay;
  }

  // Less than a month on from a date up to day 28, the day of the month is the
  // same on that very day only.
  lemma DayComesBack(t: int, j: nat)
    requires FromTimestamp(t).day <= 28 && j < StepDays(3, t)
    ensures FromTimestamp(t + DAY * j).day == FromTimestamp(t).day <==> j == 0
  {
    hide FromTimestamp, ToTimestamp;
    var c := FromTimestamp(t);
    TimestampRoundTrip(t);
    DaysAreLinear(c, j);
    if c.day + j <= MonthLength(c.year, c.month) {
      CivilRoundTrip(c.(day := c.day + j));
    } else {
      hide IsLeap, MonthLength;
      var d := MonthAfter(c);
      var k := j - MonthLength(c.year, c.month);
      SameDayNextMonth(t);
      TimestampRoundTrip(t + DAY * StepDays(3, t));
      DaysAreLinear(d, k);
      EarlyDayIsValid(d, c.day + k);
      CivilRoundTrip(d.(day := c.day + k));
    }
  }

  lemma EarlyDayIsValid(d: Civil, day: int)
    requires Valid(d) && 1 <= day <= 28
    ensures Valid(d.(day := day))
  {
    hide IsLeap;
  }

  // The series of types 2 and 3, the latter up to day 28: where its dates are.
  lemma {:induction false} DatesOfSeries(rtype: int, z: Span, n: nat)
    requires rtype == 2 || (rtype == 3 && FromTimestamp(z.start).day <= 28)
    ensures rtype == 2 ==> LocalDay(Nth(rtype, z, n).start) == LocalDay(z.start) + 7 * n
    ensures rtype == 3 ==> FromTimestamp(Nth(rtype, z, n).start).day == FromTimestamp(z.start).day
    ensures LocalDay(Nth(rtype, z, n).start) < LocalDay(Nth(rtype, z, n + 1).start)
    decreases n
  {
    hide FromTimestamp, LocalDay, MonthLength;
    DaysApart(z.start, StepDays(rtype, z.start));
    if rtype == 3 {
      SameDayNextMonth(z.start);
    }
    if n > 0 {
      DatesOfSeries(rtype, Next(rtype, z), n - 1);
    } else {
      NthNone(rtype, Next(rtype, z));
    }
  }

  // Two such series that begin a day apart stay a day apart.
  lemma {:induction false} DayAhead(rtype: int, y: Span, z: Span, n: nat)
    requires rtype == 2 || (rtype == 3 && FromTimestamp(z.start).day <= 27)
    requires LocalDay(y.start) == LocalDay(z.start) + 1
    ensures LocalDay(Nth(rtype, y, n).start) == LocalDay(Nth(rtype, z, n).start) + 1
    decreases n
  {
    hide FromTimestamp, LocalDay, MonthLength;
    if n > 0 {
      DaysApart(z.start, 1);
      SameDate(y.start, z.start + DAY);
      DayLater(z.start);
      if rtype == 3 {
        StaysInMonth(z.start);
        SameDayNextMonth(z.start);
      }
      DaysApart(y.start, StepDays(rtype, y.start));
      DaysApart(z.start, StepDays(rtype, z.start));
      DayAhead(rtype, Next(rtype, y), Next(rtype, z), n - 1);
    }
  }

  lemma StaysInMonth(t: int)
    requires FromTimestamp(t).day <= 27
    ensures var c := FromTimestamp(t); NextDate(c) == c.(day := c.day + 1)
  {
    hide FromTimestamp, IsLeap;
  }

  // Between two dates of the series, OnDay holds on the first only.
  lemma OnDayBetween(rtype: int, z: Span, limit: int, m: nat)
    requires rtype == 2 || (rtype == 3 && FromTimestamp(z.start).day <= 28)
    requires LocalDay(Nth(rtype, z, m).start) <= LocalDay(limit) < LocalDay(Nth(rtype, z, m + 1).start)
    ensures OnDay(rtype, z, limit) <==> LocalDay(limit) == LocalDay(Nth(rtype, z, m).start)
  {
    hide FromTimestamp, LocalDay, MonthLength, Nth;
    DatesOfSeries(rtype, z, m);
    DatesOfSeries(rtype, z, m + 1);
    if rtype == 3 {
      var u := Nth(rtype, z, m).start;
      var j := LocalDay(limit) - LocalDay(u);
      NthOneMore(rtype, z, m);
      DaysApart(u, StepDays(3, u));
      DayComesBack(u, j);
      DaysApart(u, j);
      SameDate(limit, u + DAY * j);
    }
  }

  // The series a day later has one date less by the limit when the end date is
  // one of the dates, and as many otherwise.
  lemma DayLaterCounts(rtype: int, y: Span, z: Span, limit: int, n: nat)
    requires rtype == 2 || (rtype == 3 && FromTimestamp(z.start).day <= 27)
    requires LocalDay(y.start) == LocalDay(z.start) + 1 && SecondOfDay(limit) == DAY - 1 && z.start <= limit
    requires CountsTo(rtype, y, limit, n)
    ensures CountsTo(rtype, z, limit, if OnDay(rtype, z, limit) then n + 1 else n)
  {
    hide FromTimestamp, LocalDay, Nth, OnDay;
    var L := LocalDay(limit);
    forall k: nat
      ensures Nth(rtype, z, k).start <= limit <==> LocalDay(Nth(rtype, z, k).start) <= L
      ensures Nth(rtype, y, k).start <= limit <==> LocalDay(Nth(rtype, z, k).start) + 1 <= L
    {
      ByTheDay(Nth(rtype, z, k).start, limit);
      ByTheDay(Nth(rtype, y, k).start, limit);
      DayAhead(rtype, y, z, k);
    }
    NthNone(rtype, z);
    DatesOfSeries(rtype, z, n);
    if LocalDay(Nth(rtype, z, n).start) == L {
      OnDayBetween(rtype, z, limit, n);
    } else {
      assert n > 0 && Nth(rtype, y, n - 1).start <= limit;
      OnDayBetween(rtype, z, limit, n - 1);
    }
  }

  lemma CountIsUnique(rtype: int, x: Span, limit: int, m: nat, n: nat)
    requires CountsTo(rtype, x, limit, m) && CountsTo(rtype, x, limit, n)
    ensures m == n
  {
    hide Nth;
  }

  predicate TogetherBy(rtype: int, y: Span, z: Span, limit: int, k: nat) {
    Nth(rtype, y, k).start <= limit <==> Nth(rtype, z, k).start <= limit
  }

  // Of any two series of a type, the count of one is that of the other exactly
  // when the limit lies between no two dates of the same number.
  lemma CountsAgree(rtype: int, y: Span, z: Span, limit: int, n: nat)
    requires 1 <= rtype <= 9 && CountsTo(rtype, y, limit, n)
    ensures CountsTo(rtype, z, limit, n)
       <==> forall k: nat :: TogetherBy(rtype, y, z, limit, k)
  {
    hide Nth;
    if CountsTo(rtype, z, limit, n) {
      forall k: nat
        ensures TogetherBy(rtype, y, z, limit, k)
      {
        if n <= k {
          NthAdd(rtype, y, n, k - n);
          NthAdd(rtype, z, n, k - n);
          NthLater(rtype, Nth(rtype, y, n), k - n);
          NthLater(rtype, Nth(rtype, z, n), k - n);
        }
      }
    } else if forall k: nat :: TogetherBy(rtype, y, z, limit, k) {
      forall k: nat
        ensures Nth(rtype, y, k).start <= limit <==> Nth(rtype, z, k).start <= limit
      {
        assert TogetherBy(rtype, y, z, limit, k);
      }
      assert false;
    }
  }

  // Of two monthly series that start in the same month or the one behind, only
  // the dates around the month of the limit can be on two sides of it.
  predicate TogetherAround(y: Span, z: Span, limit: int) {
    forall k: nat :: -2 <= k - (MonthIndex(limit) - MonthIndex(z.start)) <= 0 ==> TogetherBy(3, y, z, limit, k)
  }

  lemma MonthlyTogether(y: Span, z: Span, limit: int)
    requires MonthIndex(z.start) <= MonthIndex(y.start) <= MonthIndex(z.start) + 1
    ensures (forall k: nat :: TogetherBy(3, y, z, limit, k)) <==> TogetherAround(y, z, limit)
  {
    hide Nth, MonthIndex;
    if TogetherAround(y, z, limit) {
      forall k: nat
        ensures TogetherBy(3, y, z, limit, k)
      {
        MonthsPassed(y, k);
        MonthsPassed(z, k);
        ByMonth(Nth(3, y, k).start, limit);
        ByMonth(Nth(3, z, k).start, limit);
      }
    }
  }

  lemma ByMonth(t: int, limit: int)
    ensures MonthIndex(t) < MonthIndex(limit) ==> t <= limit
    ensures MonthIndex(limit) < MonthIndex(t) ==> limit < t
  {
    hide MonthIndex, LocalDay;
    if MonthIndex(t) < MonthIndex(limit) {
      LaterMonth(t, limit);
      LaterDay(t, limit);
    } else if MonthIndex(limit) < MonthIndex(t) {
      LaterMonth(limit, t);
      LaterDay(limit, t);
    }
  }

  lemma MonthOfNextDay(t: int, u: int)
    requires LocalDay(u) == LocalDay(t) + 1
    ensures MonthIndex(t) <= MonthIndex(u) <= MonthIndex(t) + 1
  {
    hide FromTimestamp, LocalDay, IsLeap;
    DaysApart(t, 1);
    SameDate(u, t + DAY);
    DayLater(t);
  }

  // A series has some count: the dates get later without end.
  lemma {:induction false} SomeCount(rtype: int, x: Span, limit: int) returns (n: nat)
    requires 1 <= rtype <= 9
    ensures CountsTo(rtype, x, limit, n)
    decreases limit - x.start
  {
    hide Next, Nth;
    NthNone(rtype, x);
    if limit < x.start {
      n := 0;
    } else {
      NextIsLater(rtype, x);
      n := SomeCount(rtype, Next(rtype, x), limit);
      OneBefore(rtype, x, limit, n);
      n := n + 1;
    }
  }

  // Today is a date of the series that a count beginning with tomorrow misses,
  // or that a series beginning with tomorrow does not have.
  predicate TodayTells(rtype: int, today: Span, limit: int) {
    if rtype == 1 || ByWeekday(rtype) then Admissible(rtype, Weekday(today.start)) else OnDay(rtype, today, limit)
  }

  // For a start date of today, still ahead, midnight is past, so the count
  // begins with tomorrow.  It is then one short exactly when today is one of
  // the days of a daily or weekday series, or the end date is one of the days
  // of a weekly or monthly one.  For a monthly series from the end of a month,
  // the dates of two months before the end date on tell.
  lemma TodayIsMissed(rtype: int, x: Span, from: int, limit: int, now: int, n: nat)
    requires 1 <= rtype <= 9
    requires LocalDay(x.start) == LocalDay(from) && SecondOfDay(from) == 0
    requires from < now <= x.start && from <= limit && SecondOfDay(limit) == DAY - 1
    requires CountsTo(rtype, Adjusted(rtype, Span(from, from), now), limit, n)
    ensures (rtype == 3 ==> FromTimestamp(x.start).day <= 27) ==>
              && CountsTo(rtype, Adjusted(rtype, x, now), limit, if TodayTells(rtype, x, limit) then n + 1 else n)
              && (CountsTo(rtype, Adjusted(rtype, x, now), limit, n) <==> !TodayTells(rtype, x, limit))
    ensures rtype == 3 ==>
              (CountsTo(rtype, Adjusted(rtype, x, now), limit, n)
               <==> TogetherAround(Span(from + DAY, from + DAY), x, limit))
  {
    hide Adjusted, Nth, Weekday, LocalDay, Next, OnDay, FromTimestamp, CountsTo, TogetherAround, MonthIndex;
    if rtype == 3 ==> FromTimestamp(x.start).day <= 27 {
      TodayIsMissedEarly(rtype, x, from, limit, now, n);
    }
    if rtype == 3 {
      var y := Span(from + DAY, from + DAY);
      PlainAdjusted(rtype, Span(from, from), now);
      PlainAdjusted(rtype, x, now);
      DaysApart(from, 1);
      MonthOfNextDay(x.start, y.start);
      CountsAgree(rtype, y, x, limit, n);
      MonthlyTogether(y, x, limit);
    }
  }

  lemma TodayIsMissedEarly(rtype: int, x: Span, from: int, limit: int, now: int, n: nat)
    requires 1 <= rtype <= 9 && (rtype == 3 ==> FromTimestamp(x.start).day <= 27)
    requires LocalDay(x.start) == LocalDay(from) && SecondOfDay(from) == 0
    requires from < now <= x.start && from <= limit && SecondOfDay(limit) == DAY - 1
    requires CountsTo(rtype, Adjusted(rtype, Span(from, from), now), limit, n)
    ensures CountsTo(rtype, Adjusted(rtype, x, now), limit, if TodayTells(rtype, x, limit) then n + 1 else n)
    ensures CountsTo(rtype, Adjusted(rtype, x, now), limit, n) <==> !TodayTells(rtype, x, limit)
  {
    hide Adjusted, Nth, Weekday, LocalDay, Next, OnDay, FromTimestamp, CountsTo;
    var y, z := Adjusted(rtype, Span(from, from), now), Adjusted(rtype, x, now);
    ByTheDay(x.start, limit);
    ByTheDay(from, limit);
    if rtype == 2 || rtype == 3 {
      PlainAdjusted(rtype, Span(from, from), now);
      PlainAdjusted(rtype, x, now);
      DaysApart(from, 1);
      DayLaterCounts(rtype, y, z, limit, n);
    } else {
      CountedFromTomorrow(rtype, x, from, now);
      CountByDays(rtype, Next(rtype, x), y, limit, n);
      if Admissible(rtype, Weekday(x.start)) {
        AdjustedIsIdentity(rtype, x, now);
        OneBefore(rtype, x, limit, n);
      } else {
        AdjustedIsStep(rtype, x, now);
      }
    }
    if TodayTells(rtype, x, limit) && CountsTo(rtype, z, limit, n) {
      CountIsUnique(rtype, z, limit, n, n + 1);
    }
  }

  lemma PlainAdjusted(rtype: int, x: Span, now: int)
    requires 1 <= rtype <= 3
    ensures Adjusted(rtype, x, now) == if x.start < now then Shift(x, 1) else x
  {
  }

  // ---------------------------------------------------------------------
  // The count from the present time, when a start date is not given, or is given
  // without an end time

  // A start time still ahead today is counted right.
  lemma CountFromNow(rtype: int, x: Span, limit: int, now: int, n: nat)
    requires 1 <= rtype <= 9 && LocalDay(x.start) == LocalDay(now) && now <= x.start
    requires SecondOfDay(limit) == DAY - 1 && CountsTo(rtype, Adjusted(rtype, Span(now, now), now), limit, n)
    ensures CountsTo(rtype, Adjusted(rtype, x, now), limit, n)
  {
    hide Adjusted, Nth, LocalDay;
    AdjustedDay(rtype, x, Span(now, now), now);
    CountByDays(rtype, Adjusted(rtype, x, now), Adjusted(rtype, Span(now, now), now), limit, n);
  }

  // A start time gone by today is moved to tomorrow, but the count has begun
  // with today: it is then one too many, and the last date past the end date,
  // in the very cases in which the other count is one short.
  lemma MovedToTomorrow(rtype: int, x: Span, limit: int, now: int, n: nat)
    requires 1 <= rtype <= 9
    requires LocalDay(x.start) == LocalDay(now) && x.start < now <= limit && SecondOfDay(limit) == DAY - 1
    requires CountsTo(rtype, Adjusted(rtype, Span(now, now), now), limit, n)
    ensures var y := Adjusted(rtype, Shift(x, 1), now);
            && ((rtype == 3 ==> FromTimestamp(now).day <= 27) ==>
                 && (1 <= n || !TodayTells(rtype, Span(now, now), limit))
                 && CountsTo(rtype, y, limit, if TodayTells(rtype, Span(now, now), limit) then n - 1 else n)
                 && (CountsTo(rtype, y, limit, n) <==> !TodayTells(rtype, Span(now, now), limit)))
            && (rtype == 3 ==> (CountsTo(rtype, y, limit, n) <==> TogetherAround(Shift(x, 1), Span(now, now), limit)))
  {
    hide Adjusted, Nth, Weekday, LocalDay, Next, OnDay, FromTimestamp, CountsTo, TogetherAround, MonthIndex;
    if rtype == 3 ==> FromTimestamp(now).day <= 27 {
      MovedToTomorrowEarly(rtype, x, limit, now, n);
    }
    if rtype == 3 {
      var y, z := Shift(x, 1), Span(now, now);
      DaysApart(x.start, 1);
      assert now <= y.start by { LaterDay(now, y.start); }
      PlainAdjusted(rtype, z, now);
      PlainAdjusted(rtype, y, now);
      MonthOfNextDay(now, y.start);
      CountsAgree(rtype, z, y, limit, n);
      MonthlyTogether(y, z, limit);
      assert forall k: nat :: TogetherBy(rtype, z, y, limit, k) <==> TogetherBy(rtype, y, z, limit, k);
    }
  }

  lemma MovedToTomorrowEarly(rtype: int, x: Span, limit: int, now: int, n: nat)
    requires 1 <= rtype <= 9 && (rtype == 3 ==> FromTimestamp(now).day <= 27)
    requires LocalDay(x.start) == LocalDay(now) && x.start < now <= limit && SecondOfDay(limit) == DAY - 1
    requires CountsTo(rtype, Adjusted(rtype, Span(now, now), now), limit, n)
    ensures 1 <= n || !TodayTells(rtype, Span(now, now), limit)
    ensures var y := Adjusted(rtype, Shift(x, 1), now);
            && CountsTo(rtype, y, limit, if TodayTells(rtype, Span(now, now), limit) then n - 1 else n)
            && (CountsTo(rtype, y, limit, n) <==> !TodayTells(rtype, Span(now, now), limit))
  {
    hide Adjusted, Nth, Weekday, LocalDay, Next, OnDay, FromTimestamp, CountsTo;
    var c := Span(now, now);
    var z, y := Adjusted(rtype, c, now), Adjusted(rtype, Shift(x, 1), now);
    DaysApart(x.start, 1);
    DaysApart(now, 1);
    assert now <= Shift(x, 1).start by { LaterDay(now, Shift(x, 1).start); }
    if rtype == 2 || rtype == 3 {
      PlainAdjusted(rtype, c, now);
      PlainAdjusted(rtype, Shift(x, 1), now);
      var m := SomeCount(rtype, y, limit);
      DayLaterCounts(rtype, y, c, limit, m);
      CountIsUnique(rtype, c, limit, n, if OnDay(rtype, c, limit) then m + 1 else m);
    } else {
      TomorrowAdjusted(rtype, x, now);
      if Admissible(rtype, Weekday(now)) {
        AdjustedIsIdentity(rtype, c, now);
        AtLeastOne(rtype, c, limit, n);
        OneBehind(rtype, c, limit, n);
        CountByDays(rtype, Next(rtype, c), y, limit, n - 1);
      } else {
        AdjustedIsStep(rtype, c, now);
        CountByDays(rtype, Next(rtype, c), y, limit, n);
      }
    }
    if TodayTells(rtype, c, limit) && CountsTo(rtype, y, limit, n) {
      CountIsUnique(rtype, y, limit, n, n - 1);
    }
  }

  lemma AtLeastOne(rtype: int, x: Span, limit: int, n: nat)
    requires CountsTo(rtype, x, limit, n) && x.start <= limit
    ensures 1 <= n
  {
  }

  lemma LaterDay(t: int, u: int)
    requires LocalDay(t) < LocalDay(u)
    ensures t < u
  {
    hide Carry;
  }

  lemma TomorrowAdjusted(rtype: int, x: Span, now: int)
    requires (rtype == 1 || ByWeekday(rtype)) && LocalDay(x.start) == LocalDay(now) && now <= Shift(x, 1).start
    ensures LocalDay(Adjusted(rtype, Shift(x, 1), now).start) == LocalDay(Next(rtype, Span(now, now)).start)
  {
    hide LocalDay, Weekday, WeekdayIn, MonthLength, FromTimestamp;
    var k := StepDays(rtype, x.start);
    StepByDay(rtype, x.start, now);
    DaysApart(x.start, k);
    DaysApart(now, k);
    if ByWeekday(rtype) {
      WeekdayInDays(x.start, 1);
      FromNextDay(rtype, Weekday(x.start));
    }
  }

  // A start date without an end time does not make the command count again.
  // When the series begins with the m-th of the dates counted, its m last dates
  // are past the end date, or all of its dates if there are no more: the count
  // is right only if nothing was passed over, or nothing counted.
  lemma LaterStart(rtype: int, y: Span, z: Span, limit: int, m: nat, n: nat)
    requires 1 <= rtype <= 9 && CountsTo(rtype, y, limit, n) && SecondOfDay(limit) == DAY - 1
    requires LocalDay(z.start) == LocalDay(Nth(rtype, y, m).start)
    ensures CountsTo(rtype, z, limit, if m <= n then n - m else 0)
    ensures CountsTo(rtype, z, limit, n) <==> m == 0 || n == 0
  {
    hide Nth, LocalDay;
    var u, left := Nth(rtype, y, m), if m <= n then n - m else 0;
    assert CountsTo(rtype, u, limit, left) by { CountFromNth(rtype, y, limit, m, n); }
    CountByDays(rtype, z, u, limit, left);
    hide CountsTo;
    if CountsTo(rtype, z, limit, n) {
      CountIsUnique(rtype, z, limit, left, n);
    }
  }

  lemma CountFromNth(rtype: int, y: Span, limit: int, m: nat, n: nat)
    requires 1 <= rtype <= 9 && CountsTo(rtype, y, limit, n)
    ensures CountsTo(rtype, Nth(rtype, y, m), limit, if m <= n then n - m else 0)
  {
    hide Nth;
    var u := Nth(rtype, y, m);
    forall k: nat
      ensures Nth(rtype, u, k) == Nth(rtype, y, m + k)
    {
      NthAdd(rtype, y, m, k);
    }
    if n < m {
      NthAdd(rtype, y, n, m - n);
      NthLater(rtype, Nth(rtype, y, n), m - n);
    }
  }

  // So for a daily or weekday series the count is right only if the series
  // begins with the first date counted, or none was counted.
  lemma LaterStartDate(rtype: int, x: Span, limit: int, now: int, n: nat)
    requires (rtype == 1 || ByWeekday(rtype)) && now <= x.start && SecondOfDay(limit) == DAY - 1
    requires CountsTo(rtype, Adjusted(rtype, Span(now, now), now), limit, n)
    ensures var y, z := Adjusted(rtype, Span(now, now), now), Adjusted(rtype, x, now);
            CountsTo(rtype, z, limit, n) <==> n == 0 || LocalDay(z.start) == LocalDay(y.start)
  {
    hide Nth, LocalDay, Adjusted, CountsTo, Admissible, Weekday;
    var y, z := Adjusted(rtype, Span(now, now), now), Adjusted(rtype, x, now);
    FirstIsFirst(rtype, x, now);
    AdjustedIsAdmissible(rtype, x, now);
    var m := DateOnDay(rtype, y, z);
    LaterStart(rtype, y, z, limit, m, n);
  }

  // The first date from now on is not behind the first from a later time on.
  lemma FirstIsFirst(rtype: int, x: Span, now: int)
    requires (rtype == 1 || ByWeekday(rtype)) && now <= x.start
    ensures LocalDay(Adjusted(rtype, Span(now, now), now).start) <= LocalDay(Adjusted(rtype, x, now).start)
  {
    hide LocalDay, Weekday, WeekdayIn, Admissible;
    DayOrder(now, x.start);
    if ByWeekday(rtype) {
      var k, j := DaysToAdmissible(rtype, Weekday(now), 0), DaysToAdmissible(rtype, Weekday(x.start), 0);
      DaysApart(now, k);
      DaysApart(x.start, j);
      var e := LocalDay(x.start) + j - LocalDay(now);
      if e < 7 {
        DaysApart(now, e);
        SameWeekday(now + DAY * e, x.start + DAY * j);
        WeekdayInDays(now, e);
        WeekdayInDays(x.start, j);
        SearchSucceeds(rtype, Weekday(x.start), 0);
        AtMost(rtype, Weekday(now), e);
      }
    }
  }

  lemma AtMost(rtype: int, w: int, e: nat)
    requires 0 <= w < 7 && e < 7 && AdmissibleIn(rtype, w, e)
    ensures DaysToAdmissible(rtype, w, 0) <= e
  {
    hide WeekdayIn, Admissible;
  }

  lemma DayOrder(t: int, u: int)
    requires t <= u
    ensures LocalDay(t) <= LocalDay(u)
  {
    hide Carry;
  }

  lemma SameWeekday(t: int, u: int)
    requires LocalDay(t) == LocalDay(u)
    ensures Weekday(t) == Weekday(u)
  {
  }

  lemma DateOnDay(rtype: int, y: Span, z: Span) returns (m: nat)
    requires (rtype == 1 || ByWeekday(rtype)) && LocalDay(y.start) <= LocalDay(z.start)
    requires Admissible(rtype, Weekday(z.start))
    ensures LocalDay(z.start) == LocalDay(Nth(rtype, y, m).start)
    ensures m == 0 <==> LocalDay(z.start) == LocalDay(y.start)
  {
    hide Nth, LocalDay, Weekday, Admissible;
    var d := LocalDay(z.start) - LocalDay(y.start);
    if d == 0 {
      m := 0;
      NthNone(rtype, y);
    } else if rtype == 1 {
      m := d;
      DailyDays(y, d);
    } else {
      DaysApart(y.start, d);
      SameWeekday(z.start, y.start + DAY * d);
      m := NoDaySkipped(rtype, y, d);
      NthNone(rtype, y);
    }
  }

  // A weekly series may begin between the dates counted: the count is right as
  // long as it begins no more days after the first than the end date is after
  // the last.
  lemma LaterWeekly(y: Span, z: Span, limit: int, d: nat, n: nat)
    requires CountsTo(2, y, limit, n) && 1 <= n && SecondOfDay(limit) == DAY - 1
    requires LocalDay(z.start) == LocalDay(y.start) + d
    ensures CountsTo(2, z, limit, n) <==> d <= Rest(LocalDay(limit) - LocalDay(y.start), 7)
  {
    hide Nth, LocalDay;
    forall k: nat
      ensures Nth(2, y, k).start <= limit <==> LocalDay(y.start) + 7 * k <= LocalDay(limit)
      ensures Nth(2, z, k).start <= limit <==> LocalDay(z.start) + 7 * k <= LocalDay(limit)
    {
      DatesOfSeries(2, y, k);
      DatesOfSeries(2, z, k);
      ByTheDay(Nth(2, y, k).start, limit);
      ByTheDay(Nth(2, z, k).start, limit);
    }
    assert Nth(2, y, n - 1).start <= limit;
    WeeksTo(LocalDay(limit) - LocalDay(y.start), n);
  }

  lemma WeeksTo(a: int, n: nat)
    requires 1 <= n && 7 * (n - 1) <= a < 7 * n
    ensures Rest(a, 7) == a - 7 * (n - 1)
  {
    hide Carry;
  }

  // A daily series from now to the end date, asked for from d days later on: as
  // many dates as there are days, and the last one d days past the end date.
  lemma LaterDaily(x: Span, limit: int, now: int, d: nat, n: nat)
    requires SecondOfDay(limit) == DAY - 1 && now <= x.start && LocalDay(x.start) == LocalDay(now) + d
    requires CountsTo(1, Adjusted(1, Span(now, now), now), limit, n) && 1 <= n
    ensures Adjusted(1, x, now) == x
    ensures CountsTo(1, x, limit, if d <= n then n - d else 0)
    ensures LocalDay(Nth(1, x, n - 1).start) == LocalDay(limit) + d
  {
    hide LocalDay, Nth, CountsTo;
    var c := Span(now, now);
    PlainAdjusted(1, c, now);
    PlainAdjusted(1, x, now);
    DailyDays(c, d);
    LaterStart(1, c, x, limit, d, n);
    DailyDays(x, n - 1);
    DailyDays(c, n - 1);
    DailyDays(c, n);
    LastDaily(c, limit, n);
  }

  lemma {:induction false} DailyDays(x: Span, n: nat)
    ensures LocalDay(Nth(1, x, n).start) == LocalDay(x.start) + n
    decreases n
  {
    hide LocalDay;
    if n > 0 {
      DaysApart(x.start, 1);
      DailyDays(Next(1, x), n - 1);
    }
  }

  lemma LastDaily(c: Span, limit: int, n: nat)
    requires 1 <= n && CountsTo(1, c, limit, n) && SecondOfDay(limit) == DAY - 1
    ensures LocalDay(limit) == LocalDay(c.start) + n - 1
  {
    hide Nth, LocalDay;
    DailyDays(c, n - 1);
    DailyDays(c, n);
    assert Nth(1, c, n - 1).start <= limit;
    ByTheDay(Nth(1, c, n - 1).start, limit);
    ByTheDay(Nth(1, c, n).start, limit);
  }
}
