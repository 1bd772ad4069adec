// The occurrences of a whole series: their lengths, and whether they can meet.
module Series {
  import opened Calendar
  import opened Recurrence

  // Does the recording run from one calendar month into another?
  predicate CrossesMonth(x: Span) {
    var s, e := FromTimestamp(x.start), FromTimestamp(x.end);
    (s.year, s.month) != (e.year, e.month)
  }

  // Do the months of start and end have the same number of days?
  predicate EqualMonths(x: Span) {
    StepDays(3, x.start) == StepDays(3, x.end)
  }

  // A series whose occurrences all have the length of the first: no monthly
  // step is taken from months of different length.
  predicate Steady(rtype: int, x: Span, num: nat) {
    rtype == 3 ==> forall n :: 0 <= n < num - 1 ==> EqualMonths(Nth(rtype, x, n))
  }

  // For a recording shorter than a day that is just what keeps all occurrences
  // as long as nothing, and shorter than a day.
  lemma SteadyExactly(rtype: int, x: Span, num: nat)
    requires 0 <= x.end - x.start < DAY
    ensures Steady(rtype, x, num)
       <==> forall n :: 0 <= n < num ==> 0 <= Nth(rtype, x, n).end - Nth(rtype, x, n).start < DAY
  {
    hide Nth, StepDays;
    if Steady(rtype, x, num) {
      forall n | 0 <= n < num
        ensures 0 <= Nth(rtype, x, n).end - Nth(rtype, x, n).start < DAY
      {
        SteadyLength(rtype, x, num, n);
      }
    } else {
      var n :| 0 <= n < num - 1 && !EqualMonths(Nth(rtype, x, n));
      NthOneMore(rtype, x, n);
    }
  }

  lemma StepKeepsLength(rtype: int, x: Span)
    requires rtype == 3 ==> EqualMonths(x)
    ensures var y := Next(rtype, x); y.end - y.start == x.end - x.start
  {
    hide FromTimestamp, MonthLength;
  }

  lemma {:induction false} SteadyLength(rtype: int, x: Span, num: nat, n: nat)
    requires Steady(rtype, x, num) && n < num
    ensures var y := Nth(rtype, x, n); y.end - y.start == x.end - x.start
    decreases n
  {
    hide Next, EqualMonths;
    if n > 0 {
      SteadyLength(rtype, x, num, n - 1);
      NthOneMore(rtype, x, n - 1);
      StepKeepsLength(rtype, Nth(rtype, x, n - 1));
    }
  }

  // Occurrences of a steady series shorter than a day never meet.
  lemma SteadyDisjoint(rtype: int, x: Span, num: nat, i: nat, j: nat)
    requires 1 <= rtype <= 9 && Steady(rtype, x, num) && i < j < num
    requires x.end - x.start < DAY
    ensures Nth(rtype, x, i).end < Nth(rtype, x, j).start
  {
    hide Steady, Nth, Next;
    SteadyLength(rtype, x, num, i);
    NthAdd(rtype, x, i, j - i);
    NthLater(rtype, Nth(rtype, x, i), j - i);
  }

  // For a daily series the bound is exact.
  lemma DailyDisjoint(x: Span, num: nat)
    requires x.start <= x.end && 2 <= num
    ensures (forall i, j :: 0 <= i < j < num ==> Nth(1, x, i).end < Nth(1, x, j).start) <==> x.end - x.start < DAY
  {
    if x.end - x.start < DAY {
      forall i, j | 0 <= i < j < num
        ensures Nth(1, x, i).end < Nth(1, x, j).start
      {
        SteadyDisjoint(1, x, num, i, j);
      }
    } else {
      assert Nth(1, x, 1) == Next(1, x) by {
        assert Nth(1, Next(1, x), 0) == Next(1, x);
      }
      assert Nth(1, x, 0).end >= Nth(1, x, 1).start;
    }
  }

  // ---------------------------------------------------------------------
  // Monthly series

  // Starts and ends within the first 28 days of one month.
  predicate EarlyInMonth(x: Span) {
    !CrossesMonth(x) && FromTimestamp(x.start).day <= 28 && FromTimestamp(x.end).day <= 28
  }

  function MonthAfter(c: Civil): Civil {
    if c.month < 12 then c.(month := c.month + 1) else c.(year := c.year + 1, month := 1)
  }

  lemma SameDayNextMonth(t: int)
    requires FromTimestamp(t).day <= 28
    ensures FromTimestamp(t + DAY * StepDays(3, t)) == MonthAfter(FromTimestamp(t))
  {
    hide FromTimestamp, IsLeap, DaysBeforeYear, DaysBeforeMonth;
    var c := FromTimestamp(t);
    TimestampRoundTrip(t);
    MonthStep(c);
    if c.month == 12 {
      MonthsCarry(c.(month := 1), 1);
    }
    assert Valid(MonthAfter(c));
    CivilRoundTrip(MonthAfter(c));
  }

  lemma {:induction false} EarlyInMonthStays(x: Span, n: nat)
    requires EarlyInMonth(x)
    ensures EarlyInMonth(Nth(3, x, n))
    decreases n
  {
    hide FromTimestamp, StepDays;
    if n > 0 {
      SameDayNextMonth(x.start);
      SameDayNextMonth(x.end);
      EarlyInMonthStays(Next(3, x), n - 1);
    }
  }

  lemma WithinMonth(x: Span)
    requires EarlyInMonth(x)
    ensures EqualMonths(x)
  {
    hide FromTimestamp, MonthLength;
  }

  // Such a monthly series is steady however long it is.
  lemma EarlyInMonthIsSteady(x: Span, num: nat)
    requires EarlyInMonth(x)
    ensures Steady(3, x, num)
  {
    hide EarlyInMonth;
    forall n | 0 <= n < num
      ensures EqualMonths(Nth(3, x, n))
    {
      EarlyInMonthStays(x, n);
      WithinMonth(Nth(3, x, n));
    }
  }

  // The days that n monthly steps move a time.
  function MonthDays(t: int, n: nat): nat
    decreases n
  {
    if n == 0 then 0 else StepDays(3, t) + MonthDays(t + DAY * StepDays(3, t), n - 1)
  }

  // Any number of monthly steps changes the length by the difference of what
  // they move the end and the start, and turns the recording around exactly
  // when that makes up for the length.
  lemma {:induction false} LengthAfterMonths(x: Span, n: nat)
    ensures Nth(3, x, n) == Span(x.start + DAY * MonthDays(x.start, n), x.end + DAY * MonthDays(x.end, n))
    ensures Nth(3, x, n).end < Nth(3, x, n).start
       <==> x.end - x.start < DAY * (MonthDays(x.start, n) - MonthDays(x.end, n))
    decreases n
  {
    hide StepDays;
    if n > 0 {
      LengthAfterMonths(Next(3, x), n - 1);
    }
  }

  // Up to day 28, n steps are n months more on the calendar.
  lemma {:induction false} MonthsOnCalendar(t: int, n: nat)
    requires FromTimestamp(t).day <= 28
    ensures var c, u := FromTimestamp(t), t + DAY * MonthDays(t, n);
            u == ToTimestamp(c.(month := c.month + n)) && FromTimestamp(u).day == c.day
    decreases n
  {
    hide FromTimestamp, ToTimestamp, StepDays;
    var c := FromTimestamp(t);
    if n == 0 {
      TimestampRoundTrip(t);
      assert c.(month := c.month + 0) == c;
    } else {
      SameDayNextMonth(t);
      MonthsOnCalendar(t + DAY * StepDays(3, t), n - 1);
      if c.month == 12 {
        MonthsCarry(c.(month := n), 1);
      }
    }
  }

  // Across a month's end the claim fails: in every year, a two-hour recording
  // on the night of 31 January has its next end before its next start.
  lemma MonthEndInverts(year: int, x: Span)
    requires x.start == ToTimestamp(Civil(year, 1, 31, 23, 0, 0)) && x.end == ToTimestamp(Civil(year, 2, 1, 1, 0, 0))
    ensures x.end - x.start == 7200 && Next(3, x).end < Next(3, x).start
  {
    hide ToTimestamp, FromTimestamp;
    var s, e := Civil(year, 1, 31, 23, 0, 0), Civil(year, 2, 1, 1, 0, 0);
    CivilRoundTrip(s);
    CivilRoundTrip(e);
    TwoHours(year);
  }

  // A monthly step turns a recording shorter than a day around exactly when the
  // month it ends in is shorter than the month it starts in.
  lemma InvertsExactly(x: Span)
    requires 0 <= x.end - x.start < DAY
    ensures Next(3, x).end < Next(3, x).start <==> StepDays(3, x.end) < StepDays(3, x.start)
    ensures StepDays(3, x.end) < StepDays(3, x.start) ==> CrossesMonth(x)
  {
    hide FromTimestamp, MonthLength;
    LengthAfterStep(3, x);
  }

  lemma TwoHours(year: int)
    ensures ToTimestamp(Civil(year, 2, 1, 1, 0, 0)) - ToTimestamp(Civil(year, 1, 31, 23, 0, 0)) == 7200
  {
    DayWithinYear(year, 2, 1);
    DayWithinYear(year, 1, 31);
  }
}
