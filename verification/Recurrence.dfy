// Repeat types and the dates of a series: increcdays and
// adjust_initital_repeat_date of src/datetimeutil.c.
module Recurrence {
  import opened Calendar

  // The repeat types increcdays knows; 0 means "not repeated".
  predicate Known(rtype: int) {
    0 <= rtype <= 9
  }

  // Types 4 to 9 repeat on a range of weekdays.
  predicate ByWeekday(rtype: int) {
    4 <= rtype <= 9
  }

  // May a recording of this type start on weekday w (0 is Sunday)?
  predicate Admissible(rtype: int, w: int) {
    match rtype
    case 4 => 1 <= w <= 5       // Mon-Fri
    case 5 => w == 0 || w == 6  // Sat-Sun
    case 6 => 1 <= w <= 4       // Mon-Thu
    case 7 => 2 <= w <= 5       // Tue-Fri
    case 8 => 3 <= w <= 5       // Wed-Fri
    case 9 => 2 <= w <= 4       // Tue-Thu
    case _ => true
  }

  // How many weekdays of a week a type admits.
  function DaysPerWeek(rtype: int): nat {
    match rtype
    case 4 => 5 case 5 => 2 case 6 => 4 case 7 => 4 case 8 => 3 case 9 => 3 case _ => 7
  }

  // The weekday k days after w.
  function WeekdayIn(w: int, k: int): (v: int)
    requires 0 <= w < 7 && 0 <= k <= 7
    ensures 0 <= v < 7
  {
    if w + k < 7 then w + k else w + k - 7
  }

  lemma {:induction false} WeekdayInDays(t: int, k: int)
    requires 0 <= k <= 7
    ensures Weekday(t + DAY * k) == WeekdayIn(Weekday(t), k)
  {
    hide Weekday, Carry;
    WeekdayLater(t, k);
  }

  predicate AdmissibleIn(rtype: int, w: int, k: int)
    requires 0 <= w < 7 && 0 <= k <= 7
  {
    Admissible(rtype, WeekdayIn(w, k))
  }

  // The least k >= from for which the weekday k days after w is admissible.
  function DaysToAdmissible(rtype: int, w: int, from: nat): (k: nat)
    requires 0 <= w < 7 && from <= 7
    ensures from <= k <= 7
    ensures k < 7 ==> AdmissibleIn(rtype, w, k)
    ensures forall i :: from <= i < k ==> !AdmissibleIn(rtype, w, i)
    decreases 7 - from
  {
    if from == 7 || AdmissibleIn(rtype, w, from) then from else DaysToAdmissible(rtype, w, from + 1)
  }

  // Every type admits some weekday, so the search never comes back empty.
  lemma SearchSucceeds(rtype: int, w: int, from: nat)
    requires 0 <= w < 7 && from <= 1
    ensures AdmissibleIn(rtype, w, DaysToAdmissible(rtype, w, from))
  {
    if DaysToAdmissible(rtype, w, from) == 7 {
      assert !AdmissibleIn(rtype, w, 1) && !AdmissibleIn(rtype, w, 2) && !AdmissibleIn(rtype, w, 3);
      assert !AdmissibleIn(rtype, w, 4) && !AdmissibleIn(rtype, w, 5) && !AdmissibleIn(rtype, w, 6);
    }
  }

  lemma LeastDistance(rtype: int, w: int, from: nat, k: nat)
    requires 0 <= w < 7 && from <= k < 7 && AdmissibleIn(rtype, w, k)
    requires forall i :: from <= i < k ==> !AdmissibleIn(rtype, w, i)
    ensures DaysToAdmissible(rtype, w, from) == k
  {
    var found := DaysToAdmissible(rtype, w, from);
    if found < k {
      assert false;
    }
  }

  // By how many days one repetition moves a start time.
  function StepDays(rtype: int, t: int): (k: nat)
    ensures 1 <= rtype <= 9 ==> 1 <= k
    ensures !(1 <= rtype <= 9) ==> k == 0
    ensures ByWeekday(rtype) ==> k <= 7
  {
    if rtype == 1 then 1
    else if rtype == 2 then 7
    else if rtype == 3 then MonthLength(FromTimestamp(t).year, FromTimestamp(t).month)
    else if ByWeekday(rtype) then DaysToAdmissible(rtype, Weekday(t), 1)
    else 0
  }

  datatype Span = Span(start: int, end: int)

  // The next occurrence.  The end moves with the start, except that a month is
  // counted from the month the end itself falls in.
  function Next(rtype: int, x: Span): Span {
    Span(x.start + DAY * StepDays(rtype, x.start),
         x.end + DAY * StepDays(rtype, if rtype == 3 then x.end else x.start))
  }

  // The n-th occurrence after x.
  function Nth(rtype: int, x: Span, n: nat): Span
    decreases n
  {
    if n == 0 then x else Nth(rtype, Next(rtype, x), n - 1)
  }

  // The outcome of increcdays: Exit is its call of exit() on a negative time.
  datatype Status = Done | UnknownType | Exit

  // The do-while conditions of the weekday types, on tm_wday.
  predicate KeepStepping(rtype: int, w: int) {
    match rtype
    case 4 => w == 6 || w == 0
    case 5 => w != 6 && w != 0
    case 6 => w >= 5 || w == 0
    case 7 => w == 6 || w <= 1
    case 8 => w == 6 || w <= 2
    case _ => w >= 5 || w <= 1
  }

  // increcdays: move the civil start and end to the next occurrence.
  method IncRecDays(rtype: int, ghost x: Span, cs: Civil, ce: Civil)
    returns (status: Status, next: Span, ns: Civil, ne: Civil)
    requires cs == FromTimestamp(x.start) && ce == FromTimestamp(x.end)
    ensures status == if !Known(rtype) then UnknownType
                      else if Next(rtype, x).start < 0 || Next(rtype, x).end < 0 then Exit else Done
    ensures status.Done? ==> next == Next(rtype, x)
    ensures status.Done? ==> ns == FromTimestamp(next.start) && ne == FromTimestamp(next.end)
  {
    hide *;
    TimestampRoundTrip(x.start);
    TimestampRoundTrip(x.end);
    var known;
    known, ns, ne := StepFields(rtype, cs, ce);
    if !known {
      return UnknownType, Span(0, 0), ns, ne;
    }
    status, next, ns, ne := FullCycle(ns, ne);
  }

  // The switch on the repeat type: step the day or month fields.
  method StepFields(rtype: int, cs: Civil, ce: Civil) returns (known: bool, ns: Civil, ne: Civil)
    requires Valid(cs) && Valid(ce)
    ensures known == Known(rtype)
    ensures known ==> Span(ToTimestamp(ns), ToTimestamp(ne)) == Next(rtype, Span(ToTimestamp(cs), ToTimestamp(ce)))
  {
    hide ToTimestamp, FromTimestamp, MonthLength, DaysToAdmissible;
    CivilRoundTrip(cs);
    CivilRoundTrip(ce);
    ns, ne := cs, ce;
    if rtype == 0 {
    } else if rtype == 1 {
      DaysAreLinear(cs, 1);
      DaysAreLinear(ce, 1);
      ns, ne := ns.(day := ns.day + 1), ne.(day := ne.day + 1);
    } else if rtype == 2 {
      DaysAreLinear(cs, 7);
      DaysAreLinear(ce, 7);
      ns, ne := ns.(day := ns.day + 7), ne.(day := ne.day + 7);
    } else if rtype == 3 {
      MonthStep(cs);
      MonthStep(ce);
      ns, ne := ns.(month := ns.month + 1), ne.(month := ne.month + 1);
    } else if ByWeekday(rtype) {
      ns, ne := StepToWeekday(rtype, ns, ne);
    } else {
      return false, ns, ne;
    }
    known := true;
  }

  // The do-while search that the six weekday types share.
  method StepToWeekday(rtype: int, cs: Civil, ce: Civil) returns (ns: Civil, ne: Civil)
    requires ByWeekday(rtype)
    ensures ToTimestamp(ns) == ToTimestamp(cs) + DAY * StepDays(rtype, ToTimestamp(cs))
    ensures ToTimestamp(ne) == ToTimestamp(ce) + DAY * StepDays(rtype, ToTimestamp(cs))
  {
    hide ToTimestamp, Weekday, WeekdayIn;
    ghost var k := 0;
    ghost var w := Weekday(ToTimestamp(cs));
    ghost var goal := DaysToAdmissible(rtype, w, 1);
    SearchSucceeds(rtype, w, 1);
    ns, ne := cs, ce;
    var searching := true;
    while searching
      invariant ns == cs.(day := cs.day + k) && ne == ce.(day := ce.day + k)
      invariant if searching then 0 <= k < goal else k == goal
      decreases searching, goal - k
    {
      k := k + 1;
      ns, ne := ns.(day := ns.day + 1), ne.(day := ne.day + 1);
      DaysAreLinear(cs, k);
      WeekdayInDays(ToTimestamp(cs), k);
      searching := KeepStepping(rtype, Weekday(ToTimestamp(ns)));
      assert searching == !AdmissibleIn(rtype, w, k);
    }
    DaysAreLinear(cs, goal);
    DaysAreLinear(ce, goal);
  }

  // Convert to timestamps and back, in case a field has run over.
  method FullCycle(cs: Civil, ce: Civil) returns (status: Status, next: Span, ns: Civil, ne: Civil)
    ensures status == if ToTimestamp(cs) < 0 || ToTimestamp(ce) < 0 then Exit else Done
    ensures status.Done? ==> next == Span(ToTimestamp(cs), ToTimestamp(ce))
    ensures status.Done? ==> ns == FromTimestamp(next.start) && ne == FromTimestamp(next.end)
  {
    next, ns, ne := Span(ToTimestamp(cs), 0), cs, ce;
    if next.start < 0 {
      return Exit, next, ns, ne;
    }
    ns := FromTimestamp(next.start);
    next := Span(next.start, ToTimestamp(ce));
    if next.end < 0 {
      return Exit, next, ns, ne;
    }
    ne := FromTimestamp(next.end);
    status := Done;
  }

  // ---------------------------------------------------------------------
  // What one step does

  // A step lands on an admissible day and passes over none.
  lemma StepIsLeast(rtype: int, t: int)
    requires ByWeekday(rtype)
    ensures Admissible(rtype, Weekday(t + DAY * StepDays(rtype, t)))
    ensures forall k :: 1 <= k < StepDays(rtype, t) ==> !Admissible(rtype, Weekday(t + DAY * k))
  {
    hide Weekday, WeekdayIn;
    SearchSucceeds(rtype, Weekday(t), 1);
    WeekdayInDays(t, StepDays(rtype, t));
    forall k | 1 <= k < StepDays(rtype, t)
      ensures !Admissible(rtype, Weekday(t + DAY * k))
    {
      WeekdayInDays(t, k);
      assert !AdmissibleIn(rtype, Weekday(t), k);
    }
  }

  // By how many days the weekday types step, from each day of the week.
  lemma WeekdaySteps(t: int)
    ensures var w := Weekday(t);
            && StepDays(4, t) == (if w == 5 then 3 else if w == 6 then 2 else 1)
            && StepDays(5, t) == (if w == 6 then 1 else 6 - w)
            && StepDays(6, t) == (if w < 4 then 1 else 8 - w)
            && StepDays(7, t) == (if w == 0 then 2 else if w < 5 then 1 else 9 - w)
            && StepDays(8, t) == (if w < 2 then 3 - w else if w < 5 then 1 else 10 - w)
            && StepDays(9, t) == (if w == 0 then 2 else if w < 4 then 1 else 9 - w)
  {
    hide Weekday, DaysToAdmissible;
    var w := Weekday(t);
    LeastDistance(4, w, 1, if w == 5 then 3 else if w == 6 then 2 else 1);
    LeastDistance(5, w, 1, if w == 6 then 1 else 6 - w);
    LeastDistance(6, w, 1, if w < 4 then 1 else 8 - w);
    LeastDistance(7, w, 1, if w == 0 then 2 else if w < 5 then 1 else 9 - w);
    LeastDistance(8, w, 1, if w < 2 then 3 - w else if w < 5 then 1 else 10 - w);
    LeastDistance(9, w, 1, if w == 0 then 2 else if w < 4 then 1 else 9 - w);
  }

  // Two times of one day take the same step.
  lemma StepByDay(rtype: int, t: int, u: int)
    requires LocalDay(t) == LocalDay(u)
    ensures StepDays(rtype, t) == StepDays(rtype, u)
  {
  }

  // The length of an occurrence is kept by every type but the monthly one, and
  // by that one exactly when start and end fall in months of equal length.
  lemma LengthAfterStep(rtype: int, x: Span)
    ensures var y, n := Next(rtype, x), StepDays(3, x.end) - StepDays(3, x.start);
            (y.end - y.start) - (x.end - x.start) == if rtype == 3 then DAY * n else 0
  {
  }

  lemma {:induction false} NthLater(rtype: int, x: Span, n: nat)
    requires 1 <= rtype <= 9
    ensures x.start + DAY * n <= Nth(rtype, x, n).start
    decreases n
  {
    hide StepDays;
    if n > 0 {
      NthLater(rtype, Next(rtype, x), n - 1);
    }
  }

  lemma {:induction false} NthAdd(rtype: int, x: Span, m: nat, n: nat)
    ensures Nth(rtype, Nth(rtype, x, m), n) == Nth(rtype, x, m + n)
    decreases m
  {
    hide Next;
    if m > 0 {
      NthAdd(rtype, Next(rtype, x), m - 1, n);
    }
  }

  lemma NthNone(rtype: int, x: Span)
    ensures Nth(rtype, x, 0) == x
  {
  }

  lemma NthOneMore(rtype: int, x: Span, n: nat)
    ensures Nth(rtype, x, n + 1) == Next(rtype, Nth(rtype, x, n))
  {
    hide Next;
    NthAdd(rtype, x, n, 1);
    var y := Nth(rtype, x, n);
    assert Nth(rtype, Next(rtype, y), 0) == Next(rtype, y);
  }

  // No repeat type moves the time of day, of the start or of the end.
  lemma {:induction false} ClockIsKept(rtype: int, x: Span, n: nat)
    ensures SecondOfDay(Nth(rtype, x, n).start) == SecondOfDay(x.start)
    ensures SecondOfDay(Nth(rtype, x, n).end) == SecondOfDay(x.end)
    decreases n
  {
    hide StepDays, SecondOfDay, LocalDay;
    if n > 0 {
      var y := Next(rtype, x);
      SameClock(x.start, StepDays(rtype, x.start));
      SameClock(x.end, StepDays(rtype, if rtype == 3 then x.end else x.start));
      ClockIsKept(rtype, y, n - 1);
    }
  }

  lemma SameClock(t: int, k: int)
    ensures SecondOfDay(t + DAY * k) == SecondOfDay(t)
  {
    SplitDay(t + DAY * k, LocalDay(t) + k, SecondOfDay(t));
  }

  // A weekly series stays on its weekday.
  lemma {:induction false} WeeklyKeepsWeekday(x: Span, n: nat)
    ensures Weekday(Nth(2, x, n).start) == Weekday(x.start)
    decreases n
  {
    hide Weekday, WeekdayIn;
    if n > 0 {
      WeekdayInDays(x.start, 7);
      assert WeekdayIn(Weekday(x.start), 7) == Weekday(x.start) by { WholeWeek(Weekday(x.start)); }
      WeeklyKeepsWeekday(Next(2, x), n - 1);
    }
  }

  lemma WholeWeek(w: int)
    requires 0 <= w < 7
    ensures WeekdayIn(w, 7) == w
  {
  }

  // Every occurrence of a weekday series is on an admissible day ...
  lemma {:induction false} NthAdmissible(rtype: int, x: Span, n: nat)
    requires Admissible(rtype, Weekday(x.start))
    ensures Admissible(rtype, Weekday(Nth(rtype, x, n).start))
    decreases n
  {
    hide Weekday, StepDays;
    if n > 0 {
      if ByWeekday(rtype) {
        StepIsLeast(rtype, x.start);
      }
      NthAdmissible(rtype, Next(rtype, x), n - 1);
    }
  }

  // ... and every admissible day after the first is an occurrence.
  lemma {:induction false} NoDaySkipped(rtype: int, x: Span, d: nat) returns (n: nat)
    requires ByWeekday(rtype) && Admissible(rtype, Weekday(x.start + DAY * d))
    ensures n <= d && Nth(rtype, x, n).start == x.start + DAY * d
    decreases d
  {
    hide Weekday, Admissible;
    if d == 0 {
      return 0;
    }
    var k := StepDays(rtype, x.start);
    StepIsLeast(rtype, x.start);
    assert k <= d;
    hide StepDays;
    var m := NoDaySkipped(rtype, Next(rtype, x), d - k);
    n := m + 1;
  }

  // The days passed in n steps of a weekday type from weekday w.
  function DaysPassed(rtype: int, w: int, n: nat): nat
    requires 0 <= w < 7
    decreases n
  {
    if n == 0 then 0
    else
      var k := DaysToAdmissible(rtype, w, 1);
      k + DaysPassed(rtype, WeekdayIn(w, k), n - 1)
  }

  // The first and last weekday of a type that admits a run of weekdays.
  function FirstDay(rtype: int): int {
    match rtype case 4 => 1 case 6 => 1 case 8 => 3 case _ => 2
  }

  function LastDay(rtype: int): int {
    FirstDay(rtype) + DaysPerWeek(rtype) - 1
  }

  lemma GapInRun(rtype: int, w: int)
    requires ByWeekday(rtype) && rtype != 5 && FirstDay(rtype) <= w <= LastDay(rtype)
    ensures DaysToAdmissible(rtype, w, 1) == if w < LastDay(rtype) then 1 else 8 - DaysPerWeek(rtype)
  {
    hide DaysToAdmissible;
    LeastDistance(rtype, w, 1, if w < LastDay(rtype) then 1 else 8 - DaysPerWeek(rtype));
  }

  lemma {:induction false} StepsWithinWeek(rtype: int, w: int, n: nat)
    requires ByWeekday(rtype) && rtype != 5
    requires FirstDay(rtype) <= w && w + n <= LastDay(rtype)
    ensures DaysPassed(rtype, w, n) == n
    decreases n
  {
    hide DaysToAdmissible;
    if n > 0 {
      GapInRun(rtype, w);
      StepsWithinWeek(rtype, w + 1, n - 1);
    }
  }

  lemma {:induction false} StepsIntoNextWeek(rtype: int, w: int, n: nat)
    requires ByWeekday(rtype) && rtype != 5
    requires FirstDay(rtype) <= w <= LastDay(rtype) < w + n <= w + DaysPerWeek(rtype)
    ensures DaysPassed(rtype, w, n) == n + 7 - DaysPerWeek(rtype)
    decreases n
  {
    hide DaysToAdmissible;
    GapInRun(rtype, w);
    if w < LastDay(rtype) {
      StepsIntoNextWeek(rtype, w + 1, n - 1);
    } else {
      StepsWithinWeek(rtype, FirstDay(rtype), n - 1);
    }
  }

  lemma WeekendSteps(w: int)
    requires w == 0 || w == 6
    ensures DaysPassed(5, w, 2) == 7
  {
    hide DaysToAdmissible;
    LeastDistance(5, 0, 1, 6);
    LeastDistance(5, 6, 1, 1);
    var v := 6 - w;
    assert DaysPassed(5, v, 1) == DaysToAdmissible(5, v, 1);
  }

  lemma WeekOfSteps(rtype: int, w: int)
    requires ByWeekday(rtype) && 0 <= w < 7 && Admissible(rtype, w)
    ensures DaysPassed(rtype, w, DaysPerWeek(rtype)) == 7
  {
    if rtype == 5 {
      WeekendSteps(w);
    } else {
      StepsIntoNextWeek(rtype, w, DaysPerWeek(rtype));
    }
  }

  lemma {:induction false} NthByDaysPassed(rtype: int, x: Span, n: nat)
    requires ByWeekday(rtype)
    ensures Nth(rtype, x, n).start == x.start + DAY * DaysPassed(rtype, Weekday(x.start), n)
    decreases n
  {
    hide Weekday, WeekdayIn, DaysToAdmissible, Admissible;
    if n > 0 {
      WeekdayInDays(x.start, StepDays(rtype, x.start));
      NthByDaysPassed(rtype, Next(rtype, x), n - 1);
    }
  }

  // As many steps as the type has weekdays make exactly one week.
  lemma WeekCycle(rtype: int, x: Span)
    requires ByWeekday(rtype) && Admissible(rtype, Weekday(x.start))
    ensures Nth(rtype, x, DaysPerWeek(rtype)).start == x.start + 7 * DAY
  {
    hide *;
    NthByDaysPassed(rtype, x, DaysPerWeek(rtype));
    WeekOfSteps(rtype, Weekday(x.start));
  }

  // ---------------------------------------------------------------------
  // The first date of a series

  function Shift(x: Span, days: int): Span {
    Span(x.start + DAY * days, x.end + DAY * days)
  }

  // What adjust_initital_repeat_date is for: a start in the past moves to the
  // next day, and then to the first admissible day from there on.
  function Adjusted(rtype: int, x: Span, now: int): Span {
    if !Known(rtype) then x
    else
      var y := if x.start < now then Shift(x, 1) else x;
      if ByWeekday(rtype) then Shift(y, DaysToAdmissible(rtype, Weekday(y.start), 0)) else y
  }

  // adjust_initital_repeat_date, with its table of weekdays and distances.
  method AdjustInitialRepeatDate(rtype: int, x: Span, now: int) returns (ok: bool, y: Span)
    ensures ok == Known(rtype)
    ensures y == Adjusted(rtype, x, now)
  {
    hide ToTimestamp, FromTimestamp, Weekday;
    if rtype < 0 || rtype > 9 {
      return false, x;
    }
    var cs, ce := FromTimestamp(x.start), FromTimestamp(x.end);
    TimestampRoundTrip(x.start);
    TimestampRoundTrip(x.end);
    y := x;
    if x.start < now {
      DaysAreLinear(cs, 1);
      DaysAreLinear(ce, 1);
      y := Span(ToTimestamp(cs.(day := cs.day + 1)), ToTimestamp(ce.(day := ce.day + 1)));
      cs, ce := FromTimestamp(y.start), FromTimestamp(y.end);
      TimestampRoundTrip(y.start);
      TimestampRoundTrip(y.end);
    }
    var k := 0;
    if rtype >= 4 {
      k := DaysFromTable(rtype, Weekday(ToTimestamp(cs)));
    }
    DaysAreLinear(cs, k);
    DaysAreLinear(ce, k);
    ok, y := true, Span(ToTimestamp(cs.(day := cs.day + k)), ToTimestamp(ce.(day := ce.day + k)));
  }

  // The table: how far to move a start on weekday w.
  method DaysFromTable(rtype: int, w: int) returns (k: nat)
    requires ByWeekday(rtype) && 0 <= w < 7
    ensures k == DaysToAdmissible(rtype, w, 0)
  {
    k := 0;
    if rtype == 4 {
      if w == 6 { k := 2; } else if w == 0 { k := 1; }
    } else if rtype == 6 {
      if w == 6 { k := 2; } else if w == 0 { k := 1; } else if w == 5 { k := 3; }
    } else if rtype == 7 {
      if w == 6 { k := 3; } else if w == 0 { k := 2; } else if w == 1 { k := 1; }
    } else if rtype == 8 {
      if w == 6 { k := 4; } else if w == 0 { k := 3; } else if w == 1 { k := 2; } else if w == 2 { k := 1; }
    } else if rtype == 9 {
      if w == 6 { k := 3; } else if w == 0 { k := 2; } else if w == 1 { k := 1; } else if w == 5 { k := 4; }
    } else {
      if 0 < w < 6 { k := 6 - w; }
    }
    LeastDistance(rtype, w, 0, k);
  }

  // The first date is left alone exactly when it is not past and admissible.
  lemma AdjustedIsIdentity(rtype: int, x: Span, now: int)
    requires Known(rtype)
    ensures Adjusted(rtype, x, now) == x <==> now <= x.start && Admissible(rtype, Weekday(x.start))
  {
    hide Weekday;
    var w := Weekday(x.start);
    assert AdmissibleIn(rtype, w, 0) == Admissible(rtype, w);
  }

  // A date that is not past but not admissible moves to where one step of
  // increcdays would take it.
  lemma AdjustedIsStep(rtype: int, x: Span, now: int)
    requires ByWeekday(rtype) && now <= x.start && !Admissible(rtype, Weekday(x.start))
    ensures Adjusted(rtype, x, now) == Next(rtype, x)
  {
    hide Weekday;
    assert !AdmissibleIn(rtype, Weekday(x.start), 0);
  }

  // Searching from tomorrow on, today allowed, is searching from today on,
  // today not allowed.
  lemma FromNextDay(rtype: int, w: int)
    requires ByWeekday(rtype) && 0 <= w < 7
    ensures DaysToAdmissible(rtype, WeekdayIn(w, 1), 0) + 1 == DaysToAdmissible(rtype, w, 1)
  {
    hide DaysToAdmissible;
    var k := DaysToAdmissible(rtype, w, 1);
    SearchSucceeds(rtype, w, 1);
    forall i | 0 <= i <= 6
      ensures AdmissibleIn(rtype, WeekdayIn(w, 1), i) == AdmissibleIn(rtype, w, i + 1)
    {
    }
    LeastDistance(rtype, WeekdayIn(w, 1), 0, k - 1);
  }

  // A daily or weekday series whose first date is moved at all begins where one
  // step of increcdays would take it.
  lemma AdjustedIsNext(rtype: int, x: Span, now: int)
    requires rtype == 1 || ByWeekday(rtype)
    requires x.start < now || !Admissible(rtype, Weekday(x.start))
    ensures Adjusted(rtype, x, now) == Next(rtype, x)
  {
    hide Weekday, WeekdayIn, DaysToAdmissible, MonthLength, FromTimestamp;
    if ByWeekday(rtype) {
      if x.start < now {
        WeekdayInDays(x.start, 1);
        FromNextDay(rtype, Weekday(x.start));
      } else {
        AdjustedIsStep(rtype, x, now);
      }
    }
  }

  // So a weekly series whose first date has gone by is moved off its weekday.
  lemma WeekdayAfterMove(x: Span, now: int)
    ensures Weekday(Adjusted(2, x, now).start) == Weekday(x.start) <==> now <= x.start
  {
    hide Weekday;
    WeekdayInDays(x.start, 1);
  }

  lemma AdjustedIsAdmissible(rtype: int, x: Span, now: int)
    requires Known(rtype)
    ensures Admissible(rtype, Weekday(Adjusted(rtype, x, now).start))
  {
    hide Weekday, DaysToAdmissible, WeekdayIn;
    if ByWeekday(rtype) {
      var y := if x.start < now then Shift(x, 1) else x;
      SearchSucceeds(rtype, Weekday(y.start), 0);
      WeekdayInDays(y.start, DaysToAdmissible(rtype, Weekday(y.start), 0));
    }
  }

  // Adjusting twice is adjusting once, exactly when once was enough to leave
  // the past.
  lemma AdjustedTwice(rtype: int, x: Span, now: int)
    requires Known(rtype)
    ensures var y := Adjusted(rtype, x, now); Adjusted(rtype, y, now) == y <==> now <= y.start
  {
    hide *;
    AdjustedIsAdmissible(rtype, x, now);
    AdjustedIsIdentity(rtype, Adjusted(rtype, x, now), now);
  }

  // No date that unrolling produces is ever moved.
  lemma AdjustedOccurrence(rtype: int, x: Span, now: int, n: nat)
    requires 1 <= rtype <= 9 && now <= x.start && Admissible(rtype, Weekday(x.start))
    ensures Adjusted(rtype, Nth(rtype, x, n), now) == Nth(rtype, x, n)
  {
    hide Weekday, Admissible, Adjusted, Next, Nth;
    NthAdmissible(rtype, x, n);
    NthLater(rtype, x, n);
    AdjustedIsIdentity(rtype, Nth(rtype, x, n), now);
  }
}
