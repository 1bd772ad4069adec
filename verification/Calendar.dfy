// Civil time and timestamps: the two conversions of src/datetimeutil.c.
//
// ToTimestamp normalises out-of-range fields the way mktime does (section
// 7.23.2.3 of ISO/IEC 9899:1999) and counts seconds with the formula of
// section 4.16 of the POSIX.1-2017 Base Definitions.  There is no daylight
// saving: local time runs a fixed number of seconds ahead of UTC.
module Calendar {

  const DAY := 86400

  // The fixed distance between local time and UTC; no value is assumed.
  const UTC_OFFSET: int

  datatype Civil = Civil(year: int, month: int, day: int, hour: int, minute: int, second: int)

  // How many whole times n goes into a, rounding down: the carry of a field.
  function Carry(a: int, n: int): (q: int)
    requires 0 < n
    ensures n * q <= a < n * q + n
    decreases a < 0, if a < 0 then -a else a
  {
    if a < 0 then Carry(a + n, n) - 1 else if a < n then 0 else Carry(a - n, n) + 1
  }

  // What the carry leaves in the field.
  function Rest(a: int, n: int): (r: int)
    requires 0 < n
    ensures 0 <= r < n
  {
    a - n * Carry(a, n)
  }

  predicate IsLeap(y: int) {
    Rest(y, 4) == 0 && (Rest(y, 100) != 0 || Rest(y, 400) == 0)
  }

  function YearLength(y: int): int {
    if IsLeap(y) then 366 else 365
  }

  function MonthLength(y: int, m: int): int
    requires 1 <= m <= 12
  {
    if m == 2 then YearLength(y) - 337
    else if m == 4 || m == 6 || m == 9 || m == 11 then 30
    else 31
  }

  predicate Valid(c: Civil) {
    && 1 <= c.month <= 12
    && 1 <= c.day <= MonthLength(c.year, c.month)
    && 0 <= c.hour < 24
    && 0 <= c.minute < 60
    && 0 <= c.second < 60
  }

  // Days from 1970-01-01 to the first of January of year y.
  function DaysBeforeYear(y: int): int {
    365 * (y - 1970) + Carry(y - 1969, 4) - Carry(y - 1901, 100) + Carry(y - 1601, 400)
  }

  // Days from the first of January to the first of month m.
  function DaysBeforeMonth(y: int, m: int): int
    requires 1 <= m <= 12
  {
    if m == 1 then 0
    else if m == 2 then 31
    else YearLength(y) - (if m == 3 then 306 else if m == 4 then 275 else if m == 5 then 245
                          else if m == 6 then 214 else if m == 7 then 184 else if m == 8 then 153
                          else if m == 9 then 122 else if m == 10 then 92 else if m == 11 then 61 else 31)
  }

  // Days from 1970-01-01 to the given day, whatever the month and day numbers.
  function DayNumber(y: int, m: int, d: int): int {
    var year, month := y + Carry(m - 1, 12), Rest(m - 1, 12) + 1;
    DaysBeforeYear(year) + DaysBeforeMonth(year, month) + d - 1
  }

  function ToTimestamp(c: Civil): int {
    DAY * DayNumber(c.year, c.month, c.day) + 3600 * c.hour + 60 * c.minute + c.second - UTC_OFFSET
  }

  // The local day a timestamp falls on, and the second within that day.
  function LocalDay(t: int): int {
    Carry(t + UTC_OFFSET, DAY)
  }

  function SecondOfDay(t: int): (s: int)
    ensures 0 <= s < DAY
  {
    Rest(t + UTC_OFFSET, DAY)
  }

  // 0 is Sunday; day 0 was a Thursday.
  function Weekday(t: int): (w: int)
    ensures 0 <= w < 7
  {
    Rest(LocalDay(t) + 4, 7)
  }

  // Months have 31 and 30 days in turn, and twice 31 in the middle; February has
  // 29 days in every fourth year, but in a hundredth one only if that is a four
  // hundredth.
  lemma LengthsOfMonths(y: int, m: int, century: int, k: int)
    requires 1 <= m <= 12 && y == 100 * century + k && 0 <= k < 100
    ensures m != 2 ==> MonthLength(y, m) == 30 + if m <= 7 then Rest(m, 2) else Rest(m + 1, 2)
    ensures m == 2 ==>
              (MonthLength(y, m) == 29 <==> if k == 0 then Rest(century, 4) == 0 else Rest(k, 4) == 0)
              && 28 <= MonthLength(y, m) <= 29
  {
    hide Carry, Rest;
    if m == 2 {
      LeapByCentury(y, century, k);
    } else {
      TurnAbout(m);
    }
  }

  lemma TurnAbout(m: int)
    requires 1 <= m <= 12
    ensures Rest(m, 2) == if m == 1 || m == 3 || m == 5 || m == 7 || m == 9 || m == 11 then 1 else 0
    ensures Rest(m + 1, 2) == 1 - Rest(m, 2)
  {
    hide Carry;
  }

  lemma LeapByCentury(y: int, century: int, k: int)
    requires y == 100 * century + k && 0 <= k < 100
    ensures IsLeap(y) <==> if k == 0 then Rest(century, 4) == 0 else Rest(k, 4) == 0
  {
    hide Carry;
    assert Carry(y, 100) == century;
    assert Rest(y, 4) == Rest(k, 4);
    if k == 0 {
      FourCenturies(century);
    }
  }

  lemma FourCenturies(century: int)
    ensures Rest(100 * century, 400) == 100 * Rest(century, 4)
  {
    hide Carry;
  }

  lemma LeapTerm(y: int)
    ensures Carry(y - 1968, 4) == Carry(y - 1969, 4) + if Rest(y, 4) == 0 then 1 else 0
    ensures Carry(y - 1900, 100) == Carry(y - 1901, 100) + if Rest(y, 100) == 0 then 1 else 0
    ensures Carry(y - 1600, 400) == Carry(y - 1601, 400) + if Rest(y, 400) == 0 then 1 else 0
    ensures Rest(y, 400) == 0 ==> Rest(y, 100) == 0
    ensures Rest(y, 100) == 0 ==> Rest(y, 4) == 0
  {
    hide Carry, Rest;
    FourthYear(y);
    HundredthYear(y);
    FourHundredthYear(y);
    LongCycles(y);
  }

  lemma FourthYear(y: int)
    ensures Carry(y - 1968, 4) == Carry(y - 1969, 4) + if Rest(y, 4) == 0 then 1 else 0
  {
    hide Carry;
    assert Carry(y - 1968, 4) == Carry(y, 4) - 492;
  }

  lemma HundredthYear(y: int)
    ensures Carry(y - 1900, 100) == Carry(y - 1901, 100) + if Rest(y, 100) == 0 then 1 else 0
  {
    hide Carry;
    assert Carry(y - 1900, 100) == Carry(y, 100) - 19;
  }

  lemma FourHundredthYear(y: int)
    ensures Carry(y - 1600, 400) == Carry(y - 1601, 400) + if Rest(y, 400) == 0 then 1 else 0
  {
    hide Carry;
    assert Carry(y - 1600, 400) == Carry(y, 400) - 4;
  }

  lemma LongCycles(y: int)
    ensures Rest(y, 400) == 0 ==> Rest(y, 100) == 0
    ensures Rest(y, 100) == 0 ==> Rest(y, 4) == 0
  {
    hide Carry;
    if Rest(y, 400) == 0 {
      assert Carry(y, 100) == 4 * Carry(y, 400);
    }
    if Rest(y, 100) == 0 {
      assert Carry(y, 4) == 25 * Carry(y, 100);
    }
  }

  lemma YearStep(y: int)
    ensures DaysBeforeYear(y + 1) == DaysBeforeYear(y) + YearLength(y)
  {
    LeapTerm(y);
  }

  // Search for the year a day falls in, one year at a time from a guess.
  function YearFrom(guess: int, n: int): (y: int)
    ensures DaysBeforeYear(y) <= n < DaysBeforeYear(y) + YearLength(y)
    decreases n < DaysBeforeYear(guess),
              if n < DaysBeforeYear(guess) then DaysBeforeYear(guess) - n else n - DaysBeforeYear(guess)
  {
    YearStep(guess);
    YearStep(guess - 1);
    if n < DaysBeforeYear(guess) then YearFrom(guess - 1, n)
    else if n >= DaysBeforeYear(guess) + YearLength(guess) then YearFrom(guess + 1, n)
    else guess
  }

  // The month of the n-th day (from 0) of year y, searched from month m.
  function MonthFrom(y: int, m: int, n: int): (month: int)
    requires 1 <= m <= 12 && DaysBeforeMonth(y, m) <= n < YearLength(y)
    ensures m <= month <= 12
    ensures DaysBeforeMonth(y, month) <= n < DaysBeforeMonth(y, month) + MonthLength(y, month)
    decreases 12 - m
  {
    if n < DaysBeforeMonth(y, m) + MonthLength(y, m) then m else MonthFrom(y, m + 1, n)
  }

  // The civil time s seconds into day n.
  function CivilAt(n: int, s: int): (c: Civil)
    requires 0 <= s < DAY
    ensures Valid(c)
  {
    var y := YearFrom(1970, n);
    var m := MonthFrom(y, 1, n - DaysBeforeYear(y));
    var minutes := Carry(s, 60);
    Civil(y, m, n - DaysBeforeYear(y) - DaysBeforeMonth(y, m) + 1, Carry(minutes, 60), Rest(minutes, 60), Rest(s, 60))
  }

  function FromTimestamp(t: int): (c: Civil)
    ensures Valid(c)
  {
    CivilAt(LocalDay(t), SecondOfDay(t))
  }

  lemma {:induction false} LaterYear(a: int, b: int)
    requires a < b
    ensures DaysBeforeYear(a) + YearLength(a) <= DaysBeforeYear(b)
    decreases b - a
  {
    YearStep(a);
    if a + 1 < b {
      LaterYear(a + 1, b);
    }
  }

  // A day lies in one year only, and in one month of it.
  lemma YearIsUnique(a: int, b: int, n: int)
    requires DaysBeforeYear(a) <= n < DaysBeforeYear(a) + YearLength(a)
    requires DaysBeforeYear(b) <= n < DaysBeforeYear(b) + YearLength(b)
    ensures a == b
  {
    if a < b {
      LaterYear(a, b);
    } else if b < a {
      LaterYear(b, a);
    }
  }

  lemma DayWithinYear(y: int, m: int, d: int)
    requires 1 <= m <= 12
    ensures DayNumber(y, m, d) == DaysBeforeYear(y) + DaysBeforeMonth(y, m) + d - 1
    ensures 1 <= d <= MonthLength(y, m) ==> 0 <= DaysBeforeMonth(y, m) + d - 1 < YearLength(y)
  {
  }

  lemma CivilAtNumbers(n: int, s: int)
    requires 0 <= s < DAY
    ensures var c := CivilAt(n, s);
            DayNumber(c.year, c.month, c.day) == n && 3600 * c.hour + 60 * c.minute + c.second == s
  {
    var c := CivilAt(n, s);
    DayWithinYear(c.year, c.month, c.day);
  }

  // A timestamp survives the trip through civil time.
  lemma TimestampRoundTrip(t: int)
    ensures ToTimestamp(FromTimestamp(t)) == t
  {
    CivilAtNumbers(LocalDay(t), SecondOfDay(t));
  }

  lemma ClockFinds(hour: int, minute: int, second: int)
    requires 0 <= hour < 24 && 0 <= minute < 60 && 0 <= second < 60
    ensures var s := 3600 * hour + 60 * minute + second;
            && 0 <= s < DAY
            && Carry(Carry(s, 60), 60) == hour && Rest(Carry(s, 60), 60) == minute && Rest(s, 60) == second
  {
    hide Carry;
    assert Carry(3600 * hour + 60 * minute + second, 60) == 60 * hour + minute;
  }

  lemma CivilAtFinds(c: Civil)
    requires Valid(c)
    ensures CivilAt(DayNumber(c.year, c.month, c.day), 3600 * c.hour + 60 * c.minute + c.second) == c
  {
    hide Carry, Rest, IsLeap, DaysBeforeYear, YearFrom, MonthFrom, DayNumber;
    DayWithinYear(c.year, c.month, c.day);
    var n := DayNumber(c.year, c.month, c.day);
    YearIsUnique(YearFrom(1970, n), c.year, n);
    ClockFinds(c.hour, c.minute, c.second);
  }

  lemma SplitDay(t: int, n: int, s: int)
    requires t + UTC_OFFSET == DAY * n + s && 0 <= s < DAY
    ensures LocalDay(t) == n && SecondOfDay(t) == s
  {
  }

  // A valid civil time survives the trip through a timestamp.
  lemma CivilRoundTrip(c: Civil)
    requires Valid(c)
    ensures FromTimestamp(ToTimestamp(c)) == c
  {
    CivilAtFinds(c);
    SplitDay(ToTimestamp(c), DayNumber(c.year, c.month, c.day), 3600 * c.hour + 60 * c.minute + c.second);
  }

  // Day numbers beyond the month's end carry over linearly.
  lemma DaysAreLinear(c: Civil, k: int)
    ensures ToTimestamp(c.(day := c.day + k)) == ToTimestamp(c) + DAY * k
  {
  }

  // Month numbers carry over into years, in both directions.
  lemma MonthsCarry(c: Civil, k: int)
    ensures ToTimestamp(c.(month := c.month + 12 * k)) == ToTimestamp(c.(year := c.year + k))
  {
    hide IsLeap, YearLength, DaysBeforeMonth, DaysBeforeYear, Carry;
    assert Carry(c.month + 12 * k - 1, 12) == Carry(c.month - 1, 12) + k;
  }

  // One month more is as many days more as the present month has.
  lemma MonthStep(c: Civil)
    requires 1 <= c.month <= 12
    ensures ToTimestamp(c.(month := c.month + 1)) == ToTimestamp(c) + DAY * MonthLength(c.year, c.month)
  {
    DayWithinYear(c.year, c.month, c.day);
    if c.month == 12 {
      YearStep(c.year);
      assert Carry(12, 12) == 1;
    } else {
      DayWithinYear(c.year, c.month + 1, c.day);
    }
  }

  // The calendar by its rules alone: what date follows a date.
  function NextDate(c: Civil): Civil
    requires Valid(c)
  {
    if c.day < MonthLength(c.year, c.month) then c.(day := c.day + 1)
    else if c.month < 12 then c.(month := c.month + 1, day := 1)
    else c.(year := c.year + 1, month := 1, day := 1)
  }

  lemma NextDateNumber(c: Civil)
    requires Valid(c)
    ensures Valid(NextDate(c))
    ensures var d := NextDate(c);
            && DayNumber(d.year, d.month, d.day) == DayNumber(c.year, c.month, c.day) + 1
            && (d.hour, d.minute, d.second) == (c.hour, c.minute, c.second)
  {
    hide Carry, Rest, DayNumber;
    var d := NextDate(c);
    DayWithinYear(c.year, c.month, c.day);
    DayWithinYear(d.year, d.month, d.day);
    YearStep(c.year);
  }

  lemma NextDateAt(n: int, s: int)
    requires 0 <= s < DAY
    ensures CivilAt(n + 1, s) == NextDate(CivilAt(n, s))
  {
    hide *;
    var c := CivilAt(n, s);
    CivilAtNumbers(n, s);
    NextDateNumber(c);
    CivilAtFinds(NextDate(c));
  }

  // The conversions agree with the rule-by-rule calendar, day after day, and
  // (Epoch) with its anchor: day 0 is Thursday, 1970-01-01.
  lemma DayLater(t: int)
    ensures FromTimestamp(t + DAY) == NextDate(FromTimestamp(t))
  {
    hide CivilAt, NextDate;
    SplitDay(t + DAY, LocalDay(t) + 1, SecondOfDay(t));
    NextDateAt(LocalDay(t), SecondOfDay(t));
  }

  lemma WeekdayLater(t: int, k: int)
    ensures Weekday(t + DAY * k) == Rest(Weekday(t) + k, 7)
  {
    SplitDay(t + DAY * k, LocalDay(t) + k, SecondOfDay(t));
  }

  lemma Epoch(y: int)
    requires y == 1970
    ensures DayNumber(y, 1, 1) == 0
  {
    DayWithinYear(y, 1, 1);
    assert Carry(y - 1969, 4) == 0;
    assert Carry(y - 1901, 100) == 0;
    assert Carry(y - 1601, 400) == 0;
  }

  lemma EpochWeekday(t: int)
    requires t == -UTC_OFFSET
    ensures Weekday(t) == 4
  {
    hide Carry;
  }
}
