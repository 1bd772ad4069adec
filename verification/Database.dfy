// The saved schedule: one record for a single recording, one for a whole
// series (src/tvxmldb.c).
module Database {
  import opened Calendar
  import opened Schedule
  import opened Booking

  datatype Repeat = Repeat(rtype: int, nbr: nat, startNumber: int, excludes: seq<int>)

  datatype Record = Record(program: string, start: Civil, end: Civil, repeat: Option<Repeat>)

  // An entry but for its sequence number and series id; of a single recording,
  // only what is saved.
  function Content(e: Entry): Entry {
    if e.recurrence then e.(seqnbr := 0, id := 0) else Entry(0, e.program, e.start, e.end, false, 0, 0, 0, 0)
  }

  // ---------------------------------------------------------------------
  // Writing

  // The lowest number of series id in q, or low if that is lower.
  function LowestNumber(q: seq<Entry>, id: int, low: int): int
    decreases |q|
  {
    if q == [] then low
    else LowestNumber(q[1..], id, if q[0].recurrence && q[0].id == id && q[0].number < low then q[0].number else low)
  }

  // The items above a number, in order.
  function Above(items: seq<int>, low: int): seq<int>
    decreases |items|
  {
    if items == [] then [] else (if items[0] > low then [items[0]] else []) + Above(items[1..], low)
  }

  // The record written for the head of q.
  function RecordOf(q: seq<Entry>, table: seq<Excluded>): Record
    requires q != []
  {
    var e := q[0];
    var low := LowestNumber(q[1..], e.id, e.number);
    Record(e.program, FromTimestamp(e.start), FromTimestamp(e.end),
           if e.recurrence then Some(Repeat(e.rtype, e.num, low, Above(ExcludedItems(table, e.id), low))) else None)
  }

  // The records of one queue, and the ids of the series saved by then.
  function SaveQueue(q: seq<Entry>, saved: seq<int>, table: seq<Excluded>): (seq<Record>, seq<int>)
    decreases |q|
  {
    if q == [] then ([], saved)
    else if q[0].recurrence && q[0].id in saved then SaveQueue(q[1..], saved, table)
    else
      var (rs, s) := SaveQueue(q[1..], if q[0].recurrence then saved + [q[0].id] else saved, table);
      ([RecordOf(q, table)] + rs, s)
  }

  // _writeXMLFileHTML, from card v on.
  function SaveFrom(queues: seq<seq<Entry>>, v: nat, saved: seq<int>, table: seq<Excluded>): seq<Record>
    requires v <= |queues|
    decreases |queues| - v
  {
    if v == |queues| then []
    else
      var (rs, s) := SaveQueue(queues[v], saved, table);
      rs + SaveFrom(queues, v + 1, s, table)
  }

  // ---------------------------------------------------------------------
  // Reading

  // parseDate takes the years 2000 to 2049 and gives zeros for any other.
  function FileDate(c: Civil): Civil {
    if 2000 <= c.year <= 2049 then c else c.(year := 0, month := 0, day := 0)
  }

  function Request(r: Record): Entry {
    var start, end := ToTimestamp(FileDate(r.start)), ToTimestamp(FileDate(r.end));
    if r.repeat.None? then Entry(-1, r.program, start, end, false, 0, 0, 0, 0)
    else Entry(-1, r.program, start, end, true, r.repeat.value.rtype, r.repeat.value.nbr, 0, r.repeat.value.startNumber)
  }

  function Excludes(r: Record): seq<int> {
    if r.repeat.None? then [] else r.repeat.value.excludes
  }

  // processRecording
  function LoadOne(st: State, r: Record, now: int): (t: State)
    requires WellFormed(st)
    ensures SameCards(t, st)
  {
    var e := Request(r);
    if e.start >= e.end then st else InsertFirstFit(st, 0, e, Excludes(r), now).0
  }

  function Load(st: State, rs: seq<Record>, now: int): (t: State)
    requires WellFormed(st)
    ensures SameCards(t, st)
    decreases |rs|
  {
    if rs == [] then st else Load(LoadOne(st, rs[0], now), rs[1..], now)
  }

  lemma {:induction false} LoadInTurn(st: State, a: seq<Record>, b: seq<Record>, now: int)
    requires WellFormed(st)
    ensures Load(st, a + b, now) == Load(Load(st, a, now), b, now)
    decreases |a|
  {
    hide LoadOne;
    if a == [] {
      assert a + b == b;
    } else {
      assert (a + b)[1..] == a[1..] + b;
      LoadInTurn(LoadOne(st, a[0], now), a[1..], b, now);
    }
  }

  lemma TwoLoads(st: State, a: Record, b: Record, now: int)
    requires WellFormed(st)
    ensures Load(st, [a, b], now) == LoadOne(LoadOne(st, a, now), b, now)
  {
    hide LoadOne;
    assert [a, b][1..] == [b] && [b][1..] == [];
    var t := LoadOne(st, a, now);
    assert Load(LoadOne(t, b, now), [], now) == LoadOne(t, b, now);
  }

  // Reading never fills the exclusion table: a gap survives one reload, as
  // excludes of its record, but is not there to be written a second time.
  lemma {:induction false} LoadForgetsGaps(st: State, rs: seq<Record>, now: int)
    requires WellFormed(st)
    ensures Load(st, rs, now).excluded == st.excluded
    decreases |rs|
  {
    hide InsertFirstFit;
    if rs != [] {
      LowestCard(st, 0, Request(rs[0]), Excludes(rs[0]), now);
      hide Request, Refuses;
      LoadForgetsGaps(LoadOne(st, rs[0], now), rs[1..], now);
    }
  }

  // ---------------------------------------------------------------------
  // What the file cannot hold

  // From the first second of 2000 to the last of 2049, local time.
  predicate InFileYears(t: int) {
    10957 * DAY <= t + UTC_OFFSET < 29220 * DAY
  }

  // These are the times that parseDate leaves alone.
  lemma YearsInFile(t: int)
    ensures InFileYears(t) <==> FileDate(FromTimestamp(t)) == FromTimestamp(t)
  {
    hide FromTimestamp, DaysBeforeYear, IsLeap;
    var c := FromTimestamp(t);
    YearOfDay(t);
    FileBounds();
    if c.year < 2000 {
      LaterYear(c.year, 2000);
    } else if c.year > 2049 {
      LaterYear(2049, c.year);
      YearStep(2049);
    } else {
      if c.year > 2000 {
        LaterYear(2000, c.year);
      }
      LaterYear(c.year, 2050);
    }
  }

  lemma FileBounds()
    ensures DaysBeforeYear(2000) == 10957 && DaysBeforeYear(2050) == 29220
  {
    hide Carry;
  }

  lemma YearOfDay(t: int)
    ensures var y := FromTimestamp(t).year; DaysBeforeYear(y) <= LocalDay(t) < DaysBeforeYear(y) + YearLength(y)
  {
    hide DaysBeforeYear, YearLength, LocalDay;
  }

  // A recording of no length, or one turned around, is saved, but the reader
  // takes its record for a corrupt one and leaves it out.
  lemma NoLengthIsIgnored(st: State, q: seq<Entry>, table: seq<Excluded>, now: int)
    requires WellFormed(st) && q != [] && q[0].end <= q[0].start
    requires q[0].start == q[0].end || (InFileYears(q[0].start) && InFileYears(q[0].end))
    ensures LoadOne(st, RecordOf(q, table), now) == st
  {
    hide ToTimestamp, FromTimestamp, LowestNumber, InsertFirstFit, InFileYears;
    YearsInFile(q[0].start);
    YearsInFile(q[0].end);
    TimestampRoundTrip(q[0].start);
    TimestampRoundTrip(q[0].end);
  }

  // What the file says of a recording: its programme and times, and of a series
  // its type, how many are left, the lowest number, and just the deleted numbers
  // above that.
  lemma RecordTells(q: seq<Entry>, table: seq<Excluded>, n: int)
    requires q != []
    ensures var r, e := RecordOf(q, table), q[0];
            && r.program == e.program && ToTimestamp(r.start) == e.start && ToTimestamp(r.end) == e.end
            && (r.repeat.Some? <==> e.recurrence)
            && (e.recurrence ==>
                 && r.repeat.value.rtype == e.rtype && r.repeat.value.nbr == e.num
                 && r.repeat.value.startNumber <= e.number
                 && (forall d :: d in q[1..] && d.recurrence && d.id == e.id ==> r.repeat.value.startNumber <= d.number)
                 && (n in r.repeat.value.excludes
                     <==> n in ExcludedItems(table, e.id) && r.repeat.value.startNumber < n))
  {
    hide ToTimestamp, FromTimestamp, ExcludedItems;
    TimestampRoundTrip(q[0].start);
    TimestampRoundTrip(q[0].end);
    LowestIsLeast(q[1..], q[0].id, q[0].number);
    InAbove(ExcludedItems(table, q[0].id), LowestNumber(q[1..], q[0].id, q[0].number), n);
  }

  lemma {:induction false} LowestIsLeast(q: seq<Entry>, id: int, low: int)
    ensures LowestNumber(q, id, low) <= low
    ensures forall d :: d in q && d.recurrence && d.id == id ==> LowestNumber(q, id, low) <= d.number
    decreases |q|
  {
    if q != [] {
      LowestIsLeast(q[1..], id, if q[0].recurrence && q[0].id == id && q[0].number < low then q[0].number else low);
      assert forall d :: d in q <==> d == q[0] || d in q[1..];
    }
  }

  lemma {:induction false} InAbove(items: seq<int>, low: int, n: int)
    ensures n in Above(items, low) <==> n in items && low < n
    decreases |items|
  {
    if items != [] {
      InAbove(items[1..], low, n);
      assert items == [items[0]] + items[1..];
    }
  }

  lemma {:induction false} NoExcludesOnCard(q: seq<Entry>, saved: seq<int>)
    ensures forall r :: r in SaveQueue(q, saved, []).0 ==> Excludes(r) == []
    decreases |q|
  {
    hide LowestNumber, FromTimestamp;
    if q != [] {
      NoExcludesOnCard(q[1..], if q[0].recurrence && q[0].id !in saved then saved + [q[0].id] else saved);
      assert Above([], LowestNumber(q[1..], q[0].id, q[0].number)) == [];
    }
  }

  lemma {:induction false} NoExcludesSaved(queues: seq<seq<Entry>>, v: nat, saved: seq<int>)
    requires v <= |queues|
    ensures forall r :: r in SaveFrom(queues, v, saved, []) ==> Excludes(r) == []
    decreases |queues| - v
  {
    hide SaveQueue, Excludes;
    if v < |queues| {
      NoExcludesOnCard(queues[v], saved);
      NoExcludesSaved(queues, v + 1, SaveQueue(queues[v], saved, []).1);
    }
  }

  // Whatever excludes the file had, the file written after reading it has none.
  lemma SecondFileHasNoExcludes(cards: nat, maxEntries: nat, rs: seq<Record>, now: int, r: Record)
    ensures var t := Load(Empty(cards, maxEntries), rs, now);
            r in SaveFrom(t.queues, 0, [], t.excluded) ==> Excludes(r) == []
  {
    hide SaveFrom, Excludes, Load;
    LoadForgetsGaps(Empty(cards, maxEntries), rs, now);
    NoExcludesSaved(Load(Empty(cards, maxEntries), rs, now).queues, 0, []);
  }
}
