// insertrec looks for collisions at the dates asked for and then may move the
// first one.  Exactly when does that book a card twice?
module MovedDates {
  import opened Calendar
  import opened Recurrence
  import opened Series
  import opened Schedule
  import opened Booking
  import opened Ledger
  import opened Database
  import Episodes
  import opened Reloading
  import Scheduler

  // A request even at the dates asked for and at the dates stored.
  predicate Plain(r: Entry, now: int) {
    Even(r) && (r.recurrence ==> Steady(r.rtype, Adjusted(r.rtype, r.Time(), now), r.num))
  }

  // Every entry stored is free on the card.
  predicate Fits(st: State, v: nat, r: Entry, excluded: seq<int>, now: int)
    requires WellFormed(st) && v < |st.queues|
  {
    var es := NewEntries(r, now, st.nextSeq, st.nextId, excluded);
    forall k :: 0 <= k < |es| ==> Free(es[k].Time(), st.queues[v], st.ongoing[v])
  }

  // The entries stored follow one another with no moment shared.
  lemma StoredTimes(r: Entry, now: int, seqnbr: int, id: int, excluded: seq<int>)
    requires Plain(r, now)
    ensures var es := NewEntries(r, now, seqnbr, id, excluded);
            && Separated(es) && |es| <= Count(r)
            && (r.recurrence ==>
                forall k :: 0 <= k < |es| ==> es[k].Time() == Nth(r.rtype, Adjusted(r.rtype, r.Time(), now), k))
  {
    hide Unroll, Nth, Adjusted, Steady;
    if r.recurrence {
      var x := Adjusted(r.rtype, r.Time(), now);
      UnrollTimes(r, x, 0, seqnbr, id, excluded);
      AdjustedLength(r.rtype, r.Time(), now);
      var moved := r.(start := x.start, end := x.end);
      EvenTimes(moved);
      assert forall k: nat :: k < r.num ==> Time(moved, k) == Nth(r.rtype, x, k);
    }
  }

  lemma AdjustedLength(rtype: int, x: Span, now: int)
    ensures var y := Adjusted(rtype, x, now); y.end - y.start == x.end - x.start
  {
    hide DaysToAdmissible, Weekday;
  }

  // ---------------------------------------------------------------------
  // The condition is exact

  lemma {:induction false} OnlyOnce(p: seq<Entry>, e: Entry)
    requires Separated(p)
    ensures multiset(p)[e] <= 1
    decreases |p|
  {
    if p != [] {
      var n := |p| - 1;
      assert p == p[..n] + [p[n]];
      OnlyOnce(p[..n], e);
    }
  }

  // Two queues put together are apart in the result.
  lemma ApartInJoin(p: seq<Entry>, q: seq<Entry>, es: seq<Entry>, a: Entry, b: Entry)
    requires Separated(p) && multiset(p) == multiset(q) + multiset(es) && a in q && b in es
    ensures ApartFrom(b.Time(), a.Time())
  {
    hide Separated;
    assert a in multiset(q) && b in multiset(es);
    assert a in multiset(p) && b in multiset(p);
    if a == b {
      OnlyOnce(p, a);
      assert false;
    }
    ApartInQueue(p, a, b);
  }

  // An insert leaves the card free of double bookings exactly when it is
  // refused or everything it stores is free.
  lemma InsertIsExact(st: State, v: nat, r: Entry, excluded: seq<int>, now: int)
    requires Booked(st) && v < |st.queues| && Plain(r, now)
    ensures Booked(Insert(st, v, r, excluded, now).0) <==> Refuses(st, v, r) || Fits(st, v, r, excluded, now)
  {
    hide CardOk, Free, Plain, Overlapping, NewEntries, AppendAll;
    if !Refuses(st, v, r) {
      var q, o := st.queues[v], st.ongoing[v];
      var es := NewEntries(r, now, st.nextSeq, st.nextId, excluded);
      var p := AppendAll(q, es, st.maxEntries);
      var t := Insert(st, v, r, excluded, now).0;
      assert CardOk(q, o);
      StoredTimes(r, now, st.nextSeq, st.nextId, excluded);
      if Fits(st, v, r, excluded, now) {
        AppendAllKeepsOrder(q, o, es, st.maxEntries);
      } else {
        var k :| 0 <= k < |es| && !Free(es[k].Time(), q, o);
        SingleFits(st, v, r, excluded, now);
        AppendAllPermutes(q, es, st.maxEntries);
        if CardOk(p, o) {
          StoredIsFree(p, q, es, o, k);
          assert false;
        }
        assert t.queues[v] == p && t.ongoing[v] == o;
      }
    }
  }

  lemma StoredIsFree(p: seq<Entry>, q: seq<Entry>, es: seq<Entry>, o: Option<Entry>, k: nat)
    requires CardOk(p, o) && multiset(p) == multiset(q) + multiset(es) && k < |es|
    ensures Free(es[k].Time(), q, o)
  {
    hide Separated;
    forall i | 0 <= i < |q|
      ensures ApartFrom(es[k].Time(), q[i].Time())
    {
      ApartInJoin(p, q, es, q[i], es[k]);
    }
    assert es[k] in multiset(es);
    assert es[k] in multiset(p);
    var j :| 0 <= j < |p| && p[j] == es[k];
  }

  // A single recording is stored where it was tested; and a series has room.
  lemma SingleFits(st: State, v: nat, r: Entry, excluded: seq<int>, now: int)
    requires Booked(st) && v < |st.queues| && Plain(r, now) && !Refuses(st, v, r)
    ensures !r.recurrence ==> Fits(st, v, r, excluded, now)
    ensures r.recurrence ==> |st.queues[v]| + |NewEntries(r, now, st.nextSeq, st.nextId, excluded)| <= st.maxEntries
  {
    hide Nth, Overlapping, Even, Steady, Unroll, Adjusted;
    NewEntriesCount(r, now, st.nextSeq, st.nextId, excluded);
    assert CardOk(st.queues[v], st.ongoing[v]);
    hide CardOk;
    OverlapTestIsExact(r, st.queues[v], st.ongoing[v]);
    assert !r.recurrence ==> Time(r, 0) == r.Time() && 0 < Count(r);
  }

  // Of a daily or weekday series whose first date is moved, the dates stored
  // are the dates tested, moved on by one: only the last was not tested.
  lemma OnlyLastUntested(st: State, v: nat, r: Entry, excluded: seq<int>, now: int)
    requires Booked(st) && v < |st.queues| && !Refuses(st, v, r)
    requires r.recurrence && (r.rtype == 1 || ByWeekday(r.rtype)) && 1 <= r.num && 0 <= r.end - r.start < DAY
    requires r.start < now || !Admissible(r.rtype, Weekday(r.start))
    ensures Booked(Insert(st, v, r, excluded, now).0)
       <==> SomeExcluded(r, excluded) || Free(Nth(r.rtype, r.Time(), r.num), st.queues[v], st.ongoing[v])
  {
    DailyIsPlain(r, now);
    assert Known(r.rtype) && WellFormed(st);
    hide *;
    InsertIsExact(st, v, r, excluded, now);
    LastTells(st, v, r, excluded, now);
  }

  lemma LastTells(st: State, v: nat, r: Entry, excluded: seq<int>, now: int)
    requires Booked(st) && v < |st.queues| && !Refuses(st, v, r) && Plain(r, now) && Known(r.rtype)
    requires r.recurrence && (r.rtype == 1 || ByWeekday(r.rtype)) && 1 <= r.num
    requires r.start < now || !Admissible(r.rtype, Weekday(r.start))
    ensures Fits(st, v, r, excluded, now)
       <==> SomeExcluded(r, excluded) || Free(Nth(r.rtype, r.Time(), r.num), st.queues[v], st.ongoing[v])
  {
    hide Plain, CardOk, Free, NewEntries, Refuses, Admissible, Weekday, Nth, SomeExcluded, Known, ByWeekday;
    StoredIsNext(r, now, st.nextSeq, st.nextId, excluded);
    StoredMisses(r, now, st.nextSeq, st.nextId, excluded);
    TestedAreFree(st, v, r, now);
    var es := NewEntries(r, now, st.nextSeq, st.nextId, excluded);
    if |es| == r.num {
      assert es[r.num - 1].Time() == Nth(r.rtype, r.Time(), r.num);
    }
  }

  // The dates asked for are free on a card that does not refuse.
  lemma TestedAreFree(st: State, v: nat, r: Entry, now: int)
    requires Booked(st) && v < |st.queues| && !Refuses(st, v, r) && Plain(r, now) && r.recurrence
    ensures forall k: nat :: k < r.num ==> Free(Nth(r.rtype, r.Time(), k), st.queues[v], st.ongoing[v])
  {
    PlainIsEven(r, now);
    assert CardOk(st.queues[v], st.ongoing[v]);
    hide Plain, CardOk, Free, Overlapping, Nth, Even;
    OverlapTestIsExact(r, st.queues[v], st.ongoing[v]);
    assert forall k: nat :: k < r.num ==> Time(r, k) == Nth(r.rtype, r.Time(), k);
  }

  // Fewer entries than were asked for are made exactly when some are excluded.
  lemma {:induction false} UnrollMisses(r: Entry, x: Span, i: nat, seqnbr: int, id: int, excluded: seq<int>)
    requires i <= r.num && Known(r.rtype)
    ensures |Unroll(r, x, i, seqnbr, id, excluded)| <= r.num - i
    ensures |Unroll(r, x, i, seqnbr, id, excluded)| < r.num - i
       <==> exists n :: r.number + i <= n < r.number + r.num && n in excluded
    decreases r.num - i
  {
    hide Next;
    if i < r.num {
      if r.number + i in excluded {
        UnrollMisses(r, x, i + 1, seqnbr, id, excluded);
      } else {
        UnrollMisses(r, Next(r.rtype, x), i + 1, seqnbr + 1, id, excluded);
      }
    }
  }

  // Some number of the series is excluded.
  predicate SomeExcluded(r: Entry, excluded: seq<int>) {
    exists n :: r.number <= n < r.number + r.num && n in excluded
  }

  lemma StoredMisses(r: Entry, now: int, seqnbr: int, id: int, excluded: seq<int>)
    requires r.recurrence && Known(r.rtype)
    ensures |NewEntries(r, now, seqnbr, id, excluded)| <= r.num
    ensures |NewEntries(r, now, seqnbr, id, excluded)| < r.num <==> SomeExcluded(r, excluded)
  {
    hide Adjusted, Unroll;
    UnrollMisses(r, Adjusted(r.rtype, r.Time(), now), 0, seqnbr, id, excluded);
  }

  lemma DailyIsPlain(r: Entry, now: int)
    requires r.recurrence && (r.rtype == 1 || ByWeekday(r.rtype)) && 1 <= r.num && 0 <= r.end - r.start < DAY
    ensures Plain(r, now)
  {
  }

  lemma StoredIsNext(r: Entry, now: int, seqnbr: int, id: int, excluded: seq<int>)
    requires Plain(r, now) && r.recurrence && (r.rtype == 1 || ByWeekday(r.rtype))
    requires r.start < now || !Admissible(r.rtype, Weekday(r.start))
    ensures var es := NewEntries(r, now, seqnbr, id, excluded);
            |es| <= r.num && forall k :: 0 <= k < |es| ==> es[k].Time() == Nth(r.rtype, r.Time(), k + 1)
  {
    hide Nth, Plain, NewEntries, Adjusted, Next, Weekday, Admissible, Separated;
    var es := NewEntries(r, now, seqnbr, id, excluded);
    StoredTimes(r, now, seqnbr, id, excluded);
    AdjustedIsNext(r.rtype, r.Time(), now);
    forall k | 0 <= k < |es|
      ensures es[k].Time() == Nth(r.rtype, r.Time(), k + 1)
    {
      NextIsNth(r.rtype, r.Time(), k);
    }
  }

  lemma PlainIsEven(r: Entry, now: int)
    requires Plain(r, now)
    ensures Even(r)
  {
  }

  lemma NextIsNth(rtype: int, x: Span, k: nat)
    ensures Nth(rtype, Next(rtype, x), k) == Nth(rtype, x, k + 1)
  {
  }

  // For the reader, which meets series whose first date went by while the
  // daemon was down.
  lemma LoadIsExact(st: State, r: Record, now: int)
    requires Booked(st) && Plain(Request(r), now)
    ensures var v := CardFor(st, Request(r), 0);
            Booked(LoadOne(st, r, now))
            <==> Request(r).end <= Request(r).start || v == |st.queues| || Fits(st, v, Request(r), Excludes(r), now)
  {
    hide Plain, Request, Insert, Refuses, Fits, CardOk;
    var e := Request(r);
    LowestCard(st, 0, e, Excludes(r), now);
    var v := CardFor(st, e, 0);
    if v < |st.queues| {
      InsertIsExact(st, v, e, Excludes(r), now);
    }
  }

  // ---------------------------------------------------------------------
  // Whole runs

  predicate PlainOp(op: Op) {
    op.Add? ==> Plain(op.request, op.now)
  }

  // The card that takes the request, if one does, has every entry stored free.
  predicate OpFits(st: State, op: Op)
    requires WellFormed(st)
  {
    op.Add? ==>
      var v := if op.wanted.Some? then op.wanted.value else CardFor(st, op.request, 0);
      v < |st.queues| && !Refuses(st, v, op.request) ==> Fits(st, v, op.request, op.excluded, op.now)
  }

  predicate AllFit(st: State, ops: seq<Op>, resolution: int)
    requires WellFormed(st)
    decreases |ops|
  {
    ops != [] ==> OpFits(st, ops[0]) && AllFit(Step(st, ops[0], resolution), ops[1..], resolution)
  }

  // No card is booked twice, now or after any further operation.
  predicate BookedThroughout(st: State, ops: seq<Op>, resolution: int)
    requires WellFormed(st)
    decreases |ops|
  {
    Booked(st) && (ops != [] ==> BookedThroughout(Step(st, ops[0], resolution), ops[1..], resolution))
  }

  lemma StepIsExact(st: State, op: Op, resolution: int)
    requires Booked(st) && PlainOp(op)
    ensures Booked(Step(st, op, resolution)) <==> OpFits(st, op)
  {
    hide CardOk, Insert, InsertFirstFit, Delete, Tick, Plain, Refuses, Fits;
    match op
    case Add(r, wanted, excluded, now) =>
      LowestCard(st, 0, r, excluded, now);
      var v := if wanted.Some? then wanted.value else CardFor(st, r, 0);
      if v < |st.queues| {
        InsertIsExact(st, v, r, excluded, now);
      }
    case Remove(seqnbr, allRecurrences) => DeleteKeepsBooked(st, seqnbr, allRecurrences);
    case TickAt(now) => TickKeepsBooked(st, now, resolution);
    case Finish(card) => FinishKeepsBooked(st, card);
  }

  lemma {:induction false} RunIsExact(st: State, ops: seq<Op>, resolution: int)
    requires Booked(st) && forall k :: 0 <= k < |ops| ==> PlainOp(ops[k])
    ensures BookedThroughout(st, ops, resolution) <==> AllFit(st, ops, resolution)
    decreases |ops|
  {
    hide CardOk, Step, PlainOp, OpFits;
    if ops != [] {
      StepIsExact(st, ops[0], resolution);
      var t := Step(st, ops[0], resolution);
      if Booked(t) {
        RunIsExact(t, ops[1..], resolution);
      } else {
        assert !BookedThroughout(t, ops[1..], resolution);
      }
    }
  }

  // From start-up on: no moment of the run has a card booked twice exactly when
  // every accepted series fits at the dates it is stored at.
  lemma NeverBookedTwiceExactly(cards: nat, maxEntries: nat, ops: seq<Op>, resolution: int)
    requires forall k :: 0 <= k < |ops| ==> PlainOp(ops[k])
    ensures BookedThroughout(Empty(cards, maxEntries), ops, resolution)
       <==> AllFit(Empty(cards, maxEntries), ops, resolution)
  {
    hide BookedThroughout, AllFit, PlainOp;
    RunIsExact(Empty(cards, maxEntries), ops, resolution);
  }

  // ---------------------------------------------------------------------
  // Two ways it happens

  function Single(t: int): Entry {
    Entry(1, "", t, t + 3600, false, 0, 0, 0, 0)
  }

  function Repeated(t: int, rtype: int, num: nat): Entry {
    Entry(-1, "", t, t + 3600, true, rtype, num, 0, 1)
  }

  function OneCard(e: Entry): State {
    State(10, [[e]], [None], 2, 1, [])
  }

  lemma OneCardIsBooked(t: int)
    ensures Booked(OneCard(Single(t)))
  {
    assert CardOk([Single(t)], None);
  }

  // Five steps of a Mon-Fri series from a Saturday lead to Friday.
  lemma FridayIsFifth(r: Entry)
    requires r.rtype == 4 && r.num == 5 && Weekday(r.start) == 6
    ensures Nth(r.rtype, r.Time(), r.num) == Shift(r.Time(), 6)
  {
    hide Weekday, Nth, DaysPassed;
    NthByDaysPassed(r.rtype, r.Time(), r.num);
    SaturdayToFriday(r.rtype, r.num);
    NthLength(r.rtype, r.Time(), r.num);
  }

  lemma NthLength(rtype: int, x: Span, n: nat)
    requires rtype != 3
    ensures var y := Nth(rtype, x, n); y.end - y.start == x.end - x.start
  {
    SteadyLength(rtype, x, n + 1, n);
  }

  lemma SaturdayToFriday(rtype: int, n: nat)
    requires rtype == 4 && n == 5
    ensures DaysPassed(rtype, 6, n) == 6
  {
    hide DaysToAdmissible;
    LeastDistance(rtype, 6, 1, 2);
    StepsWithinWeek(rtype, 1, n - 1);
  }

  lemma BeforeFriday(r: Entry, q: seq<Entry>, n: nat)
    requires r.rtype == 4 && r.num == 5 && Weekday(r.start) == 6 && r.end - r.start < DAY && n < r.num
    requires q == [Single(r.start + 6 * DAY)]
    ensures Free(Nth(r.rtype, r.Time(), n), q, None)
  {
    hide Nth, Weekday;
    FridayIsFifth(r);
    NthAdd(r.rtype, r.Time(), n, r.num - n);
    NthLater(r.rtype, Nth(r.rtype, r.Time(), n), r.num - n);
    NthLength(r.rtype, r.Time(), n);
  }

  lemma SaturdayIsAccepted(r: Entry, q: seq<Entry>)
    requires r.recurrence && r.rtype == 4 && r.num == 5 && Weekday(r.start) == 6 && 0 <= r.end - r.start < DAY
    requires q == [Single(r.start + 6 * DAY)]
    ensures !Overlapping(r, q, None)
  {
    assert Even(r) && CardOk(q, None);
    hide Nth, Weekday, Overlapping, CardOk, Even, Free;
    forall n: nat | n < Count(r)
      ensures Free(Time(r, n), q, None)
    {
      BeforeFriday(r, q, n);
    }
    OverlapTestIsExact(r, q, None);
  }

  // With a recording on Friday, five recordings from Monday to Friday are asked
  // for on the Saturday before.  Tested are Saturday and Monday to Thursday,
  // stored are Monday to Friday: on Friday the card is booked twice.
  lemma SaturdayRequest(saturday: int, now: int)
    requires Weekday(saturday) == 6 && now <= saturday
    ensures var st := OneCard(Single(saturday + 6 * DAY));
            && Booked(st) && Insert(st, 0, Repeated(saturday, 4, 5), [], now).1.Inserted?
            && !Booked(Insert(st, 0, Repeated(saturday, 4, 5), [], now).0)
  {
    var st, r := OneCard(Single(saturday + 6 * DAY)), Repeated(saturday, 4, 5);
    OneCardIsBooked(saturday + 6 * DAY);
    SaturdayIsAccepted(r, st.queues[0]);
    FridayIsFifth(r);
    assert !ApartFrom(Shift(r.Time(), 6), st.queues[0][0].Time());
    assert !Admissible(r.rtype, 6);
    hide Nth, Weekday, Overlapping, Booked, Unroll, Adjusted, AppendAll, Shift, Admissible;
    assert !Free(Shift(r.Time(), 6), st.queues[0], None);
    hide Free;
    UnrollTakesAll(r, Adjusted(r.rtype, r.Time(), now), st.nextSeq, st.nextId);
    OnlyLastUntested(st, 0, r, [], now);
  }

  lemma UnrollTakesAll(r: Entry, x: Span, seqnbr: int, id: int)
    requires Known(r.rtype)
    ensures |Unroll(r, x, 0, seqnbr, id, [])| == r.num
  {
    Episodes.UnrollPlain(r, x, 0, seqnbr, id, []);
  }

  // A single recording on one card, and the last of a daily series on another,
  // a day earlier.
  function TwoCards(t: int): State {
    State(10, [[Single(t + DAY)], [Repeated(t, 1, 1).(seqnbr := 2, id := 1)]], [None, None], 3, 2, [])
  }

  lemma FirstRecordLoads(t: int, now: int)
    requires InFileYears(t + DAY) && InFileYears(t + DAY + 3600)
    ensures LoadOne(Empty(2, 10), RecordOf([Single(t + DAY)], []), now)
         == Empty(2, 10).(queues := [[Single(t + DAY)], []], nextSeq := 2)
  {
    hide RecordOf, Request, InFileYears;
    OneRecord(Single(t + DAY));
    var r := Single(t + DAY).(seqnbr := -1);
    var e := r.(seqnbr := 1);
    assert e == Single(t + DAY) && AppendAll([], [e], 10) == [e] by {
      Scheduler.AppendOne([], e, 10);
      assert Append([], e, 10) == [e] by { AppendIsInsert([], e, 10); }
    }
    assert Empty(2, 10).queues[0 := [e]] == [[e], []];
  }

  // A daily series of one, a day before the recording on the first card.
  lemma SecondRecordBooksTwice(u: State, r: Entry, now: int)
    requires u == Empty(2, 10).(queues := [[Single(r.start + DAY)], []], nextSeq := 2)
    requires r == Repeated(r.start, 1, 1) && r.start < now
    ensures Booked(u) && !Refuses(u, 0, r) && !Booked(Insert(u, 0, r, [], now).0)
  {
    assert CardOk(u.queues[0], None) && CardOk(u.queues[1], None);
    NthOne(r.rtype, r.Time());
    assert forall j: nat :: j < r.num ==> Nth(r.rtype, r.Time(), j) == r.Time();
    assert !ApartFrom(Next(r.rtype, r.Time()), u.queues[0][0].Time());
    assert !Free(Next(r.rtype, r.Time()), u.queues[0], None);
    assert !CollidesWithAny(r.Time(), u.queues[0], None);
    hide CardOk, Unroll, Adjusted, AppendAll, Nth, Free, CollidesWithAny, Next;
    UnrollTakesAll(r, Adjusted(r.rtype, r.Time(), now), u.nextSeq, u.nextId);
    OnlyLastUntested(u, 0, r, [], now);
  }

  lemma NthOne(rtype: int, x: Span)
    ensures Nth(rtype, x, 0) == x && Nth(rtype, x, 1) == Next(rtype, x)
  {
    hide Next;
    assert Nth(rtype, Next(rtype, x), 0) == Next(rtype, x);
  }

  // The daemon was down when the episode of the series was due.  At start-up
  // the single recording is put on the first card; the series is tested there at
  // its own date, free, and stored a day later: the card is booked twice.
  lemma PastDateAtStart(t: int, now: int)
    requires InFileYears(t) && InFileYears(t + DAY + 3600) && t < now <= t + DAY
    ensures Booked(TwoCards(t)) && !Booked(Reload(TwoCards(t), now))
  {
    hide InFileYears, RecordOf, Request, SaveFrom, Refuses, Insert, CardOk, Excludes;
    var st := TwoCards(t);
    assert Booked(st) by { TwoCardsAreBooked(t); }
    TwoRecords(st.queues);
    assert InFileYears(t + DAY) && InFileYears(t + 3600) by { YearsBetween(t); }
    FirstRecordLoads(t, now);
    OneRecord(st.queues[1][0]);
    var u := Empty(2, 10).(queues := [[Single(t + DAY)], []], nextSeq := 2);
    SecondRecordBooksTwice(u, Repeated(t, 1, 1), now);
    var rs := [RecordOf(st.queues[0], []), RecordOf(st.queues[1], [])];
    assert rs[1..] == [rs[1]] && [rs[1]][1..] == [];
    assert LoadOne(u, rs[1], now) == Insert(u, 0, Repeated(t, 1, 1), [], now).0;
    assert Load(u, rs[1..], now) == LoadOne(u, rs[1], now);
  }

  lemma TwoCardsAreBooked(t: int)
    ensures Booked(TwoCards(t))
  {
    assert CardOk(TwoCards(t).queues[0], None) && CardOk(TwoCards(t).queues[1], None);
  }

  lemma YearsBetween(t: int)
    requires InFileYears(t) && InFileYears(t + DAY + 3600)
    ensures InFileYears(t + DAY) && InFileYears(t + 3600)
  {
  }
}
