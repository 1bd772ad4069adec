// No card is ever booked twice.
module Booking {
  import opened Calendar
  import opened Recurrence
  import opened Series
  import opened Schedule

  predicate Proper(x: Span) {
    x.start <= x.end
  }

  predicate Covers(x: Span, t: int) {
    x.start <= t <= x.end
  }

  // Two closed intervals have a moment in common.
  ghost predicate Meets(x: Span, y: Span) {
    exists t :: Covers(x, t) && Covers(y, t)
  }

  predicate Before(x: Span, y: Span) {
    x.end < y.start
  }

  lemma MeetsOrApart(x: Span, y: Span)
    requires Proper(x) && Proper(y)
    ensures Meets(x, y) <==> !Before(x, y) && !Before(y, x)
  {
    var t := if x.start <= y.start then y.start else x.start;
    if !Before(x, y) && !Before(y, x) {
      assert Covers(x, t) && Covers(y, t);
    }
  }

  // The three-way test finds exactly the intervals with a moment in common.
  lemma ThreeWayTest(x: Span, y: Span)
    requires Proper(x) && Proper(y)
    ensures Collides(x, y) <==> Meets(x, y)
  {
    MeetsOrApart(x, y);
  }

  // A queue whose recordings follow one another with no moment shared.
  predicate Separated(q: seq<Entry>) {
    && (forall i :: 0 <= i < |q| ==> Proper(q[i].Time()))
    && (forall i, j :: 0 <= i < j < |q| ==> Before(q[i].Time(), q[j].Time()))
  }

  predicate ApartFrom(x: Span, y: Span) {
    Before(x, y) || Before(y, x)
  }

  // x shares no moment with what is pending or ongoing on the card.
  predicate Free(x: Span, q: seq<Entry>, o: Option<Entry>) {
    && (forall i :: 0 <= i < |q| ==> ApartFrom(x, q[i].Time()))
    && (o.Some? ==> ApartFrom(x, o.value.Time()))
  }

  predicate CardOk(q: seq<Entry>, o: Option<Entry>) {
    && Separated(q)
    && (o.Some? ==> Proper(o.value.Time()) && forall i :: 0 <= i < |q| ==> ApartFrom(o.value.Time(), q[i].Time()))
  }

  predicate Booked(st: State) {
    && WellFormed(st)
    && forall v :: 0 <= v < |st.queues| ==> CardOk(st.queues[v], st.ongoing[v])
  }

  lemma SeparatedIsStrict(q: seq<Entry>)
    requires Separated(q)
    ensures StrictlySorted(q) && Sorted(q)
  {
    forall i, j | 0 <= i < j < |q|
      ensures q[i].start < q[j].start
    {
      assert Proper(q[i].Time()) && Before(q[i].Time(), q[j].Time());
    }
  }

  // The test of one occurrence against a card is exact.
  lemma CollisionTest(x: Span, q: seq<Entry>, o: Option<Entry>)
    requires Proper(x) && CardOk(q, o)
    ensures CollidesWithAny(x, q, o) <==> !Free(x, q, o)
  {
    forall i | 0 <= i < |q|
      ensures Collides(x, q[i].Time()) <==> !ApartFrom(x, q[i].Time())
    {
      assert Proper(q[i].Time());
      ThreeWayTest(x, q[i].Time());
      MeetsOrApart(x, q[i].Time());
    }
    if o.Some? {
      ThreeWayTest(x, o.value.Time());
      MeetsOrApart(x, o.value.Time());
    }
  }

  lemma ApartInQueue(q: seq<Entry>, a: Entry, b: Entry)
    requires Separated(q) && a in q && b in q && a != b
    ensures ApartFrom(b.Time(), a.Time())
  {
    var i :| 0 <= i < |q| && q[i] == a;
    var j :| 0 <= j < |q| && q[j] == b;
    if i < j {
      assert Before(q[i].Time(), q[j].Time());
    } else {
      assert Before(q[j].Time(), q[i].Time());
    }
  }

  // A series of a known type, shorter than a day, of occurrences of one length.
  predicate Even(r: Entry) {
    && r.start <= r.end
    && (r.recurrence ==>
      && 1 <= r.rtype <= 9
      && 1 <= r.num
      && r.end - r.start < DAY
      && Steady(r.rtype, r.Time(), r.num))
  }

  // What a caller must see to besides: a first date that is admissible and not
  // past.
  predicate Regular(r: Entry, now: int) {
    Even(r) && (r.recurrence ==> now <= r.start && Admissible(r.rtype, Weekday(r.start)))
  }

  lemma RegularIsEven(r: Entry, now: int)
    requires Regular(r, now)
    ensures Even(r)
  {
  }

  // How many recordings a request asks for, and when they are.
  function Count(r: Entry): nat {
    if r.recurrence then r.num else 1
  }

  function Time(r: Entry, n: nat): Span {
    if r.recurrence then Nth(r.rtype, r.Time(), n) else r.Time()
  }

  lemma EvenTimes(r: Entry)
    requires Even(r)
    ensures forall i :: 0 <= i < Count(r) ==> Proper(Time(r, i))
    ensures forall i, j :: 0 <= i < j < Count(r) ==> Before(Time(r, i), Time(r, j))
  {
    hide Nth, Admissible, Weekday, Steady;
    if r.recurrence {
      forall i | 0 <= i < r.num
        ensures Proper(Time(r, i))
      {
        SteadyLength(r.rtype, r.Time(), r.num, i);
      }
      forall i, j | 0 <= i < j < r.num
        ensures Before(Time(r, i), Time(r, j))
      {
        SteadyDisjoint(r.rtype, r.Time(), r.num, i, j);
      }
    }
  }

  // isentryoverlapping says no exactly when every recording asked for is free.
  lemma OverlapTestIsExact(r: Entry, q: seq<Entry>, o: Option<Entry>)
    requires Even(r) && CardOk(q, o)
    ensures Overlapping(r, q, o) <==> exists n: nat :: n < Count(r) && !Free(Time(r, n), q, o)
  {
    hide Nth, CardOk, Free, CollidesWithAny, Even, Proper;
    EvenTimes(r);
    forall n: nat | n < Count(r)
      ensures CollidesWithAny(Time(r, n), q, o) <==> !Free(Time(r, n), q, o)
    {
      assert Proper(Time(r, n));
      CollisionTest(Time(r, n), q, o);
    }
    if r.recurrence {
      assert forall n: nat :: n < r.num ==> Time(r, n) == Nth(r.rtype, r.Time(), n);
    } else {
      assert Time(r, 0) == r.Time() && 0 < Count(r);
    }
  }

  // ---------------------------------------------------------------------
  // Inserting keeps a card in order

  lemma {:induction false} UnrollTimes(r: Entry, x: Span, i: nat, seqnbr: int, id: int, excluded: seq<int>)
    requires i <= r.num && Known(r.rtype)
    ensures var es := Unroll(r, x, i, seqnbr, id, excluded);
            && |es| <= r.num - i
            && forall k :: 0 <= k < |es| ==> es[k].Time() == Nth(r.rtype, x, k) && es[k].seqnbr == seqnbr + k
    decreases r.num - i
  {
    hide Next;
    if i < r.num {
      if r.number + i in excluded {
        UnrollTimes(r, x, i + 1, seqnbr, id, excluded);
      } else {
        UnrollTimes(r, Next(r.rtype, x), i + 1, seqnbr + 1, id, excluded);
      }
    }
  }

  lemma NewEntriesTimes(r: Entry, now: int, seqnbr: int, id: int, excluded: seq<int>)
    requires Regular(r, now)
    ensures var es := NewEntries(r, now, seqnbr, id, excluded);
            && |es| <= Count(r)
            && forall k :: 0 <= k < |es| ==> es[k].Time() == Time(r, k) && es[k].seqnbr == seqnbr + k
  {
    hide Unroll, Nth, Adjusted, Admissible, Weekday, Steady;
    if r.recurrence {
      AdjustedIsIdentity(r.rtype, r.Time(), now);
      UnrollTimes(r, r.Time(), 0, seqnbr, id, excluded);
    }
  }

  lemma AppendIsInsert(q: seq<Entry>, e: Entry, maxEntries: nat)
    requires StrictlySorted(q)
    ensures Append(q, e, maxEntries) == if |q| >= maxEntries then q else InsertByStart(q, e)
  {
    SortedIsFixed(q);
    assert (q + [e])[..|q|] == q;
  }

  // Where a free interval is inserted, everything before it is over and
  // nothing after it has begun.
  lemma InsertBetween(q: seq<Entry>, e: Entry, k: nat)
    requires Separated(q) && Proper(e.Time()) && k <= |q|
    requires forall i :: 0 <= i < |q| ==> ApartFrom(e.Time(), q[i].Time())
    requires (k > 0 ==> q[k - 1].start <= e.start) && (k < |q| ==> e.start < q[k].start)
    ensures Separated(q[..k] + [e] + q[k..])
  {
    SeparatedIsStrict(q);
    forall i | 0 <= i < |q|
      ensures if i < k then Before(q[i].Time(), e.Time()) else Before(e.Time(), q[i].Time())
    {
      assert Proper(q[i].Time()) && ApartFrom(e.Time(), q[i].Time());
      if i < k {
        assert q[i].start <= q[k - 1].start;
      } else {
        assert q[k].start <= q[i].start;
      }
    }
  }

  lemma AppendKeepsOrder(q: seq<Entry>, o: Option<Entry>, e: Entry, maxEntries: nat)
    requires CardOk(q, o) && Proper(e.Time()) && Free(e.Time(), q, o)
    ensures CardOk(Append(q, e, maxEntries), o)
    ensures forall x :: x in Append(q, e, maxEntries) ==> x in q || x == e
    ensures |Append(q, e, maxEntries)| == if |q| >= maxEntries then |q| else |q| + 1
  {
    hide Append, Separated;
    SeparatedIsStrict(q);
    AppendIsInsert(q, e, maxEntries);
    var k := InsertSplits(q, e);
    InsertBetween(q, e, k);
  }

  lemma {:induction false} AppendAllKeepsOrder(q: seq<Entry>, o: Option<Entry>, es: seq<Entry>, maxEntries: nat)
    requires CardOk(q, o) && Separated(es) && |q| <= maxEntries
    requires forall i :: 0 <= i < |es| ==> Free(es[i].Time(), q, o)
    ensures CardOk(AppendAll(q, es, maxEntries), o) && |AppendAll(q, es, maxEntries)| <= maxEntries
    decreases |es|
  {
    hide CardOk, Append, Proper;
    if es != [] {
      var p := Append(q, es[0], maxEntries);
      assert Proper(es[0].Time());
      AppendKeepsOrder(q, o, es[0], maxEntries);
      forall i | 0 <= i < |es| - 1
        ensures Free(es[1..][i].Time(), p, o)
      {
        var x := es[i + 1].Time();
        assert Free(x, q, o);
        forall j | 0 <= j < |p|
          ensures ApartFrom(x, p[j].Time())
        {
          assert p[j] in q || p[j] == es[0];
          assert Before(es[0].Time(), x);
        }
      }
      AppendAllKeepsOrder(p, o, es[1..], maxEntries);
    }
  }

  lemma {:induction false} AppendAllMembers(q: seq<Entry>, es: seq<Entry>, maxEntries: nat)
    ensures forall x :: x in AppendAll(q, es, maxEntries) ==> x in q || x in es
    decreases |es|
  {
    hide SortByStart;
    if es != [] {
      SortCorrect(q + [es[0]]);
      forall x | x in Append(q, es[0], maxEntries)
        ensures x in q || x == es[0]
      {
        assert x in multiset(Append(q, es[0], maxEntries));
      }
      AppendAllMembers(Append(q, es[0], maxEntries), es[1..], maxEntries);
    }
  }

  lemma InsertTouchesOne(st: State, v: nat, r: Entry, excluded: seq<int>, now: int)
    requires WellFormed(st) && v < |st.queues|
    ensures var t := Insert(st, v, r, excluded, now).0;
            t.queues == st.queues[v := t.queues[v]] && t.ongoing == st.ongoing && t.excluded == st.excluded
  {
    hide Refuses, NewEntries, AppendAll;
  }

  lemma InsertKeepsBooked(st: State, v: nat, r: Entry, excluded: seq<int>, now: int)
    requires Booked(st) && v < |st.queues| && Regular(r, now)
    ensures Booked(Insert(st, v, r, excluded, now).0)
  {
    hide CardOk, Free, Regular, Overlapping, NewEntries, AppendAll, Proper;
    if !Refuses(st, v, r) {
      var q, o := st.queues[v], st.ongoing[v];
      var es := NewEntries(r, now, st.nextSeq, st.nextId, excluded);
      RegularIsEven(r, now);
      OverlapTestIsExact(r, q, o);
      EvenTimes(r);
      NewEntriesTimes(r, now, st.nextSeq, st.nextId, excluded);
      forall i | 0 <= i < |es|
        ensures Proper(es[i].Time()) && Free(es[i].Time(), q, o)
      {
        assert Proper(Time(r, i)) && Free(Time(r, i), q, o);
      }
      AppendAllKeepsOrder(q, o, es, st.maxEntries);
    }
  }

  // The first card from v on that will have r; |queues| when every one refuses.
  function CardFor(st: State, r: Entry, v: nat): (w: nat)
    requires WellFormed(st) && v <= |st.queues|
    ensures v <= w <= |st.queues|
    ensures forall u :: v <= u < w ==> Refuses(st, u, r)
    ensures w < |st.queues| ==> !Refuses(st, w, r)
    decreases |st.queues| - v
  {
    if v == |st.queues| || !Refuses(st, v, r) then v else CardFor(st, r, v + 1)
  }

  // An add without a named card takes the lowest-numbered card that will have
  // it, or changes nothing.
  lemma {:induction false} LowestCard(st: State, v: nat, r: Entry, excluded: seq<int>, now: int)
    requires WellFormed(st) && v <= |st.queues|
    ensures var w := CardFor(st, r, v);
            InsertFirstFit(st, v, r, excluded, now)
            == if w < |st.queues| then Insert(st, w, r, excluded, now) else (st, Refused)
    decreases |st.queues| - v
  {
    hide Insert, Refuses;
    if v < |st.queues| && Refuses(st, v, r) {
      LowestCard(st, v + 1, r, excluded, now);
    }
  }

  // A single recording that is accepted is nevertheless lost exactly when the
  // card it was accepted on was full.
  lemma AcceptedYetLost(st: State, v: nat, r: Entry, excluded: seq<int>, now: int)
    requires WellFormed(st) && v < |st.queues| && !r.recurrence && !Refuses(st, v, r)
    ensures var (t, outcome) := Insert(st, v, r, excluded, now);
            && outcome == Inserted(st.nextSeq)
            && (t.queues == st.queues <==> |st.queues[v]| == st.maxEntries)
  {
    hide Overlapping, SortByStart;
    var es := NewEntries(r, now, st.nextSeq, st.nextId, excluded);
    assert es[1..] == [];
    assert AppendAll(st.queues[v], es, st.maxEntries) == Append(st.queues[v], es[0], st.maxEntries);
  }

  // ---------------------------------------------------------------------
  // Deleting refines filtering

  lemma MovedLast(q: seq<Entry>, i: nat)
    requires i < |q|
    ensures multiset(q[i := q[|q| - 1]][..|q| - 1]) == multiset(q[..i] + q[i + 1..])
  {
    var n := |q| - 1;
    if i < n {
      assert q[i := q[n]][..n] == q[..i] + [q[n]] + q[i + 1..n];
      assert q[..i] + q[i + 1..] == q[..i] + q[i + 1..n] + [q[n]];
    } else {
      assert q[i := q[n]][..n] == q[..i] + q[i + 1..];
    }
  }

  // Moving the last entry into the gap and sorting leaves the queue as if the
  // entry had simply been taken out.
  lemma DeleteAtRemoves(q: seq<Entry>, i: nat)
    requires StrictlySorted(q) && i < |q|
    ensures DeleteAt(q, i) == q[..i] + q[i + 1..]
  {
    var moved, kept := q[i := q[|q| - 1]][..|q| - 1], q[..i] + q[i + 1..];
    assert StrictlySorted(kept);
    hide StrictlySorted;
    MovedLast(q, i);
    SortCorrect(moved);
    SortIsUnique(SortByStart(moved), kept);
  }

  // Others keeps the order: it is the queue with the series filtered out.
  lemma {:induction false} OthersMembers(q: seq<Entry>, id: int)
    ensures forall e :: e in Others(q, id) <==> e in q && e.id != id
    decreases |q|
  {
    if q != [] {
      OthersMembers(q[1..], id);
      assert q == [q[0]] + q[1..];
    }
  }

  lemma {:induction false} OthersSeparated(q: seq<Entry>, id: int)
    requires Separated(q)
    ensures Separated(Others(q, id))
    decreases |q|
  {
    if q != [] {
      OthersSeparated(q[1..], id);
      OthersMembers(q[1..], id);
      var p := Others(q[1..], id);
      hide Others;
      forall j | 0 <= j < |p|
        ensures Before(q[0].Time(), p[j].Time())
      {
        assert p[j] in q[1..];
      }
    }
  }

  lemma {:induction false} OthersStrict(q: seq<Entry>, id: int)
    requires StrictlySorted(q)
    ensures StrictlySorted(Others(q, id))
    decreases |q|
  {
    if q != [] {
      OthersStrict(q[1..], id);
      OthersMembers(q[1..], id);
    }
  }

  lemma DeleteSeriesFilters(q: seq<Entry>, id: int)
    requires StrictlySorted(q)
    ensures SortByStart(Others(q, id)) == Others(q, id)
  {
    OthersStrict(q, id);
    SortedIsFixed(Others(q, id));
  }

  lemma RemovalKeepsCard(q: seq<Entry>, o: Option<Entry>, i: nat)
    requires CardOk(q, o) && i < |q|
    ensures CardOk(DeleteAt(q, i), o)
  {
    hide DeleteAt;
    SeparatedIsStrict(q);
    DeleteAtRemoves(q, i);
  }

  lemma DeleteKeepsBooked(st: State, seqnbr: int, allRecurrences: bool)
    requires Booked(st)
    ensures Booked(Delete(st, seqnbr, allRecurrences).0)
  {
    hide DeleteAt, Others, SortByStart, AddExcluded, Separated;
    var v := CardOf(st.queues, seqnbr, 0);
    if v < |st.queues| {
      var q, o := st.queues[v], st.ongoing[v];
      var i := IndexOf(q, seqnbr);
      RemovalKeepsCard(q, o, i);
      SeparatedIsStrict(q);
      OthersMembers(q, q[i].id);
      OthersSeparated(q, q[i].id);
      DeleteSeriesFilters(q, q[i].id);
      forall j | 0 <= j < |Others(q, q[i].id)| && o.Some?
        ensures ApartFrom(o.value.Time(), Others(q, q[i].id)[j].Time())
      {
        assert Others(q, q[i].id)[j] in q;
      }
    }
  }

  // ---------------------------------------------------------------------
  // The tick

  lemma TickKeepsCard(q: seq<Entry>, o: Option<Entry>, now: int, resolution: int)
    requires CardOk(q, o)
    ensures CardOk(TickQueue(q, o, now, resolution), TickOngoing(q, o, now, resolution))
    ensures |TickQueue(q, o, now, resolution)| <= |q|
  {
    hide DeleteAt;
    if q != [] {
      SeparatedIsStrict(q);
      DeleteAtRemoves(q, 0);
    }
  }

  lemma TickKeepsBooked(st: State, now: int, resolution: int)
    requires Booked(st)
    ensures Booked(Tick(st, now, resolution))
  {
    hide TickQueue, TickOngoing, CardOk;
    forall v | 0 <= v < |st.queues|
      ensures CardOk(Tick(st, now, resolution).queues[v], Tick(st, now, resolution).ongoing[v])
      ensures |Tick(st, now, resolution).queues[v]| <= st.maxEntries
    {
      TickKeepsCard(st.queues[v], st.ongoing[v], now, resolution);
    }
  }

  // ---------------------------------------------------------------------
  // Whole runs

  // The critical sections under recs_mutex, each one step.  A request names a
  // card (the "_inp" channels) or takes the first that will have it; the list
  // of excluded numbers is empty unless the request comes from the file.
  datatype Op =
    | Add(request: Entry, wanted: Option<nat>, excluded: seq<int>, now: int)
    | Remove(seqnbr: int, allRecurrences: bool)
    | TickAt(now: int)
    | Finish(card: nat)

  function Step(st: State, op: Op, resolution: int): (r: State)
    requires WellFormed(st)
    ensures SameCards(r, st)
  {
    match op
    case Add(r, card, excluded, now) =>
      if card.None? then InsertFirstFit(st, 0, r, excluded, now).0
      else if card.value < |st.queues| then Insert(st, card.value, r, excluded, now).0
      else st
    case Remove(seqnbr, allRecurrences) => Delete(st, seqnbr, allRecurrences).0
    case TickAt(now) => Tick(st, now, resolution)
    case Finish(card) => if card < |st.queues| then Release(st, card) else st
  }

  lemma {:induction false} FirstFitKeepsBooked(st: State, v: nat, r: Entry, excluded: seq<int>, now: int)
    requires Booked(st) && v <= |st.queues| && Regular(r, now)
    ensures Booked(InsertFirstFit(st, v, r, excluded, now).0)
    decreases |st.queues| - v
  {
    hide CardOk, Insert, Regular, Overlapping;
    if v < |st.queues| {
      InsertKeepsBooked(st, v, r, excluded, now);
      FirstFitKeepsBooked(st, v + 1, r, excluded, now);
    }
  }

  predicate RegularOp(op: Op) {
    op.Add? ==> Regular(op.request, op.now)
  }

  lemma StepKeepsBooked(st: State, op: Op, resolution: int)
    requires Booked(st) && RegularOp(op)
    ensures Booked(Step(st, op, resolution))
  {
    hide CardOk, Insert, InsertFirstFit, Delete, Tick, Regular;
    match op
    case Add(r, card, excluded, now) =>
      FirstFitKeepsBooked(st, 0, r, excluded, now);
      if card.Some? && card.value < |st.queues| {
        InsertKeepsBooked(st, card.value, r, excluded, now);
      }
    case Remove(seqnbr, allRecurrences) =>
      DeleteKeepsBooked(st, seqnbr, allRecurrences);
    case TickAt(now) =>
      TickKeepsBooked(st, now, resolution);
    case Finish(card) =>
      FinishKeepsBooked(st, card);
  }

  lemma FinishKeepsBooked(st: State, card: nat)
    requires Booked(st)
    ensures card < |st.queues| ==> Booked(Release(st, card))
  {
    hide Separated;
  }

  function Run(st: State, ops: seq<Op>, resolution: int): (r: State)
    requires WellFormed(st)
    ensures SameCards(r, st)
    decreases |ops|
  {
    if ops == [] then st else Run(Step(st, ops[0], resolution), ops[1..], resolution)
  }

  lemma {:induction false} RunKeepsBooked(st: State, ops: seq<Op>, resolution: int)
    requires Booked(st) && forall k :: 0 <= k < |ops| ==> RegularOp(ops[k])
    ensures Booked(Run(st, ops, resolution))
    decreases |ops|
  {
    hide CardOk, Step, RegularOp;
    if ops != [] {
      StepKeepsBooked(st, ops[0], resolution);
      RunKeepsBooked(Step(st, ops[0], resolution), ops[1..], resolution);
    }
  }

  // From start-up on, whatever clients ask for and whenever ticks and endings
  // come: no two recordings pending or ongoing on a card share a moment, and
  // every queue is in strict order of start.
  lemma NoDoubleBooking(cards: nat, maxEntries: nat, ops: seq<Op>, resolution: int, v: nat)
    requires forall k :: 0 <= k < |ops| ==> RegularOp(ops[k])
    requires v < cards
    ensures var st := Run(Empty(cards, maxEntries), ops, resolution);
            && StrictlySorted(st.queues[v])
            && (forall i, j :: 0 <= i < j < |st.queues[v]| ==> !Meets(st.queues[v][i].Time(), st.queues[v][j].Time()))
            && (st.ongoing[v].Some? ==>
                forall i :: 0 <= i < |st.queues[v]| ==> !Meets(st.ongoing[v].value.Time(), st.queues[v][i].Time()))
  {
    hide Run, RegularOp, StrictlySorted, Meets, Proper;
    var st := Run(Empty(cards, maxEntries), ops, resolution);
    RunKeepsBooked(Empty(cards, maxEntries), ops, resolution);
    var q, o := st.queues[v], st.ongoing[v];
    assert CardOk(q, o);
    SeparatedIsStrict(q);
    forall i, j | 0 <= i < j < |q|
      ensures !Meets(q[i].Time(), q[j].Time())
    {
      MeetsOrApart(q[i].Time(), q[j].Time());
    }
    forall i | 0 <= i < |q| && o.Some?
      ensures !Meets(o.value.Time(), q[i].Time())
    {
      MeetsOrApart(o.value.Time(), q[i].Time());
    }
  }
}
