// What holds of series through restarts as well, which forget the deleted
// numbers: dates by number, one card each, and no number both pending and
// deleted.
module KeptSeries {
  import opened Calendar
  import opened Recurrence
  import opened Series
  import opened Schedule
  import opened Booking
  import opened Episodes

  ghost predicate CardKept(q: seq<Entry>, table: seq<Excluded>, nextId: int) {
    && CardNumbers(q, nextId)
    && (forall a :: a in q && a.recurrence ==> a.number !in ExcludedItems(table, a.id))
  }

  ghost predicate Kept(st: State) {
    && Booked(st)
    && TableOk(st.excluded, st.nextId)
    && OneCardEach(st.queues)
    && (forall v :: 0 <= v < |st.queues| ==> CardKept(st.queues[v], st.excluded, st.nextId))
  }

  lemma SeriesIsKept(q: seq<Entry>, table: seq<Excluded>, nextId: int)
    requires CardSeries(q, table, nextId)
    ensures CardKept(q, table, nextId)
  {
    hide Follows, Steady, Weekday, Admissible;
    forall a | a in q && a.recurrence
      ensures a.number !in ExcludedItems(table, a.id)
    {
      assert Covered(q, table, a) && Renewable(a, nextId);
      assert HasEpisode(q, a.id, a.number);
    }
  }

  lemma OkIsKept(st: State)
    requires SeriesOk(st)
    ensures Kept(st)
  {
    hide CardSeries, CardKept, CardOk, OneCardEach, TableOk;
    forall v | 0 <= v < |st.queues|
      ensures CardKept(st.queues[v], st.excluded, st.nextId)
    {
      SeriesIsKept(st.queues[v], st.excluded, st.nextId);
    }
  }

  lemma KeptSubset(p: seq<Entry>, q: seq<Entry>, table: seq<Excluded>, nextId: int)
    requires CardKept(q, table, nextId) && forall e :: e in p ==> e in q
    ensures CardKept(p, table, nextId)
  {
    hide Renewable, Follows;
  }

  // ---------------------------------------------------------------------
  // Series without their last numbers

  // Once a number is excluded, so are all behind it.
  predicate AtEnd(a: Entry, items: seq<int>) {
    forall m, n :: a.number <= m < n < a.number + a.num && m in items ==> n in items
  }

  // The first number from the i-th on that is excluded, counted from a's own.
  function Left(a: Entry, i: nat, items: seq<int>): (k: nat)
    requires i <= a.num
    ensures i <= k <= a.num
    ensures forall n :: a.number + i <= n < a.number + k ==> n !in items
    ensures k < a.num ==> a.number + k in items
    decreases a.num - i
  {
    if i == a.num || a.number + i in items then i else Left(a, i + 1, items)
  }

  lemma {:induction false} AllSkipped(r: Entry, x: Span, i: nat, seqnbr: int, id: int, excluded: seq<int>)
    requires i <= r.num && forall n :: r.number + i <= n < r.number + r.num ==> n in excluded
    ensures Unroll(r, x, i, seqnbr, id, excluded) == []
    decreases r.num - i
  {
    if i < r.num {
      AllSkipped(r, x, i + 1, seqnbr, id, excluded);
    }
  }

  // Such a series is unrolled up to there, every date where its number asks.
  lemma {:induction false} UnrollAtEnd(r: Entry, x: Span, i: nat, seqnbr: int, id: int, excluded: seq<int>)
    requires i <= r.num && Known(r.rtype) && AtEnd(r, excluded)
    ensures var es := Unroll(r, x, i, seqnbr, id, excluded);
            && |es| == Left(r, i, excluded) - i
            && forall k :: 0 <= k < |es| ==> es[k] == Occurrence(r, Nth(r.rtype, x, k), i + k, seqnbr + k, id)
    decreases r.num - i
  {
    hide Next, AtEnd;
    if i < r.num {
      if r.number + i in excluded {
        SkippedAtEnd(r, x, i, seqnbr, id, excluded);
      } else {
        UnrollAtEnd(r, Next(r.rtype, x), i + 1, seqnbr + 1, id, excluded);
      }
    }
  }

  lemma SkippedAtEnd(r: Entry, x: Span, i: nat, seqnbr: int, id: int, excluded: seq<int>)
    requires i < r.num && AtEnd(r, excluded) && r.number + i in excluded
    ensures Unroll(r, x, i, seqnbr, id, excluded) == []
  {
    hide Unroll;
    AllSkipped(r, x, i, seqnbr, id, excluded);
  }

  // ---------------------------------------------------------------------
  // Steps keep it

  lemma NewSeriesKept(p: seq<Entry>, q: seq<Entry>, table: seq<Excluded>, id: int, r: Entry, now: int, seqnbr: int,
                      excluded: seq<int>)
    requires CardKept(q, table, id) && TableOk(table, id) && Regular(r, now) && r.recurrence && AtEnd(r, excluded)
    requires forall e :: e in p ==> e in q || e in Unroll(r, r.Time(), 0, seqnbr, id, excluded)
    ensures CardKept(p, table, id + 1)
  {
    hide Follows, Regular, Unroll, Nth, TableOk, AtEnd, Renewable;
    var es := Unroll(r, r.Time(), 0, seqnbr, id, excluded);
    NoItemsYet(table, id);
    forall e | e in es
      ensures Renewable(e, id + 1) && e.id == id
      ensures forall d :: d in es ==> Follows(e, d)
    {
      NewEpisode(r, now, seqnbr, id, table, excluded, e);
    }
    forall e | e in q
      ensures Renewable(e, id + 1) && (e.recurrence ==> e.id < id)
    {
      LaterRenewable(e, id);
    }
    forall a, b | a in p && b in p && SameSeries(a, b)
      ensures Follows(a, b)
    {
      if a !in q || b !in q {
        assert a in es && b in es;
      }
    }
  }

  lemma LaterRenewable(e: Entry, id: int)
    requires Renewable(e, id)
    ensures Renewable(e, id + 1) && (e.recurrence ==> e.id < id)
  {
    hide Regular;
  }

  // An episode of a new series, by itself and against the others.
  lemma NewEpisode(r: Entry, now: int, seqnbr: int, id: int, table: seq<Excluded>, excluded: seq<int>, e: Entry)
    requires TableOk(table, id) && Regular(r, now) && r.recurrence && AtEnd(r, excluded)
    requires e in Unroll(r, r.Time(), 0, seqnbr, id, excluded)
    ensures Renewable(e, id + 1) && e.id == id
    ensures forall d :: d in Unroll(r, r.Time(), 0, seqnbr, id, excluded) ==> Follows(e, d)
  {
    hide Follows, Regular, Unroll, Nth, TableOk, AtEnd;
    var es := Unroll(r, r.Time(), 0, seqnbr, id, excluded);
    RegularIsKnown(r, now);
    UnrollAtEnd(r, r.Time(), 0, seqnbr, id, excluded);
    TablePositive(table, id);
    var j :| 0 <= j < |es| && es[j] == e;
    OccurrenceIsRegular(r, now, j, seqnbr + j, id);
    forall d | d in es
      ensures Follows(e, d)
    {
      var k :| 0 <= k < |es| && es[k] == d;
      NewSeriesFollows(r, now, j, k, seqnbr, id);
    }
  }

  lemma LaterIdKept(q: seq<Entry>, table: seq<Excluded>, nextId: int)
    requires CardKept(q, table, nextId)
    ensures CardKept(q, table, nextId + 1)
  {
    hide Follows, Regular;
    forall e | e in q
      ensures Renewable(e, nextId + 1)
    {
      assert Renewable(e, nextId);
    }
  }

  lemma NewSingleKept(p: seq<Entry>, q: seq<Entry>, table: seq<Excluded>, nextId: int, e: Entry)
    requires CardKept(q, table, nextId) && !e.recurrence && Renewable(e, nextId)
    requires forall x :: x in p ==> x in q || x == e
    ensures CardKept(p, table, nextId)
  {
    hide Follows, Renewable;
  }

  // What an insert puts on its card; all else is as it was.
  lemma InsertedMembers(st: State, v: nat, r: Entry, excluded: seq<int>, now: int)
    requires Booked(st) && v < |st.queues| && Regular(r, now) && !Refuses(st, v, r)
    ensures var t := Insert(st, v, r, excluded, now).0;
            && t == st.(queues := st.queues[v := t.queues[v]], nextSeq := t.nextSeq,
                        nextId := if r.recurrence then st.nextId + 1 else st.nextId)
            && forall e :: e in t.queues[v] && e !in st.queues[v] ==>
                 if r.recurrence then e in Unroll(r, r.Time(), 0, st.nextSeq, st.nextId, excluded)
                 else e == r.(seqnbr := st.nextSeq)
  {
    hide Overlapping, Unroll, AppendAll, CardOk;
    if r.recurrence {
      RegularIsKnown(r, now);
      AdjustedIsIdentity(r.rtype, r.Time(), now);
    }
    hide Regular, Adjusted;
    AppendAllMembers(st.queues[v], NewEntries(r, now, st.nextSeq, st.nextId, excluded), st.maxEntries);
  }

  lemma InsertKeepsKept(st: State, v: nat, r: Entry, excluded: seq<int>, now: int)
    requires Kept(st) && v < |st.queues| && Regular(r, now) && r.id == 0 && (r.recurrence ==> AtEnd(r, excluded))
    ensures Kept(Insert(st, v, r, excluded, now).0)
  {
    hide CardKept, Regular, Unroll, CardOk, Insert, Overlapping, Refuses, TableOk, OneCardEach, AtEnd;
    if Refuses(st, v, r) {
      RefusedChangesNothing(st, v, r, excluded, now);
    } else {
      InsertKeepsBooked(st, v, r, excluded, now);
      InsertedMembers(st, v, r, excluded, now);
      var t := Insert(st, v, r, excluded, now).0;
      var p, q := t.queues[v], st.queues[v];
      assert CardKept(q, st.excluded, st.nextId);
      if r.recurrence {
        NewSeriesKept(p, q, st.excluded, st.nextId, r, now, st.nextSeq, excluded);
        LaterTable(st.excluded, st.nextId);
      } else {
        SingleIsRenewable(r, now, st.nextSeq, st.nextId);
        NewSingleKept(p, q, st.excluded, st.nextId, r.(seqnbr := st.nextSeq));
      }
      forall w | 0 <= w < |t.queues|
        ensures CardKept(t.queues[w], t.excluded, t.nextId)
      {
        assert CardKept(st.queues[w], st.excluded, st.nextId);
        if w != v && r.recurrence {
          LaterIdKept(st.queues[w], st.excluded, st.nextId);
        }
      }
      forall w | 0 <= w < |st.queues|
        ensures IdsBelow(st.queues[w], st.nextId)
      {
        KeptIdsBelow(st.queues[w], st.excluded, st.nextId);
      }
      NewIdKept(st, v, r, excluded, now);
    }
  }

  lemma LaterTable(table: seq<Excluded>, nextId: int)
    requires TableOk(table, nextId)
    ensures TableOk(table, nextId + 1)
  {
  }

  // Ids yet to be given out are new.
  ghost predicate IdsBelow(q: seq<Entry>, nextId: int) {
    forall e :: e in q && e.recurrence ==> e.id < nextId
  }

  lemma KeptIdsBelow(q: seq<Entry>, table: seq<Excluded>, nextId: int)
    requires CardKept(q, table, nextId)
    ensures IdsBelow(q, nextId)
  {
    forall e | e in q && e.recurrence
      ensures e.id < nextId
    {
      assert Renewable(e, nextId);
    }
  }

  lemma NewIdKept(st: State, v: nat, r: Entry, excluded: seq<int>, now: int)
    requires Booked(st) && OneCardEach(st.queues) && v < |st.queues| && Regular(r, now) && !Refuses(st, v, r)
    requires forall w :: 0 <= w < |st.queues| ==> IdsBelow(st.queues[w], st.nextId)
    ensures OneCardEach(Insert(st, v, r, excluded, now).0.queues)
  {
    hide Regular, Unroll, CardOk, Insert, Follows, Refuses;
    InsertedMembers(st, v, r, excluded, now);
    var t := Insert(st, v, r, excluded, now).0;
    forall e | e in Unroll(r, r.Time(), 0, st.nextSeq, st.nextId, excluded)
      ensures e.id == st.nextId
    {
      UnrolledEntry(r, r.Time(), 0, st.nextSeq, st.nextId, excluded, e);
    }
    forall x, y, a, b | 0 <= x < y < |t.queues| && a in t.queues[x] && b in t.queues[y]
      ensures !SameSeries(a, b)
    {
      if x == v && a !in st.queues[x] {
        assert b in st.queues[y] && IdsBelow(st.queues[y], st.nextId);
      } else if y == v && b !in st.queues[y] {
        assert a in st.queues[x] && IdsBelow(st.queues[x], st.nextId);
      }
    }
  }

  lemma {:induction false} UnrolledEntry(r: Entry, x: Span, i: nat, seqnbr: int, id: int, excluded: seq<int>, d: Entry)
    requires i <= r.num && d in Unroll(r, x, i, seqnbr, id, excluded)
    ensures d.recurrence == r.recurrence && d.id == id && r.number + i <= d.number
    decreases r.num - i
  {
    hide Next;
    if r.number + i in excluded {
      UnrolledEntry(r, x, i + 1, seqnbr, id, excluded, d);
    } else if d != Occurrence(r, x, i, seqnbr, id) {
      UnrolledEntry(r, Next(r.rtype, x), i + 1, seqnbr + 1, id, excluded, d);
    }
  }

  lemma UnrolledInOrder(r: Entry, x: Span, seqnbr: int, id: int, excluded: seq<int>)
    requires 1 <= r.rtype <= 9
    ensures var es := Unroll(r, x, 0, seqnbr, id, excluded); |es| <= r.num && StrictlySorted(es)
  {
    hide Unroll, Nth;
    UnrollTimes(r, x, 0, seqnbr, id, excluded);
    var es := Unroll(r, x, 0, seqnbr, id, excluded);
    forall i, j | 0 <= i < j < |es|
      ensures es[i].start < es[j].start
    {
      assert es[i].Time() == Nth(r.rtype, x, i) && es[j].Time() == Nth(r.rtype, x, j);
      NthAdd(r.rtype, x, i, j - i);
      NthLater(r.rtype, Nth(r.rtype, x, i), j - i);
    }
  }

  // An entry taken out, its number recorded.
  lemma WithoutOneKept(p: seq<Entry>, q: seq<Entry>, d: Entry, table: seq<Excluded>, table': seq<Excluded>, nextId: int)
    requires CardKept(q, table, nextId) && d in q && d.recurrence && forall e :: e in p ==> e in q && e != d
    requires forall id :: ExcludedItems(table', id) == ExcludedItems(table, id) + if id == d.id then [d.number] else []
    ensures CardKept(p, table', nextId)
  {
    hide Renewable, Nth;
    forall a | a in p && a.recurrence
      ensures a.number !in ExcludedItems(table', a.id)
    {
      if a.id == d.id {
        assert Follows(a, d);
        assert ExcludedItems(table', a.id) == ExcludedItems(table, a.id) + [d.number];
      } else {
        assert ExcludedItems(table', a.id) == ExcludedItems(table, a.id) + [];
      }
    }
  }

  lemma OtherCardsKept(q: seq<Entry>, table: seq<Excluded>, table': seq<Excluded>, id: int, nextId: int)
    requires CardKept(q, table, nextId)
    requires forall e :: e in q && e.recurrence ==> e.id != id
    requires forall x :: x != id ==> ExcludedItems(table', x) == ExcludedItems(table, x)
    ensures CardKept(q, table', nextId)
  {
    hide CardNumbers;
  }

  lemma DeleteKeepsKept(st: State, seqnbr: int, allRecurrences: bool)
    requires Kept(st)
    ensures Kept(Delete(st, seqnbr, allRecurrences).0)
  {
    hide CardKept, CardOk, OneCardEach, TableOk, Others, DeleteAt, SortByStart, AddExcluded;
    DeleteKeepsBooked(st, seqnbr, allRecurrences);
    var v := CardOf(st.queues, seqnbr, 0);
    if v < |st.queues| {
      var q, t := st.queues[v], Delete(st, seqnbr, allRecurrences).0;
      var i := IndexOf(q, seqnbr);
      var d := q[i];
      CardIsStrict(st, v);
      assert CardKept(q, st.excluded, st.nextId);
      if d.recurrence && allRecurrences {
        DeleteSeriesFilters(q, d.id);
        OthersMembers(q, d.id);
        KeptSubset(Others(q, d.id), q, st.excluded, st.nextId);
        FewerOnOneCardEach(st.queues, v, Others(q, d.id));
      } else {
        var p := q[..i] + q[i + 1..];
        DeleteAtRemoves(q, i);
        UniqueEntry(q, i);
        FewerOnOneCardEach(st.queues, v, p);
        if d.recurrence {
          forall id
            ensures ExcludedItems(t.excluded, id)
                 == ExcludedItems(st.excluded, id) + if id == d.id then [d.number] else []
          {
            AddedItem(st.excluded, d.id, d.number, id);
          }
          KeptIdBelow(q, i, st.excluded, st.nextId);
          AddedRows(st.excluded, d.id, d.number, st.nextId);
          WithoutOneKept(p, q, d, st.excluded, t.excluded, st.nextId);
        } else {
          KeptSubset(p, q, st.excluded, st.nextId);
        }
      }
      forall w | 0 <= w < |t.queues|
        ensures CardKept(t.queues[w], t.excluded, t.nextId)
      {
        assert CardKept(st.queues[w], st.excluded, st.nextId);
        if w != v && t.excluded != st.excluded {
          NotOnCard(st.queues, v, w, d);
          OtherCardsKept(st.queues[w], st.excluded, t.excluded, d.id, st.nextId);
        }
      }
    }
  }

  lemma KeptIdBelow(q: seq<Entry>, i: nat, table: seq<Excluded>, nextId: int)
    requires CardKept(q, table, nextId) && i < |q| && q[i].recurrence
    ensures q[i].id < nextId
  {
    assert Renewable(q[i], nextId);
  }

  lemma TickKeepsKept(st: State, now: int, resolution: int)
    requires Kept(st)
    ensures Kept(Tick(st, now, resolution))
  {
    hide CardKept, CardOk, TableOk, TickQueue, TickOngoing;
    TickKeepsBooked(st, now, resolution);
    var t := Tick(st, now, resolution);
    forall v | 0 <= v < |st.queues|
      ensures CardKept(t.queues[v], st.excluded, st.nextId)
      ensures forall e :: e in t.queues[v] ==> e in st.queues[v]
    {
      CardIsStrict(st, v);
      TickTakesFrom(st.queues[v], st.ongoing[v], now, resolution);
      KeptSubset(t.queues[v], st.queues[v], st.excluded, st.nextId);
    }
  }

  lemma TickTakesFrom(q: seq<Entry>, o: Option<Entry>, now: int, resolution: int)
    requires StrictlySorted(q)
    ensures forall e :: e in TickQueue(q, o, now, resolution) ==> e in q
  {
    hide DeleteAt, StrictlySorted;
    if q != [] {
      DeleteAtRemoves(q, 0);
    }
  }

  lemma StepKeepsKept(st: State, op: Op, resolution: int)
    requires Kept(st) && ClientOp(op)
    ensures Kept(Step(st, op, resolution))
  {
    hide CardKept, CardOk, OneCardEach, TableOk, Insert, InsertFirstFit, Delete, Tick, Regular, Refuses;
    match op
    case Add(r, wanted, excluded, now) =>
      LowestCard(st, 0, r, excluded, now);
      var v := if wanted.Some? then wanted.value else CardFor(st, r, 0);
      if v < |st.queues| {
        InsertKeepsKept(st, v, r, [], now);
      }
    case Remove(seqnbr, allRecurrences) => DeleteKeepsKept(st, seqnbr, allRecurrences);
    case TickAt(now) => TickKeepsKept(st, now, resolution);
    case Finish(card) => FinishKeepsBooked(st, card);
  }

  lemma KeptIsWellFormed(st: State)
    requires Kept(st)
    ensures WellFormed(st)
  {
  }

  lemma {:induction false} RunKeepsKept(st: State, ops: seq<Op>, resolution: int)
    requires Kept(st) && forall k :: 0 <= k < |ops| ==> ClientOp(ops[k])
    ensures Kept(Run(st, ops, resolution))
    decreases |ops|
  {
    hide Kept, ClientOp, Step;
    if ops != [] {
      KeptIsWellFormed(st);
      StepKeepsKept(st, ops[0], resolution);
      RunKeepsKept(Step(st, ops[0], resolution), ops[1..], resolution);
    }
  }
}
