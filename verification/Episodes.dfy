// The numbers and dates of what is left of a series.
module Episodes {
  import opened Calendar
  import opened Recurrence
  import opened Series
  import opened Schedule
  import opened Booking
  import opened Ledger

  predicate SameSeries(a: Entry, b: Entry) {
    a.recurrence && b.recurrence && a.id == b.id
  }

  // b is the later or equal episode of a's series that its number says it is.
  predicate Follows(a: Entry, b: Entry) {
    && b.rtype == a.rtype && b.program == a.program
    && b.number + b.num == a.number + a.num
    && (a.number == b.number ==> a == b)
    && (a.number <= b.number ==> b.Time() == Nth(a.rtype, a.Time(), b.number - a.number))
  }

  ghost predicate HasEpisode(q: seq<Entry>, id: int, number: int) {
    exists e :: e in q && e.recurrence && e.id == id && e.number == number
  }

  // From a's own number to the last of its series: pending or excluded, never
  // both and never neither.
  ghost predicate Covered(q: seq<Entry>, table: seq<Excluded>, a: Entry) {
    forall n :: a.number <= n < a.number + a.num ==> (HasEpisode(q, a.id, n) <==> n !in ExcludedItems(table, a.id))
  }

  // Every entry could be asked for anew as it stands.
  predicate Renewable(e: Entry, nextId: int) {
    && Regular(e, e.start)
    && (if e.recurrence then 1 <= e.id < nextId else e.id == 0)
  }

  // Dates and numbers agree, within each series.
  ghost predicate CardNumbers(q: seq<Entry>, nextId: int) {
    && (forall e :: e in q ==> Renewable(e, nextId))
    && (forall a, b :: a in q && b in q && SameSeries(a, b) ==> Follows(a, b))
  }

  ghost predicate CardSeries(q: seq<Entry>, table: seq<Excluded>, nextId: int) {
    && CardNumbers(q, nextId)
    && (forall a :: a in q && a.recurrence ==> Covered(q, table, a))
  }

  // A series lives on one card only.
  ghost predicate OneCardEach(queues: seq<seq<Entry>>) {
    forall v, w, a, b :: 0 <= v < w < |queues| && a in queues[v] && b in queues[w] ==> !SameSeries(a, b)
  }

  predicate TableOk(table: seq<Excluded>, nextId: int) {
    1 <= nextId && forall i :: 0 <= i < |table| ==> table[i].id < nextId
  }

  ghost predicate SeriesOk(st: State) {
    && Booked(st)
    && TableOk(st.excluded, st.nextId)
    && OneCardEach(st.queues)
    && (forall v :: 0 <= v < |st.queues| ==> CardSeries(st.queues[v], st.excluded, st.nextId))
  }

  // ---------------------------------------------------------------------
  // The exclusion table

  lemma {:induction false} AddedItem(table: seq<Excluded>, id: int, number: int, other: int)
    ensures ExcludedItems(AddExcluded(table, id, number), other)
         == ExcludedItems(table, other) + if other == id then [number] else []
    decreases |table|
  {
    if table != [] && table[0].id != id {
      AddedItem(table[1..], id, number, other);
    }
  }

  lemma {:induction false} AddedRows(table: seq<Excluded>, id: int, number: int, nextId: int)
    requires TableOk(table, nextId) && id < nextId
    ensures TableOk(AddExcluded(table, id, number), nextId)
    decreases |table|
  {
    if table != [] && table[0].id != id {
      AddedRows(table[1..], id, number, nextId);
    }
  }

  lemma {:induction false} NoItemsYet(table: seq<Excluded>, id: int)
    requires TableOk(table, id)
    ensures ExcludedItems(table, id) == []
    decreases |table|
  {
    if table != [] {
      NoItemsYet(table[1..], id);
    }
  }

  // ---------------------------------------------------------------------
  // Order of start is order of number

  lemma NumbersFollowStarts(a: Entry, b: Entry)
    requires Follows(b, a) && 1 <= b.rtype <= 9 && a.start < b.start
    ensures a.number < b.number
  {
    hide Nth;
    if b.number <= a.number {
      NthLater(b.rtype, b.Time(), a.number - b.number);
    }
  }

  // ---------------------------------------------------------------------
  // A new series

  lemma OccurrenceIsRegular(r: Entry, now: int, k: nat, seqnbr: int, id: int)
    requires Regular(r, now) && r.recurrence && k < r.num
    ensures var e := Occurrence(r, Nth(r.rtype, r.Time(), k), k, seqnbr, id); Regular(e, e.start)
  {
    hide Nth, Weekday, Admissible, EqualMonths;
    var y := Nth(r.rtype, r.Time(), k);
    SteadyLength(r.rtype, r.Time(), r.num, k);
    NthAdmissible(r.rtype, r.Time(), k);
    forall n | 0 <= n < r.num - k - 1 && r.rtype == 3
      ensures EqualMonths(Nth(r.rtype, y, n))
    {
      NthAdd(r.rtype, r.Time(), k, n);
    }
  }

  // Without exclusions, the k-th entry is the k-th occurrence.
  lemma {:induction false} UnrollPlain(r: Entry, x: Span, i: nat, seqnbr: int, id: int, excluded: seq<int>)
    requires i <= r.num && Known(r.rtype)
    requires forall n :: r.number + i <= n < r.number + r.num ==> n !in excluded
    ensures var es := Unroll(r, x, i, seqnbr, id, excluded);
            && |es| == r.num - i
            && forall k :: 0 <= k < |es| ==> es[k] == Occurrence(r, Nth(r.rtype, x, k), i + k, seqnbr + k, id)
    decreases r.num - i
  {
    hide Next;
    if i < r.num {
      UnrollPlain(r, Next(r.rtype, x), i + 1, seqnbr + 1, id, excluded);
    }
  }

  lemma NewSeriesFollows(r: Entry, now: int, j: nat, k: nat, seqnbr: int, id: int)
    requires Regular(r, now) && r.recurrence && j < r.num && k < r.num
    ensures Follows(Occurrence(r, Nth(r.rtype, r.Time(), j), j, seqnbr + j, id),
                    Occurrence(r, Nth(r.rtype, r.Time(), k), k, seqnbr + k, id))
  {
    hide Nth, Regular;
    if j <= k {
      NthAdd(r.rtype, r.Time(), j, k - j);
    }
  }

  // The queue p is q with the entries es put in.
  ghost predicate Joined(p: seq<Entry>, q: seq<Entry>, es: seq<Entry>) {
    forall e :: e in p <==> e in q || e in es
  }

  lemma JoinedByAppendAll(q: seq<Entry>, es: seq<Entry>, maxEntries: nat)
    requires |q| + |es| <= maxEntries
    ensures Joined(AppendAll(q, es, maxEntries), q, es)
  {
    AppendAllPermutes(q, es, maxEntries);
    var p := AppendAll(q, es, maxEntries);
    forall e
      ensures e in p <==> e in q || e in es
    {
      assert e in p <==> e in multiset(p);
    }
  }

  lemma NewSeriesOnCard(p: seq<Entry>, q: seq<Entry>, table: seq<Excluded>, id: int, r: Entry, now: int, seqnbr: int)
    requires CardSeries(q, table, id) && TableOk(table, id) && Regular(r, now) && r.recurrence
    requires Joined(p, q, Unroll(r, r.Time(), 0, seqnbr, id, []))
    ensures CardSeries(p, table, id + 1)
  {
    hide Follows, Regular, Unroll, Nth, TableOk, Covered;
    var es := Unroll(r, r.Time(), 0, seqnbr, id, []);
    RegularIsKnown(r, now);
    UnrollPlain(r, r.Time(), 0, seqnbr, id, []);
    TablePositive(table, id);
    forall e | e in p
      ensures Renewable(e, id + 1)
    {
      if e !in q {
        var k :| 0 <= k < |es| && es[k] == e;
        OccurrenceIsRegular(r, now, k, seqnbr + k, id);
      }
    }
    hide Renewable;
    forall a, b | a in p && b in p && SameSeries(a, b)
      ensures Follows(a, b)
    {
      if a !in q {
        assert b !in q by { OldIds(q, table, id, b); }
        var j :| 0 <= j < |es| && es[j] == a;
        var k :| 0 <= k < |es| && es[k] == b;
        NewSeriesFollows(r, now, j, k, seqnbr, id);
      } else {
        OldIds(q, table, id, a);
      }
    }
    NewSeriesCovered(p, q, table, id, r, seqnbr);
  }

  lemma OldIds(q: seq<Entry>, table: seq<Excluded>, id: int, e: Entry)
    requires CardSeries(q, table, id)
    ensures e in q && e.recurrence ==> e.id != id
  {
    if e in q {
      assert Renewable(e, id);
    }
  }

  lemma NewSeriesCovered(p: seq<Entry>, q: seq<Entry>, table: seq<Excluded>, id: int, r: Entry, seqnbr: int)
    requires CardSeries(q, table, id) && TableOk(table, id) && Known(r.rtype) && r.recurrence
    requires Joined(p, q, Unroll(r, r.Time(), 0, seqnbr, id, []))
    ensures forall a :: a in p && a.recurrence ==> Covered(p, table, a)
  {
    hide Follows, Renewable, Unroll, Nth, TableOk;
    var es := Unroll(r, r.Time(), 0, seqnbr, id, []);
    UnrollPlain(r, r.Time(), 0, seqnbr, id, []);
    NoItemsYet(table, id);
    forall a | a in p && a.recurrence
      ensures Covered(p, table, a)
    {
      if a in q {
        OldIds(q, table, id, a);
        assert Covered(q, table, a);
        SameEpisodes(p, q, a.id);
      } else {
        var j :| 0 <= j < |es| && es[j] == a;
        forall n | a.number <= n < a.number + a.num
          ensures HasEpisode(p, a.id, n)
        {
          assert es[n - r.number] in p;
        }
      }
    }
  }

  lemma RegularIsKnown(r: Entry, now: int)
    requires Regular(r, now) && r.recurrence
    ensures Known(r.rtype)
  {
  }

  lemma TablePositive(table: seq<Excluded>, id: int)
    requires TableOk(table, id)
    ensures 1 <= id
  {
  }

  // Queues that agree on a series have the same episodes of it.
  lemma SameEpisodes(p: seq<Entry>, q: seq<Entry>, id: int)
    requires forall e: Entry :: e.recurrence && e.id == id ==> (e in p <==> e in q)
    ensures forall n :: HasEpisode(p, id, n) <==> HasEpisode(q, id, n)
  {
  }

  lemma NewSingleOnCard(p: seq<Entry>, q: seq<Entry>, table: seq<Excluded>, nextId: int, e: Entry)
    requires CardSeries(q, table, nextId) && !e.recurrence && Renewable(e, nextId)
    requires p == q || Joined(p, q, [e])
    ensures CardSeries(p, table, nextId)
  {
    hide Follows, Renewable;
    forall a | a in p && a.recurrence
      ensures Covered(p, table, a)
    {
      assert a in q && Covered(q, table, a);
      SameEpisodes(p, q, a.id);
    }
  }

  lemma LaterId(q: seq<Entry>, table: seq<Excluded>, nextId: int)
    requires CardSeries(q, table, nextId)
    ensures CardSeries(q, table, nextId + 1)
  {
    hide Follows, Regular;
    forall e | e in q
      ensures Renewable(e, nextId + 1)
    {
      assert Renewable(e, nextId);
    }
    forall a | a in q && a.recurrence
      ensures Covered(q, table, a)
    {
    }
  }

  lemma InsertedEntries(st: State, v: nat, r: Entry, now: int)
    requires Booked(st) && v < |st.queues| && Regular(r, now) && !Refuses(st, v, r)
    ensures var t := Insert(st, v, r, [], now).0;
            var es := if r.recurrence then Unroll(r, r.Time(), 0, st.nextSeq, st.nextId, [])
                      else [r.(seqnbr := st.nextSeq)];
            && ((t.queues[v] == st.queues[v] && !r.recurrence) || Joined(t.queues[v], st.queues[v], es))
            && t == st.(queues := st.queues[v := t.queues[v]], nextSeq := t.nextSeq,
                        nextId := if r.recurrence then st.nextId + 1 else st.nextId)
  {
    hide Overlapping, Unroll, AppendAll, Joined, CardOk;
    NewEntriesCount(r, now, st.nextSeq, st.nextId, []);
    assert r.recurrence ==> Known(r.rtype) && Adjusted(r.rtype, r.Time(), now) == r.Time() by {
      if r.recurrence {
        AdjustedIsIdentity(r.rtype, r.Time(), now);
      }
    }
    hide Regular, Adjusted;
    var es := NewEntries(r, now, st.nextSeq, st.nextId, []);
    if |st.queues[v]| + |es| <= st.maxEntries {
      JoinedByAppendAll(st.queues[v], es, st.maxEntries);
    } else {
      SingleIntoFull(st.queues[v], r, now, st, []);
    }
  }

  lemma InsertKeepsSeries(st: State, v: nat, r: Entry, now: int)
    requires SeriesOk(st) && v < |st.queues| && Regular(r, now) && r.id == 0
    ensures SeriesOk(Insert(st, v, r, [], now).0)
  {
    hide CardSeries, Regular, Unroll, CardOk, Insert, Overlapping;
    if !Refuses(st, v, r) {
      InsertKeepsBooked(st, v, r, [], now);
      InsertedEntries(st, v, r, now);
      var t := Insert(st, v, r, [], now).0;
      var p, q := t.queues[v], st.queues[v];
      if r.recurrence {
        NewSeriesOnCard(p, q, st.excluded, st.nextId, r, now, st.nextSeq);
      } else {
        SingleIsRenewable(r, now, st.nextSeq, st.nextId);
        NewSingleOnCard(p, q, st.excluded, st.nextId, r.(seqnbr := st.nextSeq));
      }
      forall w | 0 <= w < |t.queues|
        ensures CardSeries(t.queues[w], t.excluded, t.nextId)
      {
        assert CardSeries(st.queues[w], st.excluded, st.nextId);
        if w != v && r.recurrence {
          LaterId(st.queues[w], st.excluded, st.nextId);
        }
      }
      NewIdOnOneCard(st, v, r, now);
    } else {
      assert Insert(st, v, r, [], now).0 == st by { RefusedChangesNothing(st, v, r, [], now); }
    }
  }

  lemma RefusedChangesNothing(st: State, v: nat, r: Entry, excluded: seq<int>, now: int)
    requires WellFormed(st) && v < |st.queues| && Refuses(st, v, r)
    ensures Insert(st, v, r, excluded, now) == (st, Refused)
  {
  }

  lemma SingleIsRenewable(r: Entry, now: int, seqnbr: int, nextId: int)
    requires Regular(r, now) && !r.recurrence && r.id == 0
    ensures Renewable(r.(seqnbr := seqnbr), nextId)
  {
  }

  lemma NewIdOnOneCard(st: State, v: nat, r: Entry, now: int)
    requires SeriesOk(st) && v < |st.queues| && Regular(r, now) && !Refuses(st, v, r)
    ensures OneCardEach(Insert(st, v, r, [], now).0.queues)
  {
    hide Regular, Unroll, CardOk, Insert, Follows, Refuses, Covered;
    InsertedEntries(st, v, r, now);
    var t := Insert(st, v, r, [], now).0;
    var es := if r.recurrence then Unroll(r, r.Time(), 0, st.nextSeq, st.nextId, []) else [r.(seqnbr := st.nextSeq)];
    if r.recurrence {
      RegularIsKnown(r, now);
      UnrollPlain(r, r.Time(), 0, st.nextSeq, st.nextId, []);
    }
    forall x, y, a, b | 0 <= x < y < |t.queues| && a in t.queues[x] && b in t.queues[y]
      ensures !SameSeries(a, b)
    {
      if x == v && a !in st.queues[x] {
        assert b in st.queues[y] && Renewable(b, st.nextId);
      } else if y == v && b !in st.queues[y] {
        assert a in st.queues[x] && Renewable(a, st.nextId);
      }
    }
  }

  // ---------------------------------------------------------------------
  // Taking entries away

  lemma UniqueEntry(q: seq<Entry>, i: nat)
    requires StrictlySorted(q) && i < |q|
    ensures forall e :: e in q[..i] + q[i + 1..] <==> e in q && e != q[i]
  {
    assert q == q[..i] + [q[i]] + q[i + 1..];
  }

  // Take one entry out, and let the table account for its number.
  lemma WithoutOne(q: seq<Entry>, i: nat, table: seq<Excluded>, table': seq<Excluded>, nextId: int)
    requires CardSeries(q, table, nextId) && StrictlySorted(q) && i < |q|
    requires var d := q[i];
             if d.recurrence then
               // either its number is recorded, or no later entry of its series looks back at it
               (forall id :: ExcludedItems(table', id)
                             == ExcludedItems(table, id) + if id == d.id then [d.number] else [])
               || (table' == table && i == 0)
             else table' == table
    ensures CardSeries(q[..i] + q[i + 1..], table', nextId)
  {
    hide Renewable;
    var d, p := q[i], q[..i] + q[i + 1..];
    UniqueEntry(q, i);
    forall a | a in p && a.recurrence
      ensures Covered(p, table', a)
    {
      assert Covered(q, table, a);
      if SameSeries(a, d) {
        forall n | a.number <= n < a.number + a.num
          ensures HasEpisode(p, a.id, n) <==> n !in ExcludedItems(table', a.id)
        {
          NumberGone(q, p, a, d, n);
          if table' == table {
            HeadHasLowest(q, a, nextId, table);
          } else {
            assert ExcludedItems(table', a.id) == ExcludedItems(table, a.id) + [d.number];
          }
        }
      } else {
        assert Renewable(a, nextId) && Renewable(d, nextId);
        RecurringIds(a, d, nextId);
        SameEpisodes(p, q, a.id);
        assert ExcludedItems(table', a.id) == ExcludedItems(table, a.id) + [];
      }
    }
  }

  lemma RecurringIds(a: Entry, d: Entry, nextId: int)
    requires Renewable(a, nextId) && Renewable(d, nextId) && a.recurrence && !SameSeries(a, d)
    ensures a.id != d.id
  {
  }

  lemma NumberGone(q: seq<Entry>, p: seq<Entry>, a: Entry, d: Entry, n: int)
    requires a in q && d in q && SameSeries(a, d)
    requires forall e :: e in p <==> e in q && e != d
    requires forall x, y :: x in q && y in q && SameSeries(x, y) ==> Follows(x, y)
    ensures HasEpisode(p, a.id, n) <==> HasEpisode(q, a.id, n) && n != d.number
  {
    hide Nth;
    if HasEpisode(q, a.id, n) {
      var e :| e in q && e.recurrence && e.id == a.id && e.number == n;
      assert Follows(e, d);
    }
    if HasEpisode(p, a.id, n) {
      var e :| e in p && e.recurrence && e.id == a.id && e.number == n;
      assert Follows(e, d);
    }
  }

  // Within a queue, the earlier entry of a series has the lower number.
  lemma EarlierIsLower(q: seq<Entry>, i: nat, j: nat, nextId: int)
    requires CardNumbers(q, nextId) && StrictlySorted(q) && i < j < |q| && SameSeries(q[i], q[j])
    ensures q[i].number < q[j].number
  {
    hide Nth, Admissible, Weekday, Steady, Covered;
    assert Renewable(q[j], nextId) && Follows(q[j], q[i]);
    NumbersFollowStarts(q[i], q[j]);
  }

  lemma HeadHasLowest(q: seq<Entry>, a: Entry, nextId: int, table: seq<Excluded>)
    requires CardSeries(q, table, nextId) && StrictlySorted(q) && a in q && a != q[0] && SameSeries(a, q[0])
    ensures q[0].number < a.number
  {
    hide Renewable, Follows, Covered;
    var j :| 0 <= j < |q| && q[j] == a;
    EarlierIsLower(q, 0, j, nextId);
  }

  // Take a whole series out.
  lemma {:induction false} WithoutSeries(q: seq<Entry>, id: int, table: seq<Excluded>, nextId: int)
    requires CardSeries(q, table, nextId)
    ensures CardSeries(Others(q, id), table, nextId)
  {
    hide Renewable, Follows;
    var p := Others(q, id);
    OthersMembers(q, id);
    forall a | a in p && a.recurrence
      ensures Covered(p, table, a)
    {
      assert Covered(q, table, a);
      SameEpisodes(p, q, a.id);
    }
  }

  // Episodes of other series are accounted for as before when a number of
  // series id is added to the table.
  lemma OtherCards(q: seq<Entry>, table: seq<Excluded>, table': seq<Excluded>, id: int, nextId: int)
    requires CardSeries(q, table, nextId)
    requires forall e :: e in q && e.recurrence ==> e.id != id
    requires forall x :: x != id ==> ExcludedItems(table', x) == ExcludedItems(table, x)
    ensures CardSeries(q, table', nextId)
  {
    hide Renewable, Follows;
    forall a | a in q && a.recurrence
      ensures Covered(q, table', a)
    {
      assert Covered(q, table, a);
    }
  }

  lemma DeleteKeepsSeries(st: State, seqnbr: int, allRecurrences: bool)
    requires SeriesOk(st)
    ensures SeriesOk(Delete(st, seqnbr, allRecurrences).0)
  {
    hide CardSeries, CardOk, OneCardEach, TableOk, Others, DeleteAt, SortByStart, AddExcluded;
    DeleteKeepsBooked(st, seqnbr, allRecurrences);
    var v := CardOf(st.queues, seqnbr, 0);
    if v < |st.queues| {
      var q, t := st.queues[v], Delete(st, seqnbr, allRecurrences).0;
      var i := IndexOf(q, seqnbr);
      var d := q[i];
      CardIsStrict(st, v);
      assert CardSeries(q, st.excluded, st.nextId);
      if d.recurrence && allRecurrences {
        DeleteSeriesFilters(q, d.id);
        OthersMembers(q, d.id);
        WithoutSeries(q, d.id, st.excluded, st.nextId);
        FewerOnOneCardEach(st.queues, v, Others(q, d.id));
      } else {
        DeleteAtRemoves(q, i);
        UniqueEntry(q, i);
        FewerOnOneCardEach(st.queues, v, q[..i] + q[i + 1..]);
        if d.recurrence {
          forall id
            ensures ExcludedItems(t.excluded, id)
                 == ExcludedItems(st.excluded, id) + if id == d.id then [d.number] else []
          {
            AddedItem(st.excluded, d.id, d.number, id);
          }
          IdBelow(q, i, st.excluded, st.nextId);
          AddedRows(st.excluded, d.id, d.number, st.nextId);
          WithoutOne(q, i, st.excluded, t.excluded, st.nextId);
        } else {
          WithoutOne(q, i, st.excluded, st.excluded, st.nextId);
        }
      }
      forall w | 0 <= w < |t.queues|
        ensures CardSeries(t.queues[w], t.excluded, t.nextId)
      {
        assert CardSeries(st.queues[w], st.excluded, st.nextId);
        if w != v && t.excluded != st.excluded {
          NotOnCard(st.queues, v, w, d);
          OtherCards(st.queues[w], st.excluded, t.excluded, d.id, st.nextId);
        }
      }
    }
  }

  // Deleting takes away one entry, or all that is left of its series, and no
  // other entry of any card: never a single recording with a series.
  lemma DeletesExactly(st: State, seqnbr: int, allRecurrences: bool)
    requires SeriesOk(st) && CardOf(st.queues, seqnbr, 0) < |st.queues|
    ensures var v, t := CardOf(st.queues, seqnbr, 0), Delete(st, seqnbr, allRecurrences).0;
            var d := st.queues[v][IndexOf(st.queues[v], seqnbr)];
            forall w, e :: 0 <= w < |st.queues| ==>
              (e in t.queues[w] <==>
                 e in st.queues[w] && if d.recurrence && allRecurrences then !SameSeries(e, d) else !(w == v && e == d))
  {
    hide CardOk, OneCardEach, TableOk, Others, DeleteAt, SortByStart, AddExcluded, Renewable, Covered, Follows;
    var v, t := CardOf(st.queues, seqnbr, 0), Delete(st, seqnbr, allRecurrences).0;
    var q := st.queues[v];
    var i := IndexOf(q, seqnbr);
    var d := q[i];
    CardIsStrict(st, v);
    assert CardSeries(q, st.excluded, st.nextId);
    DeleteSeriesFilters(q, d.id);
    OthersMembers(q, d.id);
    DeleteAtRemoves(q, i);
    UniqueEntry(q, i);
    forall w, e | 0 <= w < |st.queues| && d.recurrence && allRecurrences
      ensures e in t.queues[w] <==> e in st.queues[w] && !SameSeries(e, d)
    {
      if w == v && e in q {
        assert Renewable(e, st.nextId) && Renewable(d, st.nextId);
        SeriesById(e, d, st.nextId);
      } else if w != v {
        NotOnCard(st.queues, v, w, d);
      }
    }
  }

  lemma SeriesById(e: Entry, d: Entry, nextId: int)
    requires Renewable(e, nextId) && Renewable(d, nextId) && d.recurrence
    ensures e.id == d.id <==> SameSeries(e, d)
  {
  }

  lemma CardIsStrict(st: State, v: nat)
    requires Booked(st) && v < |st.queues|
    ensures StrictlySorted(st.queues[v])
  {
    assert CardOk(st.queues[v], st.ongoing[v]);
    SeparatedIsStrict(st.queues[v]);
  }

  lemma IdBelow(q: seq<Entry>, i: nat, table: seq<Excluded>, nextId: int)
    requires CardSeries(q, table, nextId) && i < |q| && q[i].recurrence
    ensures q[i].id < nextId
  {
    assert Renewable(q[i], nextId);
  }

  lemma NotOnCard(queues: seq<seq<Entry>>, v: nat, w: nat, d: Entry)
    requires OneCardEach(queues) && v < |queues| && w < |queues| && v != w && d in queues[v] && d.recurrence
    ensures forall e :: e in queues[w] && e.recurrence ==> e.id != d.id
  {
    forall e | e in queues[w] && e.recurrence
      ensures e.id != d.id
    {
      if v < w {
        assert !SameSeries(d, e);
      } else {
        assert !SameSeries(e, d);
      }
    }
  }

  lemma FewerOnOneCardEach(queues: seq<seq<Entry>>, v: nat, p: seq<Entry>)
    requires OneCardEach(queues) && v < |queues| && forall e :: e in p ==> e in queues[v]
    ensures OneCardEach(queues[v := p])
  {
  }

  lemma TickKeepsSeries(st: State, now: int, resolution: int)
    requires SeriesOk(st)
    ensures SeriesOk(Tick(st, now, resolution))
  {
    hide CardSeries, CardOk, TableOk, TickQueue, TickOngoing;
    TickKeepsBooked(st, now, resolution);
    var t := Tick(st, now, resolution);
    forall v | 0 <= v < |st.queues|
      ensures CardSeries(t.queues[v], st.excluded, st.nextId)
      ensures forall e :: e in t.queues[v] ==> e in st.queues[v]
    {
      CardIsStrict(st, v);
      TickKeepsCardSeries(st.queues[v], st.ongoing[v], st.excluded, st.nextId, now, resolution);
    }
  }

  lemma TickKeepsCardSeries(q: seq<Entry>, o: Option<Entry>, table: seq<Excluded>, nextId: int,
                            now: int, resolution: int)
    requires CardSeries(q, table, nextId) && StrictlySorted(q)
    ensures CardSeries(TickQueue(q, o, now, resolution), table, nextId)
    ensures forall e :: e in TickQueue(q, o, now, resolution) ==> e in q
  {
    hide CardSeries, DeleteAt, StrictlySorted;
    if q != [] {
      DeleteAtRemoves(q, 0);
      UniqueEntry(q, 0);
      WithoutOne(q, 0, table, table, nextId);
    }
  }

  // ---------------------------------------------------------------------
  // Unrolling around gaps

  lemma {:induction false} UnrollNumbers(r: Entry, x: Span, i: nat, seqnbr: int, id: int, excluded: seq<int>, k: nat)
    requires i <= r.num && k < |Unroll(r, x, i, seqnbr, id, excluded)|
    ensures var n, first := Unroll(r, x, i, seqnbr, id, excluded)[k].number, r.number + i;
            && first + k <= n < r.number + r.num && n !in excluded
            && (n == first + k <==> forall m :: first <= m < n ==> m !in excluded)
    decreases r.num - i
  {
    hide Next;
    if r.number + i in excluded {
      UnrollNumbers(r, x, i + 1, seqnbr, id, excluded, k);
    } else if k > 0 {
      UnrollNumbers(r, Next(r.rtype, x), i + 1, seqnbr + 1, id, excluded, k - 1);
    }
  }

  // Unrolling a series with excluded numbers keeps an episode on the date its
  // number asks for exactly when no earlier number is excluded: behind a gap
  // every date comes too early.
  lemma GapShiftsDates(r: Entry, x: Span, seqnbr: int, id: int, excluded: seq<int>, k: nat)
    requires 1 <= r.rtype <= 9 && k < |Unroll(r, x, 0, seqnbr, id, excluded)|
    ensures var e := Unroll(r, x, 0, seqnbr, id, excluded)[k];
            && r.number <= e.number
            && e.start <= Nth(r.rtype, x, e.number - r.number).start
            && (e.Time() == Nth(r.rtype, x, e.number - r.number)
                <==> forall m :: r.number <= m < e.number ==> m !in excluded)
            && (e.start == Nth(r.rtype, x, e.number - r.number).start
                <==> forall m :: r.number <= m < e.number ==> m !in excluded)
  {
    hide Unroll, Nth;
    UnrollNumbers(r, x, 0, seqnbr, id, excluded, k);
    UnrollTimes(r, x, 0, seqnbr, id, excluded);
    var e := Unroll(r, x, 0, seqnbr, id, excluded)[k];
    NthAdd(r.rtype, x, k, e.number - r.number - k);
    NthLater(r.rtype, Nth(r.rtype, x, k), e.number - r.number - k);
  }

  // The numbers unrolled are those asked for but for the excluded ones.
  lemma {:induction false} UnrolledNumbers(r: Entry, x: Span, i: nat, seqnbr: int, id: int, excluded: seq<int>, n: int)
    requires i <= r.num && Known(r.rtype) && r.recurrence
    ensures HasEpisode(Unroll(r, x, i, seqnbr, id, excluded), id, n)
       <==> r.number + i <= n < r.number + r.num && n !in excluded
    decreases r.num - i
  {
    hide Next;
    if i < r.num {
      var es := Unroll(r, x, i, seqnbr, id, excluded);
      if r.number + i in excluded {
        UnrolledNumbers(r, x, i + 1, seqnbr, id, excluded, n);
      } else {
        var rest := Unroll(r, Next(r.rtype, x), i + 1, seqnbr + 1, id, excluded);
        UnrolledNumbers(r, Next(r.rtype, x), i + 1, seqnbr + 1, id, excluded, n);
        assert es == [es[0]] + rest;
        EpisodeInFront(es[0], rest, id, n);
      }
    }
  }

  lemma EpisodeInFront(e: Entry, rest: seq<Entry>, id: int, n: int)
    requires e.recurrence && e.id == id
    ensures HasEpisode([e] + rest, id, n) <==> e.number == n || HasEpisode(rest, id, n)
  {
    assert forall d :: d in [e] + rest <==> d == e || d in rest;
  }

  // ---------------------------------------------------------------------
  // Runs of client commands, ticks and endings

  // A client's request: regular, no id of its own, no excluded numbers.
  predicate ClientOp(op: Op) {
    op.Add? ==> Regular(op.request, op.now) && op.request.id == 0 && op.excluded == []
  }

  lemma StepKeepsSeries(st: State, op: Op, resolution: int)
    requires SeriesOk(st) && ClientOp(op)
    ensures SeriesOk(Step(st, op, resolution))
  {
    hide CardSeries, CardOk, OneCardEach, TableOk, Insert, InsertFirstFit, Delete, Tick, Regular, Refuses;
    match op
    case Add(r, wanted, excluded, now) =>
      LowestCard(st, 0, r, excluded, now);
      var v := if wanted.Some? then wanted.value else CardFor(st, r, 0);
      if v < |st.queues| {
        InsertKeepsSeries(st, v, r, now);
      }
    case Remove(seqnbr, allRecurrences) => DeleteKeepsSeries(st, seqnbr, allRecurrences);
    case TickAt(now) => TickKeepsSeries(st, now, resolution);
    case Finish(card) => FinishKeepsBooked(st, card);
  }

  lemma {:induction false} RunKeepsSeries(st: State, ops: seq<Op>, resolution: int)
    requires SeriesOk(st) && forall k :: 0 <= k < |ops| ==> ClientOp(ops[k])
    ensures SeriesOk(Run(st, ops, resolution))
    decreases |ops|
  {
    hide SeriesOk, ClientOp, Step;
    if ops != [] {
      assert WellFormed(st) by { SeriesIsWellFormed(st); }
      StepKeepsSeries(st, ops[0], resolution);
      RunKeepsSeries(Step(st, ops[0], resolution), ops[1..], resolution);
    }
  }

  lemma SeriesIsWellFormed(st: State)
    requires SeriesOk(st)
    ensures WellFormed(st)
  {
  }

  // What any run leaves of a series: the entries after the first have higher
  // numbers and the same "out of" number, each is on the date its number asks
  // for, and a number from the first on is missing exactly when it was deleted
  // singly.
  lemma EpisodeGaps(cards: nat, maxEntries: nat, ops: seq<Op>, resolution: int, v: nat, i: nat)
    requires forall k :: 0 <= k < |ops| ==> ClientOp(ops[k])
    requires v < cards
    ensures var st := Run(Empty(cards, maxEntries), ops, resolution);
            i < |st.queues[v]| && st.queues[v][i].recurrence ==>
              var a := st.queues[v][i];
              && (forall j :: i < j < |st.queues[v]| && SameSeries(a, st.queues[v][j]) ==>
                    var b := st.queues[v][j];
                    && a.number < b.number && a.Label().1 == b.Label().1
                    && b.Time() == Nth(a.rtype, a.Time(), b.number - a.number))
              && (forall n :: a.number <= n <= a.Label().1 ==>
                    (n in ExcludedItems(st.excluded, a.id) <==> !HasEpisode(st.queues[v], a.id, n)))
  {
    hide Run, ClientOp, CardOk, Renewable, Nth, OneCardEach, ExcludedItems;
    EmptyIsOk(cards, maxEntries);
    RunKeepsSeries(Empty(cards, maxEntries), ops, resolution);
    var st := Run(Empty(cards, maxEntries), ops, resolution);
    var q := st.queues[v];
    CardIsStrict(st, v);
    assert CardSeries(q, st.excluded, st.nextId);
    if i < |q| && q[i].recurrence {
      forall j | i < j < |q| && SameSeries(q[i], q[j])
        ensures q[i].number < q[j].number && Follows(q[i], q[j])
      {
        EarlierIsLower(q, i, j, st.nextId);
      }
      assert Covered(q, st.excluded, q[i]);
    }
  }

  lemma EmptyIsOk(cards: nat, maxEntries: nat)
    ensures SeriesOk(Empty(cards, maxEntries))
  {
  }
}
