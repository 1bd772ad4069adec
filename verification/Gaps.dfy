// What becomes of a series with deleted episodes when the daemon is restarted.
module Gaps {
  import opened Calendar
  import opened Recurrence
  import opened Series
  import opened Schedule
  import opened Booking
  import opened Episodes
  import opened KeptSeries
  import opened Database
  import opened Counting
  import opened SeriesRecord
  import opened Reloading
  import opened Returning

  // ---------------------------------------------------------------------
  // The record of a series read into empty tables

  // Entries in order are put into a queue in that order.
  lemma {:induction false} AppendInOrder(q: seq<Entry>, es: seq<Entry>, maxEntries: nat)
    requires StrictlySorted(q + es) && |q| + |es| <= maxEntries
    ensures AppendAll(q, es, maxEntries) == q + es
    decreases |es|
  {
    hide StrictlySorted, SortByStart;
    if es == [] {
      assert q + es == q;
    } else {
      assert q + es == q + [es[0]] + es[1..];
      FrontIsSorted(q + [es[0]], es[1..]);
      SortedIsFixed(q + [es[0]]);
      AppendInOrder(q + [es[0]], es[1..], maxEntries);
    }
  }

  lemma FrontIsSorted(p: seq<Entry>, rest: seq<Entry>)
    requires StrictlySorted(p + rest)
    ensures StrictlySorted(p)
  {
    forall i, j | 0 <= i < j < |p|
      ensures p[i].start < p[j].start
    {
      assert (p + rest)[i] == p[i] && (p + rest)[j] == p[j];
    }
  }

  lemma NothingOverlaps(r: Entry)
    ensures !Overlapping(r, [], None)
  {
    hide Nth;
  }

  function Unrolled(r: Record): seq<Entry> {
    Unroll(Request(r), Request(r).Time(), 0, 1, 1, Excludes(r))
  }

  // A record of a series with dates to come.
  predicate SeriesToCome(r: Record, now: int) {
    ToCome(r, now) && Request(r).recurrence
  }

  lemma LoadsSeries(cards: nat, maxEntries: nat, r: Record, now: int)
    requires 1 <= cards && SeriesToCome(r, now) && Request(r).num <= maxEntries
    ensures var t := LoadOne(Empty(cards, maxEntries), r, now);
            t.queues == Empty(cards, maxEntries).queues[0 := Unrolled(r)]
            && t == Empty(cards, maxEntries).(queues := t.queues, nextSeq := 1 + |Unrolled(r)|, nextId := 2)
  {
    hide *;
    var e := Request(r);
    ComesInOrder(r, now);
    IsStored(r, now);
    NothingOverlaps(e);
    AppendInOrder([], Unrolled(r), maxEntries);
    assert [] + Unrolled(r) == Unrolled(r);
    IntoEmpty(cards, maxEntries, r, Unrolled(r), now);
  }

  lemma ComesInOrder(r: Record, now: int)
    requires SeriesToCome(r, now)
    ensures Request(r).recurrence && Request(r).start < Request(r).end
  {
    hide Request, Regular;
  }

  lemma IntoEmpty(cards: nat, maxEntries: nat, r: Record, es: seq<Entry>, now: int)
    requires 1 <= cards && Request(r).recurrence && Request(r).num <= maxEntries && Known(Request(r).rtype)
    requires Request(r).start < Request(r).end && !Overlapping(Request(r), [], None)
    requires NewEntries(Request(r), now, 1, 1, Excludes(r)) == es && AppendAll([], es, maxEntries) == es
    ensures var empty, t := Empty(cards, maxEntries), LoadOne(Empty(cards, maxEntries), r, now);
            && t.queues == empty.queues[0 := es]
            && t == empty.(queues := t.queues, nextSeq := 1 + |es|, nextId := 2)
  {
    hide Overlapping, AppendAll, NewEntries, Request, Excludes;
    var empty := Empty(cards, maxEntries);
    assert !Refuses(empty, 0, Request(r));
  }

  lemma IsStored(r: Record, now: int)
    requires SeriesToCome(r, now)
    ensures var e := Request(r);
            && NewEntries(e, now, 1, 1, Excludes(r)) == Unrolled(r)
            && Known(e.rtype) && |Unrolled(r)| <= e.num && StrictlySorted([] + Unrolled(r))
  {
    hide Unroll, Nth, Weekday, Request, Steady, Adjusted, Excludes, StrictlySorted;
    var e := Request(r);
    AdjustedIsIdentity(e.rtype, e.Time(), now);
    UnrolledInOrder(e, e.Time(), 1, 1, Excludes(r));
    assert [] + Unrolled(r) == Unrolled(r);
  }

  // ---------------------------------------------------------------------
  // A schedule of one series

  ghost predicate OneSeries(st: State, v: nat) {
    && v < |st.queues| && st.queues[v] != [] && st.queues[v][0].recurrence
    && (forall e :: e in st.queues[v] ==> SameSeries(e, st.queues[v][0]))
    && (forall w :: 0 <= w < |st.queues| && w != v ==> st.queues[w] == [])
  }

  lemma {:induction false} RestIsSaved(q: seq<Entry>, saved: seq<int>, table: seq<Excluded>)
    requires forall e :: e in q ==> e.recurrence && e.id in saved
    ensures SaveQueue(q, saved, table) == ([], saved)
    decreases |q|
  {
    hide RecordOf;
    if q != [] {
      RestIsSaved(q[1..], saved, table);
    }
  }

  lemma {:induction false} SavesOneRecord(st: State, v: nat, w: nat)
    requires OneSeries(st, v) && w <= |st.queues|
    ensures forall saved :: (w > v ==> SaveFrom(st.queues, w, saved, st.excluded) == [])
    ensures w <= v ==> SaveFrom(st.queues, w, [], st.excluded) == [RecordOf(st.queues[v], st.excluded)]
    decreases |st.queues| - w
  {
    hide RecordOf;
    if w < |st.queues| {
      SavesOneRecord(st, v, w + 1);
      if w == v {
        var q := st.queues[v];
        assert forall e :: e in q[1..] ==> e in q;
        RestIsSaved(q[1..], [q[0].id], st.excluded);
        assert [] + [q[0].id] == [q[0].id];
      }
    }
  }

  // The head's record asks for its series, without what was deleted behind it.
  lemma HeadRecord(st: State, v: nat, now: int)
    requires SeriesOk(st) && OneSeries(st, v) && Loadable(st.queues[v][0], now)
    ensures var q := st.queues[v];
            var r := RecordOf(q, st.excluded);
            && Request(r) == q[0].(seqnbr := -1, id := 0) && SeriesToCome(r, now) && Known(q[0].rtype)
            && r.repeat.Some?
            && (forall m :: m in Excludes(r) <==> m in ExcludedItems(st.excluded, q[0].id) && q[0].number < m)
  {
    var q := st.queues[v];
    assert CardSeries(q, st.excluded, st.nextId);
    CardIsStrict(st, v);
    ReadBack(q, st.excluded, st.nextId, now);
    ReadBackIsRegular(q, st.excluded, st.nextId, now);
    ExcludesAreLater(q, st.excluded, st.nextId);
    assert q[0] in q && Renewable(q[0], st.nextId);
    RepeatTypeKnown(q[0], st.nextId);
    hide LowestNumber, FromTimestamp, Renewable, Covered, Follows;
  }

  lemma RecordNumbers(r: Record, n: int)
    requires Known(Request(r).rtype) && Request(r).recurrence
    ensures HasEpisode(Unrolled(r), 1, n)
       <==> Request(r).number <= n < Request(r).number + Request(r).num && n !in Excludes(r)
  {
    hide Request, Excludes;
    UnrolledNumbers(Request(r), Request(r).Time(), 0, 1, 1, Excludes(r), n);
  }

  // Before, the pending numbers were those from the first on, not deleted.
  lemma OldNumbers(st: State, v: nat, n: int)
    requires SeriesOk(st) && OneSeries(st, v)
    ensures var a := st.queues[v][0];
            && (HasEpisode(st.queues[v], a.id, n)
                <==> a.number <= n < a.number + a.num && n !in ExcludedItems(st.excluded, a.id))
            && a.number !in ExcludedItems(st.excluded, a.id)
  {
    var q := st.queues[v];
    var a := q[0];
    assert CardSeries(q, st.excluded, st.nextId);
    CardIsStrict(st, v);
    assert a in q && Covered(q, st.excluded, a) && Renewable(a, st.nextId);
    assert HasEpisode(q, a.id, a.number);
    HasSome(a, st.nextId);
    if HasEpisode(q, a.id, n) {
      var e :| e in q && e.recurrence && e.id == a.id && e.number == n;
      assert Follows(a, e) && Renewable(e, st.nextId);
      LabelBound(a, e, st.nextId);
      var j :| 0 <= j < |q| && q[j] == e;
      if 0 < j {
        EarlierIsLower(q, 0, j, st.nextId);
      }
    }
  }

  lemma HasSome(a: Entry, nextId: int)
    requires Renewable(a, nextId) && a.recurrence
    ensures 1 <= a.num
  {
  }

  // ---------------------------------------------------------------------
  // When the first reload leaves it as it was

  // No number is pending behind a deleted one.
  ghost predicate NonePendingBehind(st: State, v: nat)
    requires v < |st.queues| && st.queues[v] != []
  {
    var a := st.queues[v][0];
    forall m, n :: a.number < m < n && m in ExcludedItems(st.excluded, a.id) ==> !HasEpisode(st.queues[v], a.id, n)
  }

  lemma EndsOfOne(st: State, v: nat)
    requires SeriesOk(st) && OneSeries(st, v)
    ensures GapsAtEnd(st) <==> NonePendingBehind(st, v)
  {
    var q, a := st.queues[v], st.queues[v][0];
    assert CardSeries(q, st.excluded, st.nextId);
    CardIsStrict(st, v);
    SeriesIsNumbered(q, st.excluded, st.nextId);
    forall n
      ensures HasEpisode(q, a.id, n) <==> a.number <= n < a.number + a.num && n !in ExcludedItems(st.excluded, a.id)
      ensures a.number !in ExcludedItems(st.excluded, a.id)
    {
      OldNumbers(st, v, n);
    }
    hide SeriesOk, CardSeries, CardNumbers, HasEpisode, StrictlySorted, ExcludedItems;
    EndsOnlySplit(q, [], st.excluded, st.nextId);
    assert EndsOnly(q[1..], SavedAfter(q, []), st.excluded) by {
      assert forall e :: e in q[1..] ==> e in q;
    }
    assert GapsAtEnd(st) <==> EndsOnly(q, [], st.excluded) by {
      assert forall w :: 0 <= w < |st.queues| && w != v ==> EndsOnly(st.queues[w], [], st.excluded);
    }
  }

  lemma OneFits(st: State, v: nat, now: int)
    requires SeriesOk(st) && OneSeries(st, v) && Loadable(st.queues[v][0], now) && st.queues[v][0].num <= st.maxEntries
    ensures Readable(st, now) && Placeable(st, now)
  {
    HeadRecord(st, v, now);
    hide *;
    OneIsThere(st, v);
    OneIsPlaceable(st, v, now);
    OneIsReadable(st, v, now);
  }

  lemma OneIsPlaceable(st: State, v: nat, now: int)
    requires OneSeries(st, v)
    requires var r := RecordOf(st.queues[v], st.excluded);
             SeriesToCome(r, now) && Request(r).num <= st.maxEntries
    ensures Placeable(st, now)
  {
    hide RecordOf, Request, ToCome, Plan, CardsFit, SaveFrom, Planned, OneSeries;
    OneIsThere(st, v);
    SavesOneRecord(st, v, 0);
    OneCardFits(st, v, 0, [], now);
  }

  lemma OneIsReadable(st: State, v: nat, now: int)
    requires OneSeries(st, v) && Loadable(st.queues[v][0], now)
    ensures Readable(st, now)
  {
    hide Loadable, CardReadable;
    forall w | 0 <= w < |st.queues|
      ensures CardReadable(st.queues[w], now)
    {
      HeadIsReadable(st.queues[w], now);
    }
  }

  lemma HeadIsReadable(q: seq<Entry>, now: int)
    requires q != [] ==> Loadable(q[0], now) && q[0].recurrence && forall e :: e in q ==> SameSeries(e, q[0])
    ensures CardReadable(q, now)
  {
    hide Loadable;
    forall i | 0 < i < |q|
      ensures !Leads(q, i)
    {
      assert q[i] in q && SameSeries(q[0], q[i]);
    }
  }

  lemma {:induction false} OneCardFits(st: State, v: nat, w: nat, saved: seq<int>, now: int)
    requires OneSeries(st, v) && w <= |st.queues| && (w <= v ==> saved == [])
    requires var r := RecordOf(st.queues[v], st.excluded);
             ToCome(r, now) && Request(r).recurrence && Request(r).num <= st.maxEntries
    ensures CardsFit(st.queues, w, saved, st.excluded, now, st.maxEntries)
    decreases |st.queues| - w
  {
    hide RecordOf, Request, ToCome, Plan;
    if w < |st.queues| {
      var q := st.queues[w];
      if w == v {
        assert forall e :: e in q[1..] ==> e in q;
        RestIsSaved(q[1..], [q[0].id], st.excluded);
        assert [] + [q[0].id] == [q[0].id];
        var r := RecordOf(q, st.excluded);
        assert [r] + [] == [r] && SaveQueue(q, [], st.excluded) == ([r], [q[0].id]);
        assert RecordsFit([r][1..], [] + Plan(r), now, st.maxEntries);
      }
      OneCardFits(st, v, w + 1, SaveQueue(q, saved, st.excluded).1, now);
    }
  }

  // A series that asks for more than a queue holds is refused everywhere.
  lemma {:induction false} RefusedAll(st: State, v: nat, r: Entry, excluded: seq<int>, now: int)
    requires WellFormed(st) && v <= |st.queues| && r.recurrence && st.maxEntries < r.num
    ensures InsertFirstFit(st, v, r, excluded, now).0 == st
    decreases |st.queues| - v
  {
    hide Overlapping, Insert;
    if v < |st.queues| {
      RefusedAll(st, v + 1, r, excluded, now);
    }
  }

  lemma OneIsLost(st: State, v: nat, now: int)
    requires SeriesOk(st) && OneSeries(st, v) && Loadable(st.queues[v][0], now) && st.maxEntries < st.queues[v][0].num
    ensures !SameRecordings(Reload(st, now), st)
  {
    hide *;
    OneIsThere(st, v);
    HeadRecord(st, v, now);
    SavesOneRecord(st, v, 0);
    var r := RecordOf(st.queues[v], st.excluded);
    ComesInOrder(r, now);
    TooManyIsRefused(st, r, now);
    NothingIsLess(st, Reload(st, now), v);
  }

  lemma TooManyIsRefused(st: State, r: Record, now: int)
    requires SaveFrom(st.queues, 0, [], st.excluded) == [r] && Request(r).recurrence && st.maxEntries < Request(r).num
    ensures Reload(st, now) == Empty(|st.queues|, st.maxEntries)
  {
    hide SaveFrom, InsertFirstFit, Request, Excludes;
    var empty := Empty(|st.queues|, st.maxEntries);
    RefusedAll(empty, 0, Request(r), Excludes(r), now);
    assert LoadOne(empty, r, now) == empty;
    assert [r][1..] == [] && Load(LoadOne(empty, r, now), [], now) == empty;
  }

  lemma NothingIsLess(st: State, t: State, v: nat)
    requires v < |st.queues| && st.queues[v] != [] && t == Empty(|st.queues|, st.maxEntries)
    ensures !SameRecordings(t, st)
  {
    hide Content, CountAll, CountIn;
    var c := Content(st.queues[v][0]);
    NothingIn(t.queues, 0, c);
    HeadIsCounted(st.queues, 0, v);
    assert CountAll(t.queues, 0, c) != CountAll(st.queues, 0, c);
  }

  lemma {:induction false} HeadIsCounted(queues: seq<seq<Entry>>, u: nat, v: nat)
    requires u <= v < |queues| && queues[v] != []
    ensures CountAll(queues, u, Content(queues[v][0])) > 0
    decreases v - u
  {
    hide Content;
    if u < v {
      HeadIsCounted(queues, u + 1, v);
    }
  }

  // A reload leaves the recordings of a series as they were exactly when none is
  // pending behind a deleted one, and the numbers that it asks for, deleted ones
  // and all, fit a queue.
  lemma OneSeriesReturns(st: State, v: nat, now: int)
    requires SeriesOk(st) && OneSeries(st, v) && Loadable(st.queues[v][0], now)
    ensures SameRecordings(Reload(st, now), st)
       <==> st.queues[v][0].num <= st.maxEntries && NonePendingBehind(st, v)
  {
    hide SeriesOk, OneSeries, Loadable, SameRecordings, Reload, Readable, Placeable, GapsAtEnd, NonePendingBehind;
    assert v < |st.queues| && st.queues[v] != [] by { OneIsThere(st, v); }
    if st.queues[v][0].num <= st.maxEntries {
      OneFits(st, v, now);
      ReloadIsExact(st, now);
      EndsOfOne(st, v);
    } else {
      OneIsLost(st, v, now);
    }
  }

  lemma OneIsThere(st: State, v: nat)
    requires OneSeries(st, v)
    ensures v < |st.queues| && st.queues[v] != []
  {
  }

  // ---------------------------------------------------------------------
  // A series with a gap, and a single recording among its dates

  // One card, a series at its head and at place i a single recording.
  ghost predicate SeriesAndSingle(st: State, i: nat) {
    && |st.queues| == 1 && 0 < i < |st.queues[0]|
    && st.queues[0][0].recurrence && !st.queues[0][i].recurrence
    && forall j :: 0 <= j < |st.queues[0]| && j != i ==> SameSeries(st.queues[0][j], st.queues[0][0])
  }

  lemma {:induction false} FromSingle(q: seq<Entry>, i: nat, j: nat, id: int, table: seq<Excluded>)
    requires 0 < j <= i < |q| && !q[i].recurrence
    requires forall k :: 0 <= k < |q| && k != i ==> q[k].recurrence && q[k].id == id
    ensures SaveQueue(q[j..], [id], table) == ([RecordOf(q[i..], table)], [id])
    decreases i - j
  {
    hide RecordOf;
    assert q[j..][0] == q[j] && q[j..][1..] == q[j + 1..];
    if j < i {
      FromSingle(q, i, j + 1, id, table);
    } else {
      RestIsSaved(q[i + 1..], [id], table);
      assert [RecordOf(q[i..], table)] + [] == [RecordOf(q[i..], table)];
    }
  }

  lemma SavesTwo(st: State, i: nat)
    requires SeriesAndSingle(st, i)
    ensures var q := st.queues[0]; File(st) == [RecordOf(q, st.excluded), RecordOf(q[i..], st.excluded)]
  {
    hide RecordOf;
    var q, table := st.queues[0], st.excluded;
    var id := q[0].id;
    FromSingle(q, i, 1, id, table);
    assert [] + [id] == [id];
    var rs := [RecordOf(q, table)] + [RecordOf(q[i..], table)];
    assert SaveQueue(q, [], table) == (rs, [id]);
    assert SaveFrom(st.queues, 1, [id], table) == [] && rs + [] == rs;
  }

  lemma {:induction false} NoSingles(es: seq<Entry>, c: Entry)
    requires !c.recurrence && forall e :: e in es ==> e.recurrence
    ensures CountIn(es, c) == 0
    decreases |es|
  {
    if es != [] {
      NoSingles(es[1..], c);
    }
  }

  // The card with the series made again.
  lemma SeriesIsApart(r: Record, now: int)
    requires SeriesToCome(r, now)
    ensures Separated(Unrolled(r)) && forall e :: e in Unrolled(r) ==> e.recurrence
  {
    hide Unroll, Nth, Request, Excludes, Regular;
    var e, es := Request(r), Unrolled(r);
    RegularIsEven(e, now);
    RegularIsKnown(e, now);
    EvenTimes(e);
    UnrollTimes(e, e.Time(), 0, 1, 1, Excludes(r));
    assert forall k :: 0 <= k < |es| ==> es[k].Time() == Time(e, k);
    forall d | d in es
      ensures d.recurrence
    {
      UnrolledEntry(e, e.Time(), 0, 1, 1, Excludes(r), d);
    }
  }

  // A single recording read onto a card that holds a series is kept exactly when
  // the test and the bound let it.
  lemma SingleOntoSeries(t: State, r: Record, now: int)
    requires WellFormed(t) && |t.queues| == 1 && t.ongoing[0].None? && Separated(t.queues[0])
    requires forall e :: e in t.queues[0] ==> e.recurrence
    requires !Request(r).recurrence && Request(r).start < Request(r).end
    ensures CountAll(LoadOne(t, r, now).queues, 0, Content(Request(r)))
         == if |t.queues[0]| < t.maxEntries && Free(Request(r).Time(), t.queues[0], None) then 1 else 0
  {
    hide Request, Excludes, Separated, SortByStart, CountIn, Free, CollidesWithAny;
    var x, q := Request(r), t.queues[0];
    var c := Content(x);
    CollisionTest(x.Time(), q, None);
    NoSingles(q, c);
    var u := LoadOne(t, r, now);
    OneQueueCount(u.queues, c);
    if Refuses(t, 0, x) {
      assert InsertFirstFit(t, 0, x, Excludes(r), now) == InsertFirstFit(t, 1, x, Excludes(r), now);
    } else {
      var e := x.(seqnbr := t.nextSeq);
      assert [e][1..] == [] && AppendAll(q, [e], t.maxEntries) == Append(q, e, t.maxEntries);
      AcceptedQueue(t, 0, x, Excludes(r), now);
      assert u.queues[0] == Append(q, e, t.maxEntries);
      if |q| < t.maxEntries {
        CountSort(q + [e], c);
        CountConcat(q, [e], c);
        assert CountIn([e], c) == 1 by { OnlyItself(e, c); }
      }
    }
  }

  lemma OnlyItself(e: Entry, c: Entry)
    requires Content(e) == c
    ensures CountIn([e], c) == 1
  {
  }

  lemma OneQueueCount(queues: seq<seq<Entry>>, c: Entry)
    requires |queues| == 1
    ensures CountAll(queues, 0, c) == CountIn(queues[0], c)
  {
    hide CountIn;
    assert CountAll(queues, 1, c) == 0;
  }

  // After a reload the single recording is there exactly when it is apart from
  // every date that the series, gap and all, is unrolled to, and that leaves
  // room for it.
  lemma SingleAmongSeries(st: State, i: nat, now: int)
    requires SeriesOk(st) && SeriesAndSingle(st, i) && st.queues[0][0].num <= st.maxEntries
    requires Loadable(st.queues[0][0], now) && Loadable(st.queues[0][i], now)
    ensures var es, x := Unrolled(RecordOf(st.queues[0], st.excluded)), st.queues[0][i];
            CountAll(Reload(st, now).queues, 0, Content(x))
            == if |es| < st.maxEntries && forall k :: 0 <= k < |es| ==> ApartFrom(x.Time(), es[k].Time()) then 1 else 0
  {
    var q, table := st.queues[0], st.excluded;
    var r, s := RecordOf(q, table), RecordOf(q[i..], table);
    RecordsOfTwo(st, i, now);
    SavesTwo(st, i);
    hide SeriesOk, RecordOf, Request, Loadable, LoadOne, Load, SaveFrom, ToCome, Unrolled, CountAll, Content, Separated;
    var empty := Empty(1, st.maxEntries);
    LoadsSeries(1, st.maxEntries, r, now);
    SeriesIsApart(r, now);
    var t := LoadOne(empty, r, now);
    SingleOntoSeries(t, s, now);
    TwoLoads(empty, r, s, now);
  }

  lemma RecordsOfTwo(st: State, i: nat, now: int)
    requires SeriesOk(st) && SeriesAndSingle(st, i)
    requires Loadable(st.queues[0][0], now) && Loadable(st.queues[0][i], now)
    ensures var q := st.queues[0];
            var r, s := RecordOf(q, st.excluded), RecordOf(q[i..], st.excluded);
            && SeriesToCome(r, now) && Request(r) == q[0].(seqnbr := -1, id := 0)
            && (forall m :: m in Excludes(r) <==> m in ExcludedItems(st.excluded, q[0].id) && q[0].number < m)
            && Request(s) == Content(q[i]).(seqnbr := -1) && Request(s).start < Request(s).end
            && Content(Request(s)) == Content(q[i]) && Request(s).Time() == q[i].Time() && !Request(s).recurrence
  {
    var q, table := st.queues[0], st.excluded;
    assert CardSeries(q, table, st.nextId);
    CardIsStrict(st, 0);
    hide RecordOf, Request, CardSeries, Excludes, ToCome;
    OkIsKept(st);
    assert CardKept(q, table, st.nextId);
    hide SeriesOk, Kept, CardKept;
    SuffixKept(q, i, table, st.nextId);
    KeptIsNumbered(q, table, st.nextId);
    ReadBack(q, table, st.nextId, now);
    ReadBackIsRegular(q, table, st.nextId, now);
    ExcludesAreLater(q, table, st.nextId);
    assert q[i..][0] == q[i];
    ReadBack(q[i..], table, st.nextId, now);
  }

  lemma SuffixKept(q: seq<Entry>, i: nat, table: seq<Excluded>, nextId: int)
    requires CardKept(q, table, nextId) && StrictlySorted(q) && i < |q|
    ensures CardNumbers(q[i..], nextId) && StrictlySorted(q[i..])
  {
    hide CardKept, CardNumbers;
    KeptSubset(q[i..], q, table, nextId);
    KeptIsNumbered(q[i..], table, nextId);
  }

  // A daily series of three without its second episode, and a recording booked
  // into the slot that this left.
  function First(t: int): Entry {
    Entry(1, "", t, t + 3600, true, 1, 3, 1, 1)
  }

  function Third(t: int): Entry {
    Entry(3, "", t + 2 * DAY, t + 2 * DAY + 3600, true, 1, 1, 1, 3)
  }

  function Between(t: int): Entry {
    Entry(4, "", t + DAY, t + DAY + 3600, false, 0, 0, 0, 0)
  }

  function SlotTaken(t: int): State {
    State(10, [[First(t), Between(t), Third(t)]], [None], 5, 2, [Excluded(1, [2])])
  }

  lemma SlotTakenIsOk(t: int)
    ensures SeriesOk(SlotTaken(t))
  {
    var st := SlotTaken(t);
    assert CardOk(st.queues[0], None);
    hide CardOk, CardNumbers, Covered, ExcludedItems;
    SlotNumbers(t);
    SlotCovered(t);
  }

  lemma SlotNumbers(t: int)
    ensures CardNumbers(SlotTaken(t).queues[0], 2)
  {
    var q := SlotTaken(t).queues[0];
    DailyTimes(First(t).rtype, First(t).Time(), 2);
    hide Nth, Weekday;
    assert forall e :: e in q ==> e == First(t) || e == Between(t) || e == Third(t);
    assert Follows(First(t), Third(t)) && Follows(Third(t), First(t));
    assert Renewable(First(t), 2) && Renewable(Between(t), 2) && Renewable(Third(t), 2);
    hide Follows, Renewable;
    assert Follows(First(t), First(t)) && Follows(Third(t), Third(t)) by { ToItself(First(t)); ToItself(Third(t)); }
  }

  lemma ToItself(a: Entry)
    ensures Follows(a, a)
  {
    NthNone(a.rtype, a.Time());
  }

  lemma SlotCovered(t: int)
    ensures var q, table := SlotTaken(t).queues[0], SlotTaken(t).excluded;
            forall a :: a in q && a.recurrence ==> Covered(q, table, a)
  {
    var q, table := SlotTaken(t).queues[0], SlotTaken(t).excluded;
    assert ExcludedItems(table, 1) == [2];
    assert First(t) in q && Third(t) in q;
    assert forall e :: e in q ==> e == First(t) || e == Between(t) || e == Third(t);
    hide ExcludedItems;
    assert HasEpisode(q, 1, 1) && HasEpisode(q, 1, 3) && !HasEpisode(q, 1, 2);
  }

  lemma {:induction false} DailyTimes(rtype: int, x: Span, n: nat)
    requires rtype == 1
    ensures Nth(rtype, x, n) == Span(x.start + DAY * n, x.end + DAY * n)
    decreases n
  {
    if n > 0 {
      DailyTimes(rtype, Next(rtype, x), n - 1);
    }
  }

  // The series made again around the gap: its third episode is a day early.
  lemma ThirdIsEarly(r: Record, t: int)
    requires Request(r) == First(t).(seqnbr := -1, id := 0) && forall m :: m in Excludes(r) <==> m == 2
    ensures |Unrolled(r)| >= 2 && Unrolled(r)[1].Time() == Between(t).Time()
  {
    hide Request, Excludes;
    var e, es := Request(r), Unrolled(r);
    UnrollTimes(e, e.Time(), 0, 1, 1, Excludes(r));
    DailyTimes(e.rtype, e.Time(), 1);
    RecordNumbers(r, 1);
    RecordNumbers(r, 3);
    var a :| a in es && a.number == 1;
    var b :| b in es && b.number == 3;
    assert a != b;
  }

  // So a recording booked into the slot of a deleted episode can be lost: the
  // third episode has been put there before it.
  lemma DeletedSlotTaken(t: int, now: int)
    requires InFileYears(t) && InFileYears(t + 2 * DAY + 3600) && now <= t
    ensures var st, c := SlotTaken(t), Content(Between(t));
            && SeriesOk(st) && CountAll(st.queues, 0, c) == 1
            && CountAll(Reload(st, now).queues, 0, c) == 0
  {
    hide *;
    var st := SlotTaken(t);
    SlotTakenIsOk(t);
    CountsBetween(t);
    SlotTakenFacts(st, t, now);
    RecordsOfTwo(st, 1, now);
    ThirdIsEarly(RecordOf(st.queues[0], st.excluded), t);
    SingleAmongSeries(st, 1, now);
    NotApart(Between(t).Time(), Unrolled(RecordOf(st.queues[0], st.excluded))[1].Time());
  }

  lemma NotApart(x: Span, y: Span)
    requires x == y && x.start < x.end
    ensures !ApartFrom(x, y)
  {
  }

  lemma SlotTakenFacts(st: State, t: int, now: int)
    requires st == SlotTaken(t)
    requires InFileYears(t) && InFileYears(t + 2 * DAY + 3600) && now <= t
    ensures SeriesAndSingle(st, 1) && st.queues[0][0] == First(t) && st.queues[0][1] == Between(t)
    ensures First(t).num <= st.maxEntries && First(t).id == 1 && First(t).number == 1
    ensures Loadable(First(t), now) && Loadable(Between(t), now)
    ensures forall m :: m in ExcludedItems(st.excluded, 1) && 1 < m <==> m == 2
    ensures Between(t).Time().start < Between(t).Time().end
  {
    assert ExcludedItems(st.excluded, 1) == [2];
  }

  lemma CountsBetween(t: int)
    ensures CountAll(SlotTaken(t).queues, 0, Content(Between(t))) == 1
  {
    var q, c := SlotTaken(t).queues[0], Content(Between(t));
    OneQueueCount(SlotTaken(t).queues, c);
    NoSingles([First(t)], c);
    NoSingles([Third(t)], c);
    CountConcat([First(t)], [Between(t)], c);
    CountConcat([First(t), Between(t)], [Third(t)], c);
    assert q == [First(t), Between(t)] + [Third(t)] && [First(t), Between(t)] == [First(t)] + [Between(t)];
    assert CountIn([Between(t)], c) == 1;
  }
}
