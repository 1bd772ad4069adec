// What is left of a series and the one record it is saved as.
module SeriesRecord {
  import opened Calendar
  import opened Recurrence
  import opened Series
  import opened Schedule
  import opened Booking
  import opened Episodes
  import opened KeptSeries
  import opened Database
  import opened Counting

  // ---------------------------------------------------------------------
  // A whole series from its first entry

  // The entries of series id, in order.
  function Of(q: seq<Entry>, id: int): seq<Entry>
    decreases |q|
  {
    if q == [] then [] else (if q[0].recurrence && q[0].id == id then [q[0]] else []) + Of(q[1..], id)
  }

  lemma {:induction false} OfMembers(q: seq<Entry>, id: int)
    ensures forall e :: e in Of(q, id) <==> e in q && e.recurrence && e.id == id
    decreases |q|
  {
    if q != [] {
      OfMembers(q[1..], id);
      assert q == [q[0]] + q[1..];
    }
  }

  lemma {:induction false} OfStrict(q: seq<Entry>, id: int)
    requires StrictlySorted(q)
    ensures StrictlySorted(Of(q, id))
    decreases |q|
  {
    if q != [] {
      OfStrict(q[1..], id);
      OfMembers(q[1..], id);
    }
  }

  // Of a's series only the last numbers are deleted, if any: no episode is
  // pending behind a deleted one.
  predicate DeletedAtEnd(a: Entry, table: seq<Excluded>) {
    AtEnd(a, ExcludedItems(table, a.id))
  }

  function LeftOf(a: Entry, table: seq<Excluded>): nat {
    Left(a, 0, ExcludedItems(table, a.id))
  }

  // What is left of such a series is what its first entry and the numbers say.
  lemma {:induction false} LeftOfSeries(q: seq<Entry>, table: seq<Excluded>, nextId: int, k: nat)
    requires q != [] && CardSeries(q, table, nextId) && StrictlySorted(q)
    requires q[0].recurrence && DeletedAtEnd(q[0], table) && k < |Of(q, q[0].id)|
    ensures var a, b := q[0], Of(q, q[0].id)[k];
            b.number == a.number + k && SameSeries(a, b) && Follows(a, b) && k < LeftOf(a, table)
    decreases k
  {
    MemberFollows(q, nextId, k);
    hide CardSeries, StrictlySorted, DeletedAtEnd, LeftOf, Of, Follows;
    if k > 0 {
      LeftOfSeries(q, table, nextId, k - 1);
      NextOfSeries(q, table, nextId, k);
    }
    NumberBound(q, table, nextId, k);
  }

  lemma MemberFollows(q: seq<Entry>, nextId: int, k: nat)
    requires q != [] && CardNumbers(q, nextId) && q[0].recurrence && k < |Of(q, q[0].id)|
    ensures var b := Of(q, q[0].id)[k]; SameSeries(q[0], b) && Follows(q[0], b)
    ensures Of(q, q[0].id)[0] == q[0]
  {
    hide Renewable, Follows;
    OfMembers(q, q[0].id);
    assert Of(q, q[0].id)[k] in q;
  }

  lemma LabelBound(a: Entry, b: Entry, nextId: int)
    requires Renewable(b, nextId) && b.recurrence && Follows(a, b)
    ensures b.number < a.number + a.num
  {
  }

  lemma NextOfSeries(q: seq<Entry>, table: seq<Excluded>, nextId: int, k: nat)
    requires q != [] && CardSeries(q, table, nextId) && StrictlySorted(q)
    requires q[0].recurrence && DeletedAtEnd(q[0], table) && 0 < k < |Of(q, q[0].id)|
    requires Of(q, q[0].id)[k - 1].number == q[0].number + k - 1
    ensures Of(q, q[0].id)[k].number == q[0].number + k
  {
    var a := q[0];
    var g := Of(q, a.id);
    assert CardNumbers(q, nextId);
    hide CardSeries, CardNumbers, StrictlySorted, DeletedAtEnd, LeftOf;
    LowerInSeries(q, nextId, k - 1, k);
    NumberBound(q, table, nextId, k);
    var m := PlaceOf(q, table, nextId, a.number + k);
    if m < k - 1 {
      LowerInSeries(q, nextId, m, k - 1);
    } else if k < m {
      LowerInSeries(q, nextId, k, m);
    }
  }

  // A pending number comes before the first deleted one.
  lemma NumberBound(q: seq<Entry>, table: seq<Excluded>, nextId: int, k: nat)
    requires q != [] && CardSeries(q, table, nextId) && StrictlySorted(q)
    requires q[0].recurrence && DeletedAtEnd(q[0], table) && k < |Of(q, q[0].id)|
    ensures q[0].number <= Of(q, q[0].id)[k].number < q[0].number + LeftOf(q[0], table)
  {
    hide CardSeries, CardKept, StrictlySorted, DeletedAtEnd, LeftOf, Of;
    OfMembers(q, q[0].id);
    SeriesIsKept(q, table, nextId);
    PendingIsLeft(q, table, nextId, Of(q, q[0].id)[k]);
  }

  lemma PendingIsLeft(q: seq<Entry>, table: seq<Excluded>, nextId: int, e: Entry)
    requires q != [] && CardKept(q, table, nextId) && StrictlySorted(q) && DeletedAtEnd(q[0], table)
    requires e in q && SameSeries(q[0], e)
    ensures q[0].number <= e.number < q[0].number + LeftOf(q[0], table)
  {
    hide Nth, Regular, Left;
    assert Renewable(e, nextId) && Follows(q[0], e);
    LabelBound(q[0], e, nextId);
    HeadIsFirst(q, nextId, e);
  }

  lemma HeadIsFirst(q: seq<Entry>, nextId: int, e: Entry)
    requires q != [] && CardNumbers(q, nextId) && StrictlySorted(q) && e in q && SameSeries(q[0], e)
    ensures q[0].number <= e.number
  {
    hide CardNumbers;
    var j :| 0 <= j < |q| && q[j] == e;
    if 0 < j {
      EarlierIsLower(q, 0, j, nextId);
    }
  }

  lemma PlaceOf(q: seq<Entry>, table: seq<Excluded>, nextId: int, n: int) returns (m: nat)
    requires q != [] && CardSeries(q, table, nextId) && q[0].recurrence
    requires q[0].number < n < q[0].number + LeftOf(q[0], table)
    ensures m < |Of(q, q[0].id)| && Of(q, q[0].id)[m].number == n
  {
    hide Follows, Renewable, Left;
    OfMembers(q, q[0].id);
    assert Covered(q, table, q[0]) && n !in ExcludedItems(table, q[0].id);
    assert HasEpisode(q, q[0].id, n);
    var e :| e in q && e.recurrence && e.id == q[0].id && e.number == n;
    m :| 0 <= m < |Of(q, q[0].id)| && Of(q, q[0].id)[m] == e;
  }

  lemma LowerInSeries(q: seq<Entry>, nextId: int, i: nat, j: nat)
    requires CardNumbers(q, nextId) && StrictlySorted(q) && q != [] && i < j < |Of(q, q[0].id)|
    ensures Of(q, q[0].id)[i].number < Of(q, q[0].id)[j].number
  {
    hide Renewable, Follows, Of;
    var g := Of(q, q[0].id);
    OfMembers(q, q[0].id);
    OfStrict(q, q[0].id);
    assert g[i] in q && g[j] in q && Renewable(g[j], nextId) && Follows(g[j], g[i]);
    RepeatTypeKnown(g[j], nextId);
    NumbersFollowStarts(g[i], g[j]);
  }

  lemma RepeatTypeKnown(e: Entry, nextId: int)
    requires Renewable(e, nextId) && e.recurrence
    ensures 1 <= e.rtype <= 9
  {
  }

  // As many are left as there are numbers before the first deleted one.
  lemma SizeOfSeries(q: seq<Entry>, table: seq<Excluded>, nextId: int)
    requires q != [] && CardSeries(q, table, nextId) && StrictlySorted(q)
    requires q[0].recurrence && DeletedAtEnd(q[0], table)
    ensures |Of(q, q[0].id)| == LeftOf(q[0], table)
  {
    hide Nth, Renewable, Follows, DeletedAtEnd, LeftOf;
    var a := q[0];
    var g := Of(q, a.id);
    OfMembers(q, a.id);
    assert a in g && g != [];
    LeftOfSeries(q, table, nextId, |g| - 1);
    if |g| < LeftOf(a, table) {
      var m := PlaceOf(q, table, nextId, a.number + |g|);
      LeftOfSeries(q, table, nextId, m);
    }
  }

  // ---------------------------------------------------------------------
  // From the first entry to its record and back

  // The file can hold the entry, it has a length, and a series is not of a
  // first date gone by when it is read.
  predicate Loadable(e: Entry, now: int) {
    (e.recurrence ==> now <= e.start) && e.start < e.end && InFileYears(e.start) && InFileYears(e.end)
  }

  lemma {:induction false} LowestIs(q: seq<Entry>, id: int, low: int)
    requires forall e :: e in q && e.recurrence && e.id == id ==> low <= e.number
    ensures LowestNumber(q, id, low) == low
    decreases |q|
  {
    if q != [] {
      LowestIs(q[1..], id, low);
    }
  }

  lemma {:induction false} AboveMembers(items: seq<int>, low: int)
    ensures forall n :: n in Above(items, low) <==> n in items && low < n
    decreases |items|
  {
    if items != [] {
      AboveMembers(items[1..], low);
      assert items == [items[0]] + items[1..];
    }
  }

  // The first entry of a series has the lowest number: the search of the
  // writer comes back with the entry's own.
  lemma HeadIsLowest(q: seq<Entry>, nextId: int)
    requires q != [] && CardNumbers(q, nextId) && StrictlySorted(q) && q[0].recurrence
    ensures LowestNumber(q[1..], q[0].id, q[0].number) == q[0].number
  {
    hide CardNumbers;
    forall e | e in q[1..] && e.recurrence && e.id == q[0].id
      ensures q[0].number <= e.number
    {
      HeadIsFirst(q, nextId, e);
    }
    LowestIs(q[1..], q[0].id, q[0].number);
  }

  // What is read back of the record written for the head of q.
  lemma ReadBack(q: seq<Entry>, table: seq<Excluded>, nextId: int, now: int)
    requires q != [] && CardNumbers(q, nextId) && StrictlySorted(q) && Loadable(q[0], now)
    ensures var r := Request(RecordOf(q, table));
            if q[0].recurrence then r == q[0].(seqnbr := -1, id := 0) else r == Content(q[0]).(seqnbr := -1)
  {
    hide CardNumbers, StrictlySorted, RecordOf, Request, LowestNumber;
    if q[0].recurrence {
      HeadIsLowest(q, nextId);
    }
    ReadLowest(q, table, now);
  }

  lemma ReadLowest(q: seq<Entry>, table: seq<Excluded>, now: int)
    requires q != [] && Loadable(q[0], now)
    requires q[0].recurrence ==> LowestNumber(q[1..], q[0].id, q[0].number) == q[0].number
    ensures var r := Request(RecordOf(q, table));
            if q[0].recurrence then r == q[0].(seqnbr := -1, id := 0) else r == Content(q[0]).(seqnbr := -1)
  {
    hide FromTimestamp, ToTimestamp, LowestNumber;
    TimestampRoundTrip(q[0].start);
    TimestampRoundTrip(q[0].end);
    YearsInFile(q[0].start);
    YearsInFile(q[0].end);
  }

  lemma ReadBackIsRegular(q: seq<Entry>, table: seq<Excluded>, nextId: int, now: int)
    requires q != [] && CardNumbers(q, nextId) && StrictlySorted(q) && Loadable(q[0], now)
    ensures ToCome(RecordOf(q, table), now)
  {
    hide Nth, Steady, Weekday, RecordOf, Request, Follows;
    ReadBack(q, table, nextId, now);
    assert Renewable(q[0], nextId);
  }

  lemma {:induction false} ExcludesAreLater(q: seq<Entry>, table: seq<Excluded>, nextId: int)
    requires q != [] && CardNumbers(q, nextId) && StrictlySorted(q) && q[0].recurrence
    ensures forall n :: n in Excludes(RecordOf(q, table)) <==> n in ExcludedItems(table, q[0].id) && q[0].number < n
  {
    hide CardNumbers, LowestNumber, FromTimestamp;
    HeadIsLowest(q, nextId);
    AboveMembers(ExcludedItems(table, q[0].id), q[0].number);
  }

  lemma ReadBackKind(q: seq<Entry>, table: seq<Excluded>)
    requires q != []
    ensures Request(RecordOf(q, table)).recurrence == q[0].recurrence
  {
    hide ToTimestamp, FromTimestamp, FileDate, LowestNumber;
  }

  // ---------------------------------------------------------------------
  // What a record makes

  // A record of recordings to come.
  predicate ToCome(r: Record, now: int) {
    Request(r).start < Request(r).end && Regular(Request(r), now)
  }

  // The entries that reading the record makes, but for their sequence numbers
  // and series id.
  function Plan(r: Record): seq<Entry> {
    var e := Request(r);
    if e.recurrence then Unroll(e, e.Time(), 0, 0, 0, Excludes(r)) else [e]
  }

  lemma {:induction false} UnrollAlike(r: Entry, x: Span, i: nat, s: int, id: int, s': int, id': int,
                                       excluded: seq<int>)
    requires i <= r.num
    ensures var es, ds := Unroll(r, x, i, s, id, excluded), Unroll(r, x, i, s', id', excluded);
            && |es| == |ds|
            && forall k :: 0 <= k < |es| ==> es[k].Time() == ds[k].Time() && Content(es[k]) == Content(ds[k])
    decreases r.num - i
  {
    hide Next;
    if i < r.num {
      if r.number + i in excluded {
        UnrollAlike(r, x, i + 1, s, id, s', id', excluded);
      } else {
        UnrollAlike(r, Next(r.rtype, x), i + 1, s + 1, id, s' + 1, id', excluded);
      }
    }
  }

  lemma MadeAsPlanned(r: Record, now: int, seqnbr: int, id: int)
    requires ToCome(r, now)
    ensures var es := NewEntries(Request(r), now, seqnbr, id, Excludes(r));
            && |es| == |Plan(r)| <= Count(Request(r))
            && forall k :: 0 <= k < |es| ==> es[k].Time() == Plan(r)[k].Time() && Content(es[k]) == Content(Plan(r)[k])
  {
    var e := Request(r);
    hide Request, Unroll, Adjusted, Steady, Weekday;
    if e.recurrence {
      AdjustedIsIdentity(e.rtype, e.Time(), now);
      UnrollAlike(e, e.Time(), 0, seqnbr, id, 0, 0, Excludes(r));
    }
    NewEntriesTimes(e, now, seqnbr, id, Excludes(r));
  }

  // Of a series with at most its last numbers deleted the record makes the
  // dates and numbers from the first on that are not deleted.
  lemma PlanOfHead(q: seq<Entry>, table: seq<Excluded>, nextId: int, now: int)
    requires q != [] && CardKept(q, table, nextId) && StrictlySorted(q) && Loadable(q[0], now)
    requires q[0].recurrence && DeletedAtEnd(q[0], table)
    ensures var r, a := RecordOf(q, table), q[0];
            && Request(r) == a.(seqnbr := -1, id := 0) && AtEnd(Request(r), Excludes(r))
            && |Plan(r)| == LeftOf(a, table)
            && forall k :: 0 <= k < |Plan(r)| ==>
                 Plan(r)[k] == Occurrence(Request(r), Nth(a.rtype, a.Time(), k), k, k, 0)
  {
    var r, a := RecordOf(q, table), q[0];
    assert CardNumbers(q, nextId) && Renewable(a, nextId);
    RepeatTypeKnown(a, nextId);
    ReadBack(q, table, nextId, now);
    ExcludesAreLater(q, table, nextId);
    hide RecordOf, Request, Unroll, CardKept, Excludes;
    SameLeft(a, Request(r), ExcludedItems(table, a.id), Excludes(r), 0);
    UnrollAtEnd(Request(r), a.Time(), 0, 0, 0, Excludes(r));
  }

  lemma {:induction false} SameLeft(a: Entry, b: Entry, items: seq<int>, above: seq<int>, i: nat)
    requires a.number == b.number && a.num == b.num && i <= a.num && a.number !in items
    requires forall n :: n in above <==> n in items && a.number < n
    ensures Left(a, i, items) == Left(b, i, above)
    decreases a.num - i
  {
    if i < a.num {
      SameLeft(a, b, items, above, i + 1);
    }
  }

  // Where the table accounts for every number, that is just what is pending.
  lemma SeriesRemade(q: seq<Entry>, table: seq<Excluded>, nextId: int, now: int)
    requires q != [] && CardSeries(q, table, nextId) && StrictlySorted(q) && Loadable(q[0], now)
    requires q[0].recurrence && DeletedAtEnd(q[0], table)
    ensures var p, g := Plan(RecordOf(q, table)), Of(q, q[0].id);
            |p| == |g| && forall k :: 0 <= k < |g| ==> p[k].Time() == g[k].Time() && Content(p[k]) == Content(g[k])
  {
    hide Nth, RecordOf, Request, CardSeries, Of, StrictlySorted, Plan, DeletedAtEnd, LeftOf;
    SeriesIsKept(q, table, nextId);
    hide CardKept;
    PlanOfHead(q, table, nextId, now);
    SizeOfSeries(q, table, nextId);
    var g := Of(q, q[0].id);
    forall k | 0 <= k < |g|
      ensures Plan(RecordOf(q, table))[k].Time() == g[k].Time() && Content(Plan(RecordOf(q, table))[k]) == Content(g[k])
    {
      LeftOfSeries(q, table, nextId, k);
    }
  }

  lemma {:induction false} OfRises(q: seq<Entry>, nextId: int)
    requires q != [] && CardNumbers(q, nextId) && StrictlySorted(q)
    ensures NumbersRise(Of(q, q[0].id))
  {
    hide CardNumbers, StrictlySorted, Of;
    OfMembers(q, q[0].id);
    var g := Of(q, q[0].id);
    forall i, j | 0 <= i < j < |g|
      ensures g[i].number < g[j].number
    {
      LowerInSeries(q, nextId, i, j);
    }
  }

  lemma {:induction false} UnrollRises(r: Entry, x: Span, i: nat, s: int, id: int, excluded: seq<int>)
    requires i <= r.num && r.recurrence
    ensures NumbersRise(Unroll(r, x, i, s, id, excluded))
    decreases r.num - i
  {
    hide Next;
    if i < r.num {
      if r.number + i in excluded {
        UnrollRises(r, x, i + 1, s, id, excluded);
      } else {
        UnrollRises(r, Next(r.rtype, x), i + 1, s + 1, id, excluded);
        var rest := Unroll(r, Next(r.rtype, x), i + 1, s + 1, id, excluded);
        forall j | 0 <= j < |rest|
          ensures r.number + i < rest[j].number
        {
          UnrolledEntry(r, Next(r.rtype, x), i + 1, s + 1, id, excluded, rest[j]);
        }
      }
    }
  }

  // In any case nothing pending is left out.
  lemma PlanCovers(q: seq<Entry>, table: seq<Excluded>, nextId: int, now: int, c: Entry)
    requires q != [] && CardKept(q, table, nextId) && StrictlySorted(q) && Loadable(q[0], now)
    requires q[0].recurrence && DeletedAtEnd(q[0], table)
    ensures CountIn(Of(q, q[0].id), c) <= CountIn(Plan(RecordOf(q, table)), c)
  {
    var r, g := RecordOf(q, table), Of(q, q[0].id);
    RecordRises(q, table, nextId, now);
    CountRising(g, c);
    CountRising(Plan(r), c);
    hide CardKept, RecordOf, Plan, Of, StrictlySorted, NumbersRise, DeletedAtEnd, Loadable, Content;
    OfMembers(q, q[0].id);
    if HasContent(g, c) {
      var e :| e in g && Content(e) == c;
      PendingIsMade(q, table, nextId, now, e);
    }
  }

  lemma RecordRises(q: seq<Entry>, table: seq<Excluded>, nextId: int, now: int)
    requires q != [] && CardNumbers(q, nextId) && StrictlySorted(q) && Loadable(q[0], now) && q[0].recurrence
    ensures NumbersRise(Of(q, q[0].id)) && NumbersRise(Plan(RecordOf(q, table)))
  {
    hide CardNumbers, RecordOf, StrictlySorted, Of, NumbersRise, Request, Unroll, Loadable, Excludes;
    ReadBack(q, table, nextId, now);
    OfRises(q, nextId);
    var r := RecordOf(q, table);
    UnrollRises(Request(r), Request(r).Time(), 0, 0, 0, Excludes(r));
  }

  lemma PendingIsMade(q: seq<Entry>, table: seq<Excluded>, nextId: int, now: int, e: Entry)
    requires q != [] && CardKept(q, table, nextId) && StrictlySorted(q) && Loadable(q[0], now)
    requires q[0].recurrence && DeletedAtEnd(q[0], table) && e in q && SameSeries(q[0], e)
    ensures HasContent(Plan(RecordOf(q, table)), Content(e))
  {
    assert Follows(q[0], e);
    hide CardKept, RecordOf, Request, Plan, StrictlySorted, Nth, DeletedAtEnd, LeftOf, Loadable, Content, Follows;
    PlanOfHead(q, table, nextId, now);
    PendingIsLeft(q, table, nextId, e);
    var p, k := Plan(RecordOf(q, table)), e.number - q[0].number;
    SameOccurrence(q[0], e, p[k], k);
    assert p[k] in p;
  }

  lemma SameOccurrence(a: Entry, e: Entry, d: Entry, k: nat)
    requires a.recurrence && e.recurrence && Follows(a, e) && k == e.number - a.number && k <= a.num
    requires d == Occurrence(a.(seqnbr := -1, id := 0), Nth(a.rtype, a.Time(), k), k, k, 0)
    ensures Content(d) == Content(e)
  {
    hide Nth;
  }

  // ---------------------------------------------------------------------
  // Whether the record brings back the dates

  // It makes the numbers that are pending, none of them later than it was; and
  // all on their dates exactly when no episode is pending behind a deleted one.
  lemma PlanIsEarlier(q: seq<Entry>, table: seq<Excluded>, nextId: int, now: int)
    requires q != [] && CardSeries(q, table, nextId) && StrictlySorted(q) && Loadable(q[0], now) && q[0].recurrence
    ensures var p, g := Plan(RecordOf(q, table)), Of(q, q[0].id);
            && |p| == |g|
            && (forall k :: 0 <= k < |g| ==> p[k].number == g[k].number && p[k].start <= g[k].start)
            && StartSum(p) <= StartSum(g)
            && (StartSum(p) == StartSum(g) <==> DeletedAtEnd(q[0], table))
  {
    hide *;
    var p, g := Plan(RecordOf(q, table)), Of(q, q[0].id);
    PlanNumbers(q, table, nextId, now);
    forall k | 0 <= k < |p|
      ensures p[k].start <= g[k].start
      ensures p[k].start == g[k].start <==> NoneBefore(q[0], g[k].number, table)
    {
      DateOfNumber(q, table, nextId, now, k);
    }
    NoneBehindGap(q, table, nextId);
    SumTells(p, g, q[0], table);
  }

  lemma SumTells(p: seq<Entry>, g: seq<Entry>, a: Entry, table: seq<Excluded>)
    requires |p| == |g|
    requires forall k :: 0 <= k < |g| ==>
               p[k].start <= g[k].start && (p[k].start == g[k].start <==> NoneBefore(a, g[k].number, table))
    ensures StartSum(p) <= StartSum(g)
    ensures StartSum(p) == StartSum(g) <==> forall e :: e in g ==> NoneBefore(a, e.number, table)
  {
    hide NoneBefore, StartSum;
    NoneLater(p, g);
  }

  lemma NoneBehindGap(q: seq<Entry>, table: seq<Excluded>, nextId: int)
    requires q != [] && CardSeries(q, table, nextId) && StrictlySorted(q) && q[0].recurrence
    ensures (forall e :: e in Of(q, q[0].id) ==> NoneBefore(q[0], e.number, table)) <==> DeletedAtEnd(q[0], table)
  {
    hide CardSeries, StrictlySorted, Of, DeletedAtEnd, NoneBefore;
    OfMembers(q, q[0].id);
    if DeletedAtEnd(q[0], table) {
      forall e | e in Of(q, q[0].id)
        ensures NoneBefore(q[0], e.number, table)
      {
        EndAfterPending(q, table, nextId, e);
      }
    } else {
      var e := SomeBehindGap(q, table, nextId);
    }
  }

  // No number of a's series from its own to before n is deleted.
  predicate NoneBefore(a: Entry, n: int, table: seq<Excluded>) {
    forall m :: a.number <= m < n ==> m !in ExcludedItems(table, a.id)
  }

  lemma PlanNumbers(q: seq<Entry>, table: seq<Excluded>, nextId: int, now: int)
    requires q != [] && CardSeries(q, table, nextId) && StrictlySorted(q) && Loadable(q[0], now) && q[0].recurrence
    ensures var p, g := Plan(RecordOf(q, table)), Of(q, q[0].id);
            |p| == |g| && forall k :: 0 <= k < |g| ==> p[k].number == g[k].number
  {
    var r, a := RecordOf(q, table), q[0];
    RecordRises(q, table, nextId, now);
    hide CardSeries, RecordOf, Plan, StrictlySorted, Loadable, Of, NumbersRise, HasNumber;
    forall n
      ensures HasNumber(Plan(r), n) <==> HasNumber(Of(q, a.id), n)
    {
      NumberMade(q, table, nextId, now, n);
      NumberPending(q, table, nextId, n);
    }
    SameNumbers(Plan(r), Of(q, a.id));
  }

  lemma NumberMade(q: seq<Entry>, table: seq<Excluded>, nextId: int, now: int, n: int)
    requires q != [] && CardSeries(q, table, nextId) && StrictlySorted(q) && Loadable(q[0], now) && q[0].recurrence
    ensures HasNumber(Plan(RecordOf(q, table)), n)
       <==> q[0].number <= n < q[0].number + q[0].num && n !in ExcludedItems(table, q[0].id)
  {
    hide *;
    HeadOfSeries(q, table, nextId, now);
    NumberUnrolled(RecordOf(q, table), n);
    SameRange(Request(RecordOf(q, table)), q[0]);
  }

  // What the record of the first entry says of its series.
  lemma HeadOfSeries(q: seq<Entry>, table: seq<Excluded>, nextId: int, now: int)
    requires q != [] && CardSeries(q, table, nextId) && StrictlySorted(q) && Loadable(q[0], now) && q[0].recurrence
    ensures var r, a := RecordOf(q, table), q[0];
            && 1 <= a.rtype <= 9 && Known(Request(r).rtype) && Request(r).recurrence
            && Request(r) == a.(seqnbr := -1, id := 0)
            && a.number !in ExcludedItems(table, a.id)
            && forall n :: n in Excludes(r) <==> n in ExcludedItems(table, a.id) && a.number < n
  {
    assert CardNumbers(q, nextId) && Renewable(q[0], nextId);
    FirstIsNotDeleted(q, table, nextId);
    hide CardSeries, CardNumbers, RecordOf, StrictlySorted, Loadable, Renewable, Request, Excludes, ExcludedItems;
    RepeatTypeKnown(q[0], nextId);
    ReadBack(q, table, nextId, now);
    ExcludesAreLater(q, table, nextId);
  }

  lemma SameRange(r: Entry, a: Entry)
    requires r == a.(seqnbr := -1, id := 0)
    ensures r.number == a.number && r.num == a.num
  {
  }

  lemma FirstIsNotDeleted(q: seq<Entry>, table: seq<Excluded>, nextId: int)
    requires q != [] && CardSeries(q, table, nextId) && q[0].recurrence
    ensures q[0].number !in ExcludedItems(table, q[0].id)
  {
    hide CardSeries, CardNumbers;
    SeriesIsKept(q, table, nextId);
  }

  lemma NumberUnrolled(r: Record, n: int)
    requires Known(Request(r).rtype) && Request(r).recurrence
    ensures HasNumber(Plan(r), n)
       <==> Request(r).number <= n < Request(r).number + Request(r).num && n !in Excludes(r)
  {
    hide Request, Excludes, Unroll;
    var e, p := Request(r), Plan(r);
    UnrolledNumbers(e, e.Time(), 0, 0, 0, Excludes(r), n);
    forall d | d in p
      ensures d.recurrence && d.id == 0
    {
      UnrolledEntry(e, e.Time(), 0, 0, 0, Excludes(r), d);
    }
    if HasNumber(p, n) {
      var i :| 0 <= i < |p| && p[i].number == n;
      assert p[i] in p;
    }
  }

  lemma NumberPending(q: seq<Entry>, table: seq<Excluded>, nextId: int, n: int)
    requires q != [] && CardSeries(q, table, nextId) && StrictlySorted(q) && q[0].recurrence
    ensures HasNumber(Of(q, q[0].id), n)
       <==> q[0].number <= n < q[0].number + q[0].num && n !in ExcludedItems(table, q[0].id)
  {
    hide Follows, Renewable, StrictlySorted, Of;
    var a, g := q[0], Of(q, q[0].id);
    OfMembers(q, a.id);
    assert Covered(q, table, a);
    if HasNumber(g, n) {
      var i :| 0 <= i < |g| && g[i].number == n;
      var e := g[i];
      assert e in q && Renewable(e, nextId) && Follows(a, e);
      HeadIsFirst(q, nextId, e);
      LabelBound(a, e, nextId);
      assert HasEpisode(q, a.id, n);
    }
  }

  // The k-th date made against the k-th pending, which has the same number.
  lemma DateOfNumber(q: seq<Entry>, table: seq<Excluded>, nextId: int, now: int, k: nat)
    requires q != [] && CardSeries(q, table, nextId) && StrictlySorted(q) && Loadable(q[0], now) && q[0].recurrence
    requires var p, g := Plan(RecordOf(q, table)), Of(q, q[0].id); k < |p| && k < |g| && p[k].number == g[k].number
    ensures var p, g := Plan(RecordOf(q, table)), Of(q, q[0].id);
            && p[k].start <= g[k].start
            && (p[k].start == g[k].start <==> NoneBefore(q[0], g[k].number, table))
  {
    var a, e := q[0], Of(q, q[0].id)[k];
    OfMembers(q, a.id);
    assert e in q && Follows(a, e);
    hide *;
    HeadOfSeries(q, table, nextId, now);
    DateMade(RecordOf(q, table), a, e, k, table);
  }

  lemma DateMade(r: Record, a: Entry, e: Entry, k: nat, table: seq<Excluded>)
    requires 1 <= a.rtype <= 9 && a.recurrence && Request(r) == a.(seqnbr := -1, id := 0)
    requires a.number !in ExcludedItems(table, a.id)
    requires forall n :: n in Excludes(r) <==> n in ExcludedItems(table, a.id) && a.number < n
    requires k < |Plan(r)| && Follows(a, e) && Plan(r)[k].number == e.number
    ensures Plan(r)[k].start <= e.start && (Plan(r)[k].start == e.start <==> NoneBefore(a, e.number, table))
  {
    hide Request, Excludes, Unroll, Nth, ExcludedItems;
    GapShiftsDates(Request(r), a.Time(), 0, 0, Excludes(r), k);
  }

  // A pending number has no deleted one before it if only the last are deleted.
  lemma EndAfterPending(q: seq<Entry>, table: seq<Excluded>, nextId: int, e: Entry)
    requires q != [] && CardSeries(q, table, nextId) && StrictlySorted(q) && DeletedAtEnd(q[0], table)
    requires e in q && SameSeries(q[0], e)
    ensures NoneBefore(q[0], e.number, table)
  {
    hide CardSeries, CardKept, StrictlySorted, Left;
    SeriesIsKept(q, table, nextId);
    PendingIsLeft(q, table, nextId, e);
  }

  lemma SomeBehindGap(q: seq<Entry>, table: seq<Excluded>, nextId: int) returns (e: Entry)
    requires q != [] && CardSeries(q, table, nextId) && q[0].recurrence && !DeletedAtEnd(q[0], table)
    ensures e in q && SameSeries(q[0], e) && !NoneBefore(q[0], e.number, table)
  {
    hide Follows, Renewable;
    var a := q[0];
    var items := ExcludedItems(table, a.id);
    var m, n :| a.number <= m < n < a.number + a.num && m in items && n !in items;
    assert Covered(q, table, a) && HasEpisode(q, a.id, n);
    e :| e in q && e.recurrence && e.id == a.id && e.number == n;
  }
}
