// When the saved records fit their cards again, told by the schedule itself.
module Fitting {
  import opened Recurrence
  import opened Schedule
  import opened Booking
  import opened Episodes
  import opened Database
  import opened Counting
  import opened SeriesRecord
  import opened Reloading
  import opened Returning

  // Is the record of the j-th entry written before that of the i-th?
  ghost predicate SavedBefore(q: seq<Entry>, j: nat, i: nat)
    requires j < |q| && i <= |q|
  {
    exists k :: 0 <= k < i && (k == j || SameSeries(q[k], q[j]))
  }

  // The writer counts a series' numbers without those deleted at its end, but
  // the reader tests the dates of all and asks for room for all.
  ghost predicate TailFree(q: seq<Entry>, i: nat, table: seq<Excluded>, maxEntries: nat)
    requires i < |q|
  {
    var a := q[i];
    && |q| + a.num - LeftOf(a, table) <= maxEntries
    && forall n: nat, j: nat :: LeftOf(a, table) <= n < a.num && j < |q| && SavedBefore(q, j, i) ==>
         ApartFrom(Nth(a.rtype, a.Time(), n), q[j].Time())
  }

  ghost predicate TailsFree(q: seq<Entry>, table: seq<Excluded>, maxEntries: nat) {
    forall i :: 0 <= i < |q| && q[i].recurrence && Leads(q, i) ==> TailFree(q, i, table, maxEntries)
  }

  // What is made so far stands where entries saved before the i-th stood.
  ghost predicate MadeBefore(done: seq<Entry>, q: seq<Entry>, i: nat)
    requires i <= |q|
  {
    forall m :: 0 <= m < |done| ==> EarlierAt(q, i, done[m].Time())
  }

  ghost predicate EarlierAt(q: seq<Entry>, i: nat, x: Span)
    requires i <= |q|
  {
    exists j :: 0 <= j < |q| && SavedBefore(q, j, i) && q[j].Time() == x
  }

  // An entry of the series or single recording of a leading one, against those
  // saved before.
  lemma ApartFromEarlier(q: seq<Entry>, i: nat, e: Entry, done: seq<Entry>, m: nat)
    requires Separated(q) && i < |q| && Leads(q, i) && MadeBefore(done, q, i) && m < |done|
    requires e in q && (e == q[i] || SameSeries(q[i], e))
    ensures ApartFrom(e.Time(), done[m].Time())
  {
    hide Separated;
    assert EarlierAt(q, i, done[m].Time());
    var j :| 0 <= j < |q| && SavedBefore(q, j, i) && q[j].Time() == done[m].Time();
    var k :| 0 <= k < i && (k == j || SameSeries(q[k], q[j]));
    SeparatedIsStrict(q);
    if q[j] == e {
      assert false;
    }
    ApartInQueue(q, q[j], e);
  }

  lemma TimesAreClear(q: seq<Entry>, i: nat, table: seq<Excluded>, nextId: int, now: int, maxEntries: nat,
                      done: seq<Entry>)
    requires i < |q| && Separated(q) && CardSeries(q[i..], table, nextId) && StrictlySorted(q[i..])
    requires Leads(q, i) && Loadable(q[i], now) && MadeBefore(done, q, i)
    requires q[i].recurrence ==> DeletedAtEnd(q[i], table) && TailFree(q, i, table, maxEntries)
    ensures ClearOf(Request(RecordOf(q[i..], table)), done)
  {
    var s := q[i..];
    var r := Request(RecordOf(s, table));
    assert s[0] == q[i] && forall e :: e in s ==> e in q;
    SeriesIsNumbered(s, table, nextId);
    hide RecordOf, Request, CardSeries, CardNumbers, StrictlySorted, Separated, Loadable, Leads, MadeBefore;
    hide DeletedAtEnd;
    hide TailFree, LeftOf, Nth;
    ReadBack(s, table, nextId, now);
    forall n, m | 0 <= n < Count(r) && 0 <= m < |done|
      ensures ApartFrom(Time(r, n), done[m].Time())
    {
      if !r.recurrence {
        ApartFromEarlier(q, i, q[i], done, m);
      } else if n < LeftOf(q[i], table) {
        var e := PendingAt(s, table, nextId, n);
        ApartFromEarlier(q, i, e, done, m);
      } else {
        DeletedIsApart(q, i, table, maxEntries, done, n, m);
      }
    }
  }

  // Each date up to the first deleted number is that of a pending episode.
  lemma PendingAt(s: seq<Entry>, table: seq<Excluded>, nextId: int, n: nat) returns (e: Entry)
    requires s != [] && CardSeries(s, table, nextId) && StrictlySorted(s)
    requires s[0].recurrence && DeletedAtEnd(s[0], table) && n < LeftOf(s[0], table)
    ensures e in s && SameSeries(s[0], e) && e.Time() == Nth(s[0].rtype, s[0].Time(), n)
  {
    hide CardSeries, StrictlySorted, DeletedAtEnd, LeftOf, Nth, Of;
    SizeOfSeries(s, table, nextId);
    LeftOfSeries(s, table, nextId, n);
    OfMembers(s, s[0].id);
    e := Of(s, s[0].id)[n];
  }

  lemma DeletedIsApart(q: seq<Entry>, i: nat, table: seq<Excluded>, maxEntries: nat, done: seq<Entry>, n: nat, m: nat)
    requires i < |q| && TailFree(q, i, table, maxEntries) && MadeBefore(done, q, i) && m < |done|
    requires LeftOf(q[i], table) <= n < q[i].num
    ensures ApartFrom(Nth(q[i].rtype, q[i].Time(), n), done[m].Time())
  {
    hide Nth, LeftOf, SavedBefore;
    assert EarlierAt(q, i, done[m].Time());
    var j :| 0 <= j < |q| && SavedBefore(q, j, i) && q[j].Time() == done[m].Time();
  }

  // Its entries come after those made before.
  lemma MadeNow(q: seq<Entry>, i: nat, table: seq<Excluded>, nextId: int, now: int, done: seq<Entry>)
    requires i < |q| && CardSeries(q[i..], table, nextId) && StrictlySorted(q[i..])
    requires Loadable(q[i], now) && MadeBefore(done, q, i) && (q[i].recurrence ==> DeletedAtEnd(q[i], table))
    ensures MadeBefore(done + Plan(RecordOf(q[i..], table)), q, i + 1)
    ensures |Plan(RecordOf(q[i..], table))| == |StandsFor(q[i..])|
  {
    hide *;
    assert q[i..][0] == q[i];
    HeadTimes(q[i..], table, nextId, now);
    MadeOnTop(q, i, done, Plan(RecordOf(q[i..], table)), StandsFor(q[i..]));
  }

  // An entry of the series or single recording at the head of s.
  predicate MadeWith(s: seq<Entry>, e: Entry) {
    s != [] && e in s && (e == s[0] || SameSeries(s[0], e))
  }

  lemma HeadTimes(s: seq<Entry>, table: seq<Excluded>, nextId: int, now: int)
    requires s != [] && CardSeries(s, table, nextId) && StrictlySorted(s)
    requires Loadable(s[0], now) && (s[0].recurrence ==> DeletedAtEnd(s[0], table))
    ensures var p, g := Plan(RecordOf(s, table)), StandsFor(s);
            && |p| == |g|
            && forall k :: 0 <= k < |g| ==> p[k].Time() == g[k].Time() && MadeWith(s, g[k])
  {
    hide CardSeries, StrictlySorted, Loadable, RecordOf, Plan, DeletedAtEnd, Of, Content;
    if s[0].recurrence {
      OfMembers(s, s[0].id);
      SeriesRemade(s, table, nextId, now);
    } else {
      SeriesIsNumbered(s, table, nextId);
      SingleRemade(s, table, nextId, now);
    }
  }

  lemma MadeOnTop(q: seq<Entry>, i: nat, done: seq<Entry>, p: seq<Entry>, g: seq<Entry>)
    requires i < |q| && MadeBefore(done, q, i) && |p| == |g|
    requires forall k :: 0 <= k < |g| ==> p[k].Time() == g[k].Time() && MadeWith(q[i..], g[k])
    ensures MadeBefore(done + p, q, i + 1)
  {
    hide SavedBefore, EarlierAt, MadeWith;
    MadeStays(q, i, done);
    forall m | 0 <= m < |done + p|
      ensures EarlierAt(q, i + 1, (done + p)[m].Time())
    {
      if m < |done| {
        assert (done + p)[m] == done[m];
      } else {
        MadeHere(q, i, g[m - |done|]);
        assert (done + p)[m] == p[m - |done|];
      }
    }
  }

  lemma MadeHere(q: seq<Entry>, i: nat, e: Entry)
    requires i < |q| && MadeWith(q[i..], e)
    ensures EarlierAt(q, i + 1, e.Time())
  {
    assert q[i..][0] == q[i] && e in q;
    if e == q[i] {
      assert SavedBefore(q, i, i + 1);
    } else {
      var j :| 0 <= j < |q| && q[j] == e;
      assert SavedBefore(q, j, i + 1);
    }
  }

  lemma {:induction false} CardFits(q: seq<Entry>, i: nat, saved: seq<int>, table: seq<Excluded>, nextId: int, now: int,
                                    maxEntries: nat, done: seq<Entry>)
    requires i <= |q| && Separated(q) && CardSeries(q[i..], table, nextId) && CardReadable(q, now)
    requires EndsOnly(q[i..], saved, table) && TailsFree(q, table, maxEntries)
    requires forall j :: 0 <= j < i && q[j].recurrence ==> q[j].id in saved
    requires MadeBefore(done, q, i) && |done| + |Unsaved(q[i..], saved)| <= |q|
    ensures RecordsFit(SaveQueue(q[i..], saved, table).0, done, now, maxEntries)
    decreases |q| - i
  {
    hide Separated, CardSeries, StrictlySorted, Loadable, DeletedAtEnd, RecordOf, Request, MadeBefore, TailFree, Plan;
    if i < |q| {
      var s := q[i..];
      assert s[0] == q[i] && s[1..] == q[i + 1..];
      SuffixIsStrict(q, i);
      TailOfCard(s, table, nextId);
      if s[0].recurrence && s[0].id in saved {
        assert Unsaved(s, saved) == Unsaved(s[1..], saved);
        SavedIsPassed(s, saved, table);
        MadeStays(q, i, done);
        CardFits(q, i + 1, saved, table, nextId, now, maxEntries, done);
      } else {
        assert Leads(q, i);
        hide Leads, Unsaved, EndsOnly, ToCome, ClearOf;
        CardFitsAt(q, i, saved, table, nextId, now, maxEntries, done);
        var r := RecordOf(s, table);
        CardFits(q, i + 1, SavedAfter(s, saved), table, nextId, now, maxEntries, done + Plan(r));
        RecordInFront(s, saved, table);
      }
    }
  }

  lemma CardFitsAt(q: seq<Entry>, i: nat, saved: seq<int>, table: seq<Excluded>, nextId: int, now: int,
                   maxEntries: nat, done: seq<Entry>)
    requires i < |q| && Separated(q) && CardSeries(q[i..], table, nextId) && StrictlySorted(q[i..])
    requires CardReadable(q, now)
    requires EndsOnly(q[i..], saved, table) && TailsFree(q, table, maxEntries)
    requires Leads(q, i) && !(q[i].recurrence && q[i].id in saved)
    requires MadeBefore(done, q, i) && |done| + |Unsaved(q[i..], saved)| <= |q|
    ensures var s, r := q[i..], RecordOf(q[i..], table);
            && ToCome(r, now) && ClearOf(Request(r), done)
            && (Request(r).recurrence ==> |done| + Request(r).num <= maxEntries)
            && MadeBefore(done + Plan(r), q, i + 1)
            && |done + Plan(r)| + |Unsaved(s[1..], SavedAfter(s, saved))| <= |q|
            && EndsOnly(s[1..], SavedAfter(s, saved), table)
  {
    var s := q[i..];
    assert s[0] == q[i];
    assert Loadable(s[0], now) && (s[0].recurrence ==> DeletedAtEnd(s[0], table) && TailFree(q, i, table, maxEntries));
    SeriesIsNumbered(s, table, nextId);
    hide Separated, CardSeries, StrictlySorted, Loadable, DeletedAtEnd, RecordOf, Request, MadeBefore, Plan;
    hide Leads, CardReadable;
    hide Unsaved, EndsOnly, ToCome, ClearOf, TailsFree, LeftOf, StartSum, CountIn, CardNumbers, Of;
    ReadBackIsRegular(s, table, nextId, now);
    TimesAreClear(q, i, table, nextId, now, maxEntries, done);
    MadeNow(q, i, table, nextId, now, done);
    SplitAtHead(s, saved);
    EndsOnlySplit(s, saved, table, nextId);
    ReadBack(s, table, nextId, now);
    if s[0].recurrence {
      SizeOfSeries(s, table, nextId);
    }
  }

  lemma SuffixIsStrict(q: seq<Entry>, i: nat)
    requires Separated(q) && i <= |q|
    ensures StrictlySorted(q[i..])
  {
    SeparatedIsStrict(q);
  }

  lemma MadeStays(q: seq<Entry>, i: nat, done: seq<Entry>)
    requires i < |q| && MadeBefore(done, q, i)
    ensures MadeBefore(done, q, i + 1)
  {
    forall m | 0 <= m < |done|
      ensures EarlierAt(q, i + 1, done[m].Time())
    {
      assert EarlierAt(q, i, done[m].Time());
      var j :| 0 <= j < |q| && SavedBefore(q, j, i) && q[j].Time() == done[m].Time();
      assert SavedBefore(q, j, i + 1);
    }
  }

  // ---------------------------------------------------------------------
  // The whole schedule

  // The deleted dates are free on their cards, with room for the numbers asked
  // for; and single recordings find room wherever they go.
  ghost predicate Roomy(st: State) {
    && (forall v :: 0 <= v < |st.queues| ==> TailsFree(st.queues[v], st.excluded, st.maxEntries))
    && ((forall v, e :: 0 <= v < |st.queues| && e in st.queues[v] ==> e.recurrence)
        || SizeFrom(st.queues, 0) <= st.maxEntries)
  }

  lemma {:induction false} AllCardsFit(st: State, v: nat, saved: seq<int>, now: int)
    requires SeriesOk(st) && Readable(st, now) && GapsAtEnd(st) && Roomy(st)
    requires v <= |st.queues| && SavedElsewhere(st.queues, v, saved)
    ensures CardsFit(st.queues, v, saved, st.excluded, now, st.maxEntries)
    decreases |st.queues| - v
  {
    hide CardSeries, OneCardEach, TableOk, SaveQueue, EndsOnly, CardReadable, TailsFree, RecordsFit, Unsaved;
    hide SizeFrom, Separated;
    if v < |st.queues| {
      var q := st.queues[v];
      assert CardOk(q, st.ongoing[v]);
      NoneSavedYet(q, saved, st.excluded, now);
      SavedStaysElsewhere(st.queues, v, saved, st.excluded);
      assert q[0..] == q;
      NothingMade(q);
      CardFits(q, 0, saved, st.excluded, st.nextId, now, st.maxEntries, []);
      AllCardsFit(st, v + 1, SaveQueue(q, saved, st.excluded).1, now);
    }
  }

  lemma NothingMade(q: seq<Entry>)
    ensures MadeBefore([], q, 0)
  {
  }

  lemma {:induction false} SeriesOnly(q: seq<Entry>, saved: seq<int>, table: seq<Excluded>)
    requires forall e :: e in q ==> e.recurrence
    ensures OnlySeries(SaveQueue(q, saved, table).0)
    decreases |q|
  {
    hide RecordOf, Request;
    if q != [] {
      assert forall e :: e in q[1..] ==> e in q;
      assert q[0] in q;
      SeriesOnly(q[1..], if q[0].id in saved then saved else saved + [q[0].id], table);
      ReadBackKind(q, table);
    }
  }

  lemma {:induction false} SeriesOnlyInFile(queues: seq<seq<Entry>>, v: nat, saved: seq<int>, table: seq<Excluded>)
    requires v <= |queues| && forall w, e :: v <= w < |queues| && e in queues[w] ==> e.recurrence
    ensures OnlySeries(SaveFrom(queues, v, saved, table))
    decreases |queues| - v
  {
    hide SaveQueue, Request;
    if v < |queues| {
      SeriesOnly(queues[v], saved, table);
      SeriesOnlyInFile(queues, v + 1, SaveQueue(queues[v], saved, table).1, table);
    }
  }

  // If besides the records can be read, and no episode is pending behind a
  // deleted one, nothing pending is lost by a restart.
  lemma RoomyIsSaveable(st: State, now: int)
    requires SeriesOk(st) && Readable(st, now) && GapsAtEnd(st) && Roomy(st)
    ensures Saveable(st, now) && SameRecordings(Reload(st, now), st)
  {
    hide SeriesOk, Readable, GapsAtEnd, TailsFree, CardsFit, SaveFrom, SizeFrom, Planned, Load;
    hide SameRecordings, StartSum, OnlySeries;
    AllCardsFit(st, 0, [], now);
    if forall v, e :: 0 <= v < |st.queues| && e in st.queues[v] ==> e.recurrence {
      SeriesOnlyInFile(st.queues, 0, [], st.excluded);
    } else {
      WholeAgainstFile(st, now);
      JointCounts(st.queues, 0, Entry(0, "", 0, 0, false, 0, 0, 0, 0));
    }
    ReloadIsExact(st, now);
  }

  // Of a series without any deleted number nothing is asked here.
  lemma WholeTailIsFree(q: seq<Entry>, i: nat, table: seq<Excluded>, maxEntries: nat)
    requires i < |q| <= maxEntries && forall n :: n in ExcludedItems(table, q[i].id) ==> n < q[i].number
    ensures DeletedAtEnd(q[i], table) && TailFree(q, i, table, maxEntries)
  {
    hide Nth, ExcludedItems;
  }

  // Without that last clause a single recording can be lost: with one slot a
  // card, the reader puts both on the first card, free at both times but full.
  lemma FullCardLoses(a: Entry, b: Entry, now: int)
    requires !a.recurrence && !b.recurrence && a.start < a.end < b.start < b.end
    requires InFileYears(a.start) && InFileYears(b.end)
    ensures var st := State(1, [[a], [b]], [None, None], 3, 1, []);
            && Booked(st) && Readable(st, now) && CardsFit(st.queues, 0, [], [], now, 1)
            && CountAll(st.queues, 0, Content(b)) == 1
            && CountAll(Reload(st, now).queues, 0, Content(b)) == 0
  {
    hide *;
    TwoAreBooked(a, b, now);
    TwoReloaded(a, b, now);
    YearsWithin(a, b);
    OneRecord(a);
    OneRecord(b);
    SinglesFit([[a], [b]], now);
    CountsOfTwo(a, b);
    CountTwo([[Content(a).(seqnbr := 1)], []], Content(b));
    CountTwo([[a], [b]], Content(b));
  }

  lemma TwoAreBooked(a: Entry, b: Entry, now: int)
    requires !a.recurrence && !b.recurrence && a.start < a.end < b.start < b.end
    requires InFileYears(a.start) && InFileYears(b.end)
    ensures var st := State(1, [[a], [b]], [None, None], 3, 1, []);
            Booked(st) && Readable(st, now)
  {
    YearsWithin(a, b);
    hide InFileYears;
    var st := State(1, [[a], [b]], [None, None], 3, 1, []);
    assert CardOk(st.queues[0], None) && CardOk(st.queues[1], None);
  }

  lemma CountsOfTwo(a: Entry, b: Entry)
    requires !a.recurrence && !b.recurrence && a.start < b.start
    ensures CountIn([a], Content(b)) == 0 && CountIn([b], Content(b)) == 1 && CountIn([], Content(b)) == 0
    ensures CountIn([Content(a).(seqnbr := 1)], Content(b)) == 0
  {
  }

  lemma TwoReloaded(a: Entry, b: Entry, now: int)
    requires !a.recurrence && !b.recurrence && a.start < a.end < b.start < b.end
    requires InFileYears(a.start) && InFileYears(b.end)
    ensures Reload(State(1, [[a], [b]], [None, None], 3, 1, []), now).queues == [[Content(a).(seqnbr := 1)], []]
  {
    YearsWithin(a, b);
    OneRecord(a);
    OneRecord(b);
    var r, s := RecordOf([a], []), RecordOf([b], []);
    hide RecordOf, Request, InFileYears, SaveFrom, Load, LoadOne;
    TwoRecords([[a], [b]]);
    FirstIsRead(r, a, now);
    SecondIsDropped(Content(a).(seqnbr := 1), s, now);
    TwoLoads(Empty(2, 1), r, s, now);
  }

  lemma YearsWithin(a: Entry, b: Entry)
    requires a.start < a.end < b.start < b.end && InFileYears(a.start) && InFileYears(b.end)
    ensures InFileYears(a.end) && InFileYears(b.start)
  {
  }

  lemma FirstIsRead(r: Record, a: Entry, now: int)
    requires Request(r) == Content(a).(seqnbr := -1) && !a.recurrence && a.start < a.end
    ensures LoadOne(Empty(2, 1), r, now) == Empty(2, 1).(queues := [[Content(a).(seqnbr := 1)], []], nextSeq := 2)
  {
    hide Request, SortByStart;
    var e := Content(a).(seqnbr := 1);
    AcceptedQueue(Empty(2, 1), 0, Request(r), Excludes(r), now);
    AppendIsInsert([], e, 1);
    assert [e][1..] == [] && AppendAll([], [e], 1) == Append([], e, 1) == [e];
    assert Empty(2, 1).queues[0 := [e]] == [[e], []];
  }

  lemma SecondIsDropped(e: Entry, s: Record, now: int)
    requires !Request(s).recurrence && e.start < e.end < Request(s).start < Request(s).end
    ensures LoadOne(Empty(2, 1).(queues := [[e], []], nextSeq := 2), s, now).queues == [[e], []]
  {
    hide Request, SortByStart;
    var u := Empty(2, 1).(queues := [[e], []], nextSeq := 2);
    var x := Request(s).(seqnbr := 2);
    AcceptedQueue(u, 0, Request(s), Excludes(s), now);
    assert [x][1..] == [] && AppendAll([e], [x], 1) == Append([e], x, 1) == [e];
  }

  lemma CountTwo(queues: seq<seq<Entry>>, c: Entry)
    requires |queues| == 2
    ensures CountAll(queues, 0, c) == CountIn(queues[0], c) + CountIn(queues[1], c)
  {
    hide CountIn;
    assert CountAll(queues, 2, c) == 0 && CountAll(queues, 1, c) == CountIn(queues[1], c);
  }

  lemma SinglesFit(queues: seq<seq<Entry>>, now: int)
    requires |queues| == 2 && |queues[0]| == |queues[1]| == 1 && !queues[0][0].recurrence && !queues[1][0].recurrence
    requires forall v :: 0 <= v < 2 ==> Request(RecordOf(queues[v], [])) == Content(queues[v][0]).(seqnbr := -1)
    requires forall v :: 0 <= v < 2 ==> queues[v][0].start < queues[v][0].end
    ensures CardsFit(queues, 0, [], [], now, 1)
  {
    hide RecordOf, Request, Plan;
    forall v | 0 <= v < 2
      ensures RecordsFit([RecordOf(queues[v], [])], [], now, 1)
      ensures SaveQueue(queues[v], [], []) == ([RecordOf(queues[v], [])], [])
    {
      var r := RecordOf(queues[v], []);
      assert [r][1..] == [] && queues[v][1..] == [] && [r] + [] == [r];
      assert RecordsFit([], [] + Plan(r), now, 1);
    }
    assert CardsFit(queues, 2, [], [], now, 1);
    assert CardsFit(queues, 1, [], [], now, 1);
  }
}
