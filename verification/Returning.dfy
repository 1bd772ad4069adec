// What comes back when the schedule is saved and read again, and what does not.
module Returning {
  import opened Schedule
  import opened Booking
  import opened Episodes
  import opened KeptSeries
  import opened Database
  import opened Counting
  import opened SeriesRecord
  import opened Reloading

  // ---------------------------------------------------------------------
  // What one record stands for

  // The entries of q that no record written so far stands for.
  function Unsaved(q: seq<Entry>, saved: seq<int>): seq<Entry>
    decreases |q|
  {
    if q == [] then []
    else (if q[0].recurrence && q[0].id in saved then [] else [q[0]]) + Unsaved(q[1..], saved)
  }

  lemma {:induction false} UnsavedAll(q: seq<Entry>, saved: seq<int>)
    requires forall e :: e in q && e.recurrence ==> e.id !in saved
    ensures Unsaved(q, saved) == q
    decreases |q|
  {
    if q != [] {
      UnsavedAll(q[1..], saved);
      assert q == [q[0]] + q[1..];
    }
  }

  lemma {:induction false} UnsavedSplit(q: seq<Entry>, saved: seq<int>, id: int, c: Entry)
    requires id !in saved
    ensures |Unsaved(q, saved)| == |Of(q, id)| + |Unsaved(q, saved + [id])|
    ensures StartSum(Unsaved(q, saved)) == StartSum(Of(q, id)) + StartSum(Unsaved(q, saved + [id]))
    ensures CountIn(Unsaved(q, saved), c) == CountIn(Of(q, id), c) + CountIn(Unsaved(q, saved + [id]), c)
    decreases |q|
  {
    hide Content;
    if q != [] {
      UnsavedSplit(q[1..], saved, id, c);
      InFront(q[0], Unsaved(q[1..], saved), c);
      InFront(q[0], Of(q[1..], id), c);
      InFront(q[0], Unsaved(q[1..], saved + [id]), c);
    }
  }

  lemma InFront(e: Entry, q: seq<Entry>, c: Entry)
    ensures CountIn([e] + q, c) == CountIn([e], c) + CountIn(q, c) && CountIn([] + q, c) == CountIn(q, c)
    ensures StartSum([e] + q) == e.start + StartSum(q) && StartSum([] + q) == StartSum(q)
  {
    hide Content;
    assert [] + q == q && ([e] + q)[1..] == q;
    CountConcat([e], q, c);
  }

  // What is left to save after the head of q is written, and what its record
  // stands for.
  function SavedAfter(q: seq<Entry>, saved: seq<int>): seq<int>
    requires q != []
  {
    if q[0].recurrence then saved + [q[0].id] else saved
  }

  function StandsFor(q: seq<Entry>): seq<Entry>
    requires q != []
  {
    if q[0].recurrence then Of(q, q[0].id) else [q[0]]
  }

  lemma SplitAtHead(q: seq<Entry>, saved: seq<int>)
    requires q != [] && !(q[0].recurrence && q[0].id in saved)
    ensures var rest, g, rest' := Unsaved(q, saved), StandsFor(q), Unsaved(q[1..], SavedAfter(q, saved));
            && |rest| == |g| + |rest'| && StartSum(rest) == StartSum(g) + StartSum(rest')
            && forall c :: CountIn(rest, c) == CountIn(g, c) + CountIn(rest', c)
  {
    hide CountIn, StartSum;
    var e := q[0];
    forall c
      ensures |Unsaved(q, saved)| == |StandsFor(q)| + |Unsaved(q[1..], SavedAfter(q, saved))|
      ensures StartSum(Unsaved(q, saved)) == StartSum(StandsFor(q)) + StartSum(Unsaved(q[1..], SavedAfter(q, saved)))
      ensures CountIn(Unsaved(q, saved), c)
           == CountIn(StandsFor(q), c) + CountIn(Unsaved(q[1..], SavedAfter(q, saved)), c)
    {
      if e.recurrence {
        UnsavedSplit(q, saved, e.id, c);
        assert Unsaved(q, saved + [e.id]) == Unsaved(q[1..], saved + [e.id]);
      } else {
        CountConcat([e], Unsaved(q[1..], saved), c);
        SumConcat([e], Unsaved(q[1..], saved));
      }
    }
    assert CountIn(Unsaved(q, saved), e)
        == CountIn(StandsFor(q), e) + CountIn(Unsaved(q[1..], SavedAfter(q, saved)), e);
  }

  lemma TailOfCard(q: seq<Entry>, table: seq<Excluded>, nextId: int)
    requires q != [] && CardSeries(q, table, nextId) && StrictlySorted(q)
    ensures CardSeries(q[1..], table, nextId) && StrictlySorted(q[1..])
  {
    hide CardSeries;
    WithoutOne(q, 0, table, table, nextId);
    assert q[..0] + q[1..] == q[1..];
  }

  lemma TailIsKept(q: seq<Entry>, table: seq<Excluded>, nextId: int)
    requires q != [] && CardKept(q, table, nextId) && StrictlySorted(q)
    ensures CardKept(q[1..], table, nextId) && StrictlySorted(q[1..])
  {
    hide CardKept;
    KeptSubset(q[1..], q, table, nextId);
  }

  lemma SingleRemade(q: seq<Entry>, table: seq<Excluded>, nextId: int, now: int)
    requires q != [] && CardNumbers(q, nextId) && StrictlySorted(q) && Loadable(q[0], now) && !q[0].recurrence
    ensures var p := Plan(RecordOf(q, table));
            |p| == 1 && p[0].Time() == q[0].Time() && Content(p[0]) == Content(q[0])
  {
    hide RecordOf, Request, CardNumbers, StrictlySorted;
    ReadBack(q, table, nextId, now);
  }

  // ---------------------------------------------------------------------
  // One card's records against its queue

  // The same recordings, each as often.
  ghost predicate SamePending(a: seq<Entry>, b: seq<Entry>) {
    forall c :: CountIn(a, c) == CountIn(b, c)
  }

  // Every entry that a record is written for can be read back.
  predicate HeadsLoadable(q: seq<Entry>, saved: seq<int>, now: int)
    decreases |q|
  {
    q != [] ==>
      if q[0].recurrence && q[0].id in saved then HeadsLoadable(q[1..], saved, now)
      else Loadable(q[0], now) && HeadsLoadable(q[1..], SavedAfter(q, saved), now)
  }

  // No episode still to be saved is pending behind a deleted one.
  ghost predicate EndsOnly(q: seq<Entry>, saved: seq<int>, table: seq<Excluded>) {
    forall a :: a in q && a.recurrence && a.id !in saved ==> DeletedAtEnd(a, table)
  }

  lemma EndsOnlySplit(q: seq<Entry>, saved: seq<int>, table: seq<Excluded>, nextId: int)
    requires q != [] && CardNumbers(q, nextId) && StrictlySorted(q) && !(q[0].recurrence && q[0].id in saved)
    ensures EndsOnly(q, saved, table)
       <==> (q[0].recurrence ==> DeletedAtEnd(q[0], table)) && EndsOnly(q[1..], SavedAfter(q, saved), table)
  {
    hide StrictlySorted, AtEnd;
    if q[0].recurrence && DeletedAtEnd(q[0], table) {
      forall b | b in q && SameSeries(q[0], b)
        ensures DeletedAtEnd(b, table)
      {
        HeadIsFirst(q, nextId, b);
        assert Follows(q[0], b);
        AtEndFrom(q[0], b, ExcludedItems(table, q[0].id));
      }
    }
    assert forall e :: e in q <==> e == q[0] || e in q[1..];
  }

  lemma AtEndFrom(a: Entry, b: Entry, items: seq<int>)
    requires AtEnd(a, items) && a.number <= b.number && b.number + b.num == a.number + a.num
    ensures AtEnd(b, items)
  {
  }

  lemma HeadAgainstRecord(q: seq<Entry>, table: seq<Excluded>, nextId: int, now: int)
    requires q != [] && CardSeries(q, table, nextId) && StrictlySorted(q) && Loadable(q[0], now)
    ensures var p, g := Plan(RecordOf(q, table)), StandsFor(q);
            var whole := q[0].recurrence ==> DeletedAtEnd(q[0], table);
            && |p| == |g| && StartSum(p) <= StartSum(g) && (StartSum(p) == StartSum(g) <==> whole)
            && (whole ==> SamePending(p, g))
  {
    hide CardSeries, StrictlySorted, Loadable, RecordOf, Plan, DeletedAtEnd, Content, Of;
    var p, g := Plan(RecordOf(q, table)), StandsFor(q);
    if q[0].recurrence {
      PlanIsEarlier(q, table, nextId, now);
      if DeletedAtEnd(q[0], table) {
        SeriesRemade(q, table, nextId, now);
      }
    } else {
      assert CardNumbers(q, nextId) by { SeriesIsNumbered(q, table, nextId); }
      SingleRemade(q, table, nextId, now);
      NoneLater(p, g);
    }
    if q[0].recurrence ==> DeletedAtEnd(q[0], table) {
      forall c
        ensures CountIn(p, c) == CountIn(g, c)
      {
        SameContents(p, g, c);
      }
    }
  }

  lemma SeriesIsNumbered(q: seq<Entry>, table: seq<Excluded>, nextId: int)
    requires CardSeries(q, table, nextId)
    ensures CardNumbers(q, nextId)
  {
  }

  // As many entries are made as were to be saved, none of them later; all of
  // them the same exactly when no episode was pending behind a deleted one.
  lemma {:induction false} CardAgainstFile(q: seq<Entry>, saved: seq<int>, table: seq<Excluded>, nextId: int, now: int)
    requires CardSeries(q, table, nextId) && StrictlySorted(q) && HeadsLoadable(q, saved, now)
    ensures var p, g := Planned(SaveQueue(q, saved, table).0), Unsaved(q, saved);
            && |p| == |g| && StartSum(p) <= StartSum(g)
            && (StartSum(p) == StartSum(g) <==> EndsOnly(q, saved, table))
            && (EndsOnly(q, saved, table) ==> SamePending(p, g))
    decreases |q|
  {
    hide CardSeries, StrictlySorted, Loadable, RecordOf, Plan, DeletedAtEnd, CountIn, StartSum, StandsFor, EndsOnly;
    if q == [] {
      assert EndsOnly(q, saved, table) by { NothingToSave(saved, table); }
    } else {
      TailOfCard(q, table, nextId);
      if q[0].recurrence && q[0].id in saved {
        assert Unsaved(q, saved) == Unsaved(q[1..], saved);
        SavedIsPassed(q, saved, table);
        CardAgainstFile(q[1..], saved, table, nextId, now);
      } else {
        SplitAtHead(q, saved);
        SeriesIsNumbered(q, table, nextId);
        EndsOnlySplit(q, saved, table, nextId);
        HeadAgainstRecord(q, table, nextId, now);
        CardAgainstFile(q[1..], SavedAfter(q, saved), table, nextId, now);
        RecordInFront(q, saved, table);
      }
    }
  }

  lemma NothingToSave(saved: seq<int>, table: seq<Excluded>)
    ensures EndsOnly([], saved, table)
  {
  }

  lemma SavedIsPassed(q: seq<Entry>, saved: seq<int>, table: seq<Excluded>)
    requires q != [] && q[0].recurrence && q[0].id in saved
    ensures EndsOnly(q, saved, table) <==> EndsOnly(q[1..], saved, table)
  {
    hide DeletedAtEnd;
    assert forall e :: e in q <==> e == q[0] || e in q[1..];
  }

  lemma RecordInFront(q: seq<Entry>, saved: seq<int>, table: seq<Excluded>)
    requires q != [] && !(q[0].recurrence && q[0].id in saved)
    ensures var rs, rest := SaveQueue(q, saved, table).0, SaveQueue(q[1..], SavedAfter(q, saved), table).0;
            && rs != [] && rs[0] == RecordOf(q, table) && rs[1..] == rest
            && |Planned(rs)| == |Plan(rs[0])| + |Planned(rest)|
            && StartSum(Planned(rs)) == StartSum(Plan(rs[0])) + StartSum(Planned(rest))
            && forall c :: CountIn(Planned(rs), c) == CountIn(Plan(rs[0]), c) + CountIn(Planned(rest), c)
  {
    hide RecordOf, Plan, CountIn, StartSum;
    var rs, rest := SaveQueue(q, saved, table).0, SaveQueue(q[1..], SavedAfter(q, saved), table).0;
    assert rs[0] == RecordOf(q, table) && rs[1..] == rest;
    SumConcat(Plan(rs[0]), Planned(rest));
    forall c
      ensures CountIn(Planned(rs), c) == CountIn(Plan(rs[0]), c) + CountIn(Planned(rest), c)
    {
      CountConcat(Plan(rs[0]), Planned(rest), c);
    }
  }

  // In any case nothing is left out, if only the last numbers are deleted.
  lemma {:induction false} CardIsCovered(q: seq<Entry>, saved: seq<int>, table: seq<Excluded>, nextId: int, now: int)
    requires CardKept(q, table, nextId) && StrictlySorted(q) && HeadsLoadable(q, saved, now)
    requires EndsOnly(q, saved, table)
    ensures forall c :: CountIn(Unsaved(q, saved), c) <= CountIn(Planned(SaveQueue(q, saved, table).0), c)
    decreases |q|
  {
    hide CardKept, StrictlySorted, Loadable, RecordOf, Plan, DeletedAtEnd, CountIn, EndsOnly;
    if q != [] {
      TailIsKept(q, table, nextId);
      if q[0].recurrence && q[0].id in saved {
        assert Unsaved(q, saved) == Unsaved(q[1..], saved);
        SavedIsPassed(q, saved, table);
        CardIsCovered(q[1..], saved, table, nextId, now);
      } else {
        hide Of, StartSum;
        SplitAtHead(q, saved);
        assert CardNumbers(q, nextId) by { KeptIsNumbered(q, table, nextId); }
        EndsOnlySplit(q, saved, table, nextId);
        CardIsCovered(q[1..], SavedAfter(q, saved), table, nextId, now);
        RecordInFront(q, saved, table);
        HeadIsCovered(q, table, nextId, now);
      }
    }
  }

  lemma KeptIsNumbered(q: seq<Entry>, table: seq<Excluded>, nextId: int)
    requires CardKept(q, table, nextId)
    ensures CardNumbers(q, nextId)
  {
  }

  lemma HeadIsCovered(q: seq<Entry>, table: seq<Excluded>, nextId: int, now: int)
    requires q != [] && CardKept(q, table, nextId) && StrictlySorted(q) && Loadable(q[0], now)
    requires q[0].recurrence ==> DeletedAtEnd(q[0], table)
    ensures forall c :: CountIn(StandsFor(q), c) <= CountIn(Plan(RecordOf(q, table)), c)
  {
    hide CardKept, StrictlySorted, Loadable, RecordOf, Plan, DeletedAtEnd, CountIn, Of, Content;
    forall c
      ensures CountIn(StandsFor(q), c) <= CountIn(Plan(RecordOf(q, table)), c)
    {
      if q[0].recurrence {
        PlanCovers(q, table, nextId, now, c);
      } else {
        KeptIsNumbered(q, table, nextId);
        SingleRemade(q, table, nextId, now);
        SameContents(Plan(RecordOf(q, table)), [q[0]], c);
      }
    }
  }

  // ---------------------------------------------------------------------
  // The whole schedule

  // The entry that its record is written for: single, or the first of its series.
  predicate Leads(q: seq<Entry>, i: nat)
    requires i < |q|
  {
    forall j :: 0 <= j < i ==> !SameSeries(q[j], q[i])
  }

  predicate CardReadable(q: seq<Entry>, now: int) {
    forall i :: 0 <= i < |q| && Leads(q, i) ==> Loadable(q[i], now)
  }

  // The file can hold every record, and no series has a first date gone by.
  predicate Readable(st: State, now: int) {
    forall v :: 0 <= v < |st.queues| ==> CardReadable(st.queues[v], now)
  }

  // No episode is pending behind a deleted one.
  ghost predicate GapsAtEnd(st: State) {
    EndsOnlyFrom(st, 0)
  }

  ghost predicate EndsOnlyFrom(st: State, v: nat) {
    forall w :: v <= w < |st.queues| ==> EndsOnly(st.queues[w], [], st.excluded)
  }

  lemma EndsOnlyOnCards(st: State, v: nat)
    requires v < |st.queues|
    ensures EndsOnlyFrom(st, v) <==> EndsOnly(st.queues[v], [], st.excluded) && EndsOnlyFrom(st, v + 1)
  {
    hide EndsOnly;
  }

  // The same recordings are pending, each as often, on whatever cards.
  ghost predicate SameRecordings(a: State, b: State) {
    forall c :: CountAll(a.queues, 0, c) == CountAll(b.queues, 0, c)
  }

  lemma {:induction false} LoadableFrom(q: seq<Entry>, i: nat, saved: seq<int>, now: int)
    requires i <= |q| && CardReadable(q, now) && forall j :: 0 <= j < i && q[j].recurrence ==> q[j].id in saved
    ensures HeadsLoadable(q[i..], saved, now)
    decreases |q| - i
  {
    hide Loadable;
    if i < |q| {
      assert q[i..][0] == q[i] && q[i..][1..] == q[i + 1..];
      if q[i].recurrence && q[i].id in saved {
        LoadableFrom(q, i + 1, saved, now);
      } else {
        assert Leads(q, i);
        LoadableFrom(q, i + 1, SavedAfter(q[i..], saved), now);
      }
    }
  }

  lemma {:induction false} SavedIds(q: seq<Entry>, saved: seq<int>, table: seq<Excluded>)
    ensures forall id :: id in SaveQueue(q, saved, table).1 ==>
              id in saved || exists e :: e in q && e.recurrence && e.id == id
    decreases |q|
  {
    hide RecordOf;
    if q != [] {
      var s := if q[0].recurrence && q[0].id !in saved then saved + [q[0].id] else saved;
      SavedIds(q[1..], s, table);
      assert q[0] in q && forall e :: e in q[1..] ==> e in q;
    }
  }

  // No id saved from an earlier card belongs to a later one.
  ghost predicate SavedElsewhere(queues: seq<seq<Entry>>, v: nat, saved: seq<int>) {
    forall w, e :: v <= w < |queues| && e in queues[w] && e.recurrence ==> e.id !in saved
  }

  lemma {:induction false} SavedStaysElsewhere(queues: seq<seq<Entry>>, v: nat, saved: seq<int>, table: seq<Excluded>)
    requires OneCardEach(queues) && v < |queues| && SavedElsewhere(queues, v, saved)
    ensures SavedElsewhere(queues, v + 1, SaveQueue(queues[v], saved, table).1)
  {
    hide SaveQueue;
    SavedIds(queues[v], saved, table);
    forall w, e | v + 1 <= w < |queues| && e in queues[w] && e.recurrence
      ensures e.id !in SaveQueue(queues[v], saved, table).1
    {
      forall a | a in queues[v] && a.recurrence
        ensures a.id != e.id
      {
        assert !SameSeries(a, e);
      }
    }
  }

  // Ids saved from other cards make no difference to this one.
  lemma NoneSavedYet(q: seq<Entry>, saved: seq<int>, table: seq<Excluded>, now: int)
    requires CardReadable(q, now) && forall e :: e in q && e.recurrence ==> e.id !in saved
    ensures HeadsLoadable(q, saved, now) && Unsaved(q, saved) == q
    ensures EndsOnly(q, saved, table) <==> EndsOnly(q, [], table)
  {
    hide CardReadable, DeletedAtEnd;
    UnsavedAll(q, saved);
    LoadableFrom(q, 0, saved, now);
    assert q[0..] == q;
  }

  lemma {:induction false} QueuesAgainstFile(st: State, v: nat, saved: seq<int>, now: int)
    requires SeriesOk(st) && Readable(st, now) && v <= |st.queues| && SavedElsewhere(st.queues, v, saved)
    ensures var p, g := Planned(SaveFrom(st.queues, v, saved, st.excluded)), Joint(st.queues, v);
            && |p| == |g| && StartSum(p) <= StartSum(g) && (StartSum(p) == StartSum(g) <==> EndsOnlyFrom(st, v))
            && (EndsOnlyFrom(st, v) ==> SamePending(p, g))
    decreases |st.queues| - v
  {
    hide CardSeries, CardOk, OneCardEach, TableOk, SaveQueue, CountIn, StartSum, EndsOnly, CardReadable, Unsaved, Plan;
    if v < |st.queues| {
      var q := st.queues[v];
      var (rs, saved') := SaveQueue(q, saved, st.excluded);
      var rest := SaveFrom(st.queues, v + 1, saved', st.excluded);
      CardIsStrict(st, v);
      NoneSavedYet(q, saved, st.excluded, now);
      EndsOnlyOnCards(st, v);
      hide EndsOnlyFrom;
      SavedStaysElsewhere(st.queues, v, saved, st.excluded);
      CardAgainstFile(q, saved, st.excluded, st.nextId, now);
      QueuesAgainstFile(st, v + 1, saved', now);
      PlannedInTurn(rs, rest);
      SumConcat(Planned(rs), Planned(rest));
      SumConcat(q, Joint(st.queues, v + 1));
      forall c
        ensures CountIn(Planned(rs + rest), c) == CountIn(Planned(rs), c) + CountIn(Planned(rest), c)
        ensures CountIn(Joint(st.queues, v), c) == CountIn(q, c) + CountIn(Joint(st.queues, v + 1), c)
      {
        CountConcat(Planned(rs), Planned(rest), c);
        CountConcat(q, Joint(st.queues, v + 1), c);
      }
    }
  }

  // What a restart leaves as it was: every pending recording comes back, as
  // often as before and at its time, exactly when no episode is pending behind a
  // deleted one.  (An ongoing recording is not in the file.)
  lemma ReloadIsExact(st: State, now: int)
    requires SeriesOk(st) && Readable(st, now) && Placeable(st, now)
    ensures Booked(Reload(st, now))
    ensures SameRecordings(Reload(st, now), st) <==> GapsAtEnd(st)
  {
    hide CardSeries, CardOk, OneCardEach, TableOk, CountIn, CountAll, StartSum, EndsOnly, CardReadable;
    hide Planned, Placeable;
    hide Reload, File;
    var p, g := Planned(File(st)), Joint(st.queues, 0);
    WholeAgainstFile(st, now);
    forall c
      ensures CountAll(Reload(st, now).queues, 0, c) == CountIn(p, c)
      ensures CountAll(st.queues, 0, c) == CountIn(g, c)
      ensures Booked(Reload(st, now))
    {
      ReloadIsPlanned(st, now, c);
      JointCounts(st.queues, 0, c);
    }
    assert Booked(Reload(st, now)) by { ReloadIsPlanned(st, now, Entry(0, "", 0, 0, false, 0, 0, 0, 0)); }
    if SamePending(p, g) {
      SameSum(p, g);
    }
  }

  lemma WholeAgainstFile(st: State, now: int)
    requires SeriesOk(st) && Readable(st, now)
    ensures var p, g := Planned(File(st)), Joint(st.queues, 0);
            && |p| == |g| && (StartSum(p) == StartSum(g) <==> GapsAtEnd(st))
            && (GapsAtEnd(st) ==> SamePending(p, g))
  {
    hide SeriesOk, SaveFrom, CountIn, StartSum, EndsOnlyFrom, CardReadable, Planned, SamePending;
    QueuesAgainstFile(st, 0, [], now);
  }

  // ---------------------------------------------------------------------
  // A schedule with restarts behind it

  // The schedule can be saved and read back without loss.
  ghost predicate Saveable(st: State, now: int) {
    Readable(st, now) && Placeable(st, now) && GapsAtEnd(st)
  }

  lemma {:induction false} QueuesAreCovered(st: State, v: nat, saved: seq<int>, now: int, c: Entry)
    requires Kept(st) && Readable(st, now) && GapsAtEnd(st) && v <= |st.queues| && SavedElsewhere(st.queues, v, saved)
    ensures CountAll(st.queues, v, c) <= CountIn(Planned(SaveFrom(st.queues, v, saved, st.excluded)), c)
    decreases |st.queues| - v
  {
    hide CardKept, CardOk, OneCardEach, TableOk, SaveQueue, CountIn, EndsOnly, CardReadable, Planned, Unsaved;
    if v < |st.queues| {
      var q := st.queues[v];
      var (rs, saved') := SaveQueue(q, saved, st.excluded);
      var rest := SaveFrom(st.queues, v + 1, saved', st.excluded);
      CardIsStrict(st, v);
      NoneSavedYet(q, saved, st.excluded, now);
      SavedStaysElsewhere(st.queues, v, saved, st.excluded);
      CardIsCovered(q, saved, st.excluded, st.nextId, now);
      QueuesAreCovered(st, v + 1, saved', now, c);
      PlannedInTurn(rs, rest);
      CountConcat(Planned(rs), Planned(rest), c);
    }
  }

  // Through a restart after earlier ones too nothing pending is lost, though a
  // number deleted before the earlier one may come back.
  lemma ReloadDropsNothing(st: State, now: int, c: Entry)
    requires Kept(st) && Saveable(st, now)
    ensures var t := Reload(st, now);
            && Booked(t) && CountAll(st.queues, 0, c) <= CountAll(t.queues, 0, c)
            && (SeriesOk(st) ==> CountAll(t.queues, 0, c) == CountAll(st.queues, 0, c))
  {
    hide Kept, SeriesOk, Readable, GapsAtEnd, Placeable, SaveFrom, CountIn, CountAll, Planned, Load;
    ReloadIsPlanned(st, now, c);
    QueuesAreCovered(st, 0, [], now, c);
    if SeriesOk(st) {
      ReloadIsExact(st, now);
    }
  }

  // So after any run of client commands, ticks and endings.
  lemma ReloadAfterRun(cards: nat, maxEntries: nat, ops: seq<Op>, resolution: int, now: int)
    requires forall k :: 0 <= k < |ops| ==> ClientOp(ops[k])
    ensures var st := Run(Empty(cards, maxEntries), ops, resolution);
            Readable(st, now) && Placeable(st, now) ==>
              var t := Reload(st, now);
              Booked(t) && (SameRecordings(t, st) <==> GapsAtEnd(st))
  {
    hide ClientOp, SameRecordings, Run, SeriesOk, Readable, Placeable, SaveFrom, Load, GapsAtEnd, CountAll;
    EmptyIsOk(cards, maxEntries);
    RunKeepsSeries(Empty(cards, maxEntries), ops, resolution);
    var st := Run(Empty(cards, maxEntries), ops, resolution);
    if Readable(st, now) && Placeable(st, now) {
      ReloadIsExact(st, now);
    }
  }
}
