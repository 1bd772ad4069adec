// The daemon stopped and started again, any number of times.
module Restarts {
  import opened Recurrence
  import opened Schedule
  import opened Booking
  import opened Episodes
  import opened KeptSeries
  import opened Database
  import opened Counting
  import opened SeriesRecord
  import opened Reloading
  import opened Returning

  // ---------------------------------------------------------------------
  // Reading keeps series in order

  // No number of the series is among the excluded ones.
  predicate NoneWithin(r: Entry, excluded: seq<int>) {
    forall n :: r.number <= n < r.number + r.num ==> n !in excluded
  }

  // Excluded numbers that a series does not have make no difference to it.
  lemma ExcludesIgnored(st: State, v: nat, r: Entry, excluded: seq<int>, now: int)
    requires WellFormed(st) && v < |st.queues| && Regular(r, now) && (r.recurrence ==> NoneWithin(r, excluded))
    ensures Insert(st, v, r, excluded, now) == Insert(st, v, r, [], now)
  {
    hide Overlapping, AppendAll, Unroll, Adjusted;
    if r.recurrence {
      RegularIsKnown(r, now);
      var x := Adjusted(r.rtype, r.Time(), now);
      UnrollPlain(r, x, 0, st.nextSeq, st.nextId, excluded);
      UnrollPlain(r, x, 0, st.nextSeq, st.nextId, []);
      assert NewEntries(r, now, st.nextSeq, st.nextId, excluded) == NewEntries(r, now, st.nextSeq, st.nextId, []);
    }
  }

  // A record of recordings to come, with at most its last numbers excluded, and
  // one with none excluded.
  predicate EndRecord(r: Record, now: int) {
    ToCome(r, now) && (Request(r).recurrence ==> AtEnd(Request(r), Excludes(r)))
  }

  predicate WholeRecord(r: Record, now: int) {
    ToCome(r, now) && (Request(r).recurrence ==> NoneWithin(Request(r), Excludes(r)))
  }

  lemma RequestHasNoId(r: Record)
    ensures Request(r).id == 0
  {
  }

  lemma PlacingKeepsKept(st: State, r: Record, now: int)
    requires Kept(st) && EndRecord(r, now)
    ensures Kept(LoadOne(st, r, now))
  {
    hide CardKept, CardOk, OneCardEach, TableOk, Regular, AtEnd, Insert, InsertFirstFit, Refuses, Request, Excludes;
    RequestHasNoId(r);
    var e := Request(r);
    LowestCard(st, 0, e, Excludes(r), now);
    var v := CardFor(st, e, 0);
    if v < |st.queues| {
      InsertKeepsKept(st, v, e, Excludes(r), now);
    }
  }

  lemma PlacingKeepsSeries(st: State, r: Record, now: int)
    requires SeriesOk(st) && WholeRecord(r, now)
    ensures SeriesOk(LoadOne(st, r, now))
  {
    hide CardSeries, CardOk, OneCardEach, TableOk, Regular, NoneWithin, Insert, InsertFirstFit, Refuses;
    hide Request, Excludes;
    RequestHasNoId(r);
    var e := Request(r);
    LowestCard(st, 0, e, Excludes(r), now);
    var v := CardFor(st, e, 0);
    if v < |st.queues| {
      ExcludesIgnored(st, v, e, Excludes(r), now);
      InsertKeepsSeries(st, v, e, now);
    }
  }

  lemma {:induction false} LoadKeepsKept(st: State, rs: seq<Record>, now: int)
    requires Kept(st) && forall r :: r in rs ==> EndRecord(r, now)
    ensures Kept(Load(st, rs, now))
    decreases |rs|
  {
    hide Kept, EndRecord, LoadOne;
    KeptIsWellFormed(st);
    if rs != [] {
      PlacingKeepsKept(st, rs[0], now);
      LoadKeepsKept(LoadOne(st, rs[0], now), rs[1..], now);
    }
  }

  lemma {:induction false} LoadKeepsSeries(st: State, rs: seq<Record>, now: int)
    requires SeriesOk(st) && forall r :: r in rs ==> WholeRecord(r, now)
    ensures SeriesOk(Load(st, rs, now))
    decreases |rs|
  {
    hide SeriesOk, WholeRecord, LoadOne;
    SeriesIsWellFormed(st);
    if rs != [] {
      PlacingKeepsSeries(st, rs[0], now);
      LoadKeepsSeries(LoadOne(st, rs[0], now), rs[1..], now);
    }
  }

  // ---------------------------------------------------------------------
  // The file of a schedule in order

  // No number from a pending one on is deleted.
  ghost predicate NoneDeleted(q: seq<Entry>, table: seq<Excluded>) {
    forall a, n :: a in q && a.recurrence && a.number < n ==> n !in ExcludedItems(table, a.id)
  }

  ghost predicate Whole(st: State) {
    forall v :: 0 <= v < |st.queues| ==> NoneDeleted(st.queues[v], st.excluded)
  }

  lemma HeadRecordKind(q: seq<Entry>, table: seq<Excluded>, nextId: int, now: int)
    requires q != [] && CardKept(q, table, nextId) && StrictlySorted(q) && Loadable(q[0], now)
    requires q[0].recurrence ==> DeletedAtEnd(q[0], table)
    ensures EndRecord(RecordOf(q, table), now)
    ensures NoneDeleted(q, table) ==> WholeRecord(RecordOf(q, table), now)
  {
    hide CardKept, StrictlySorted, Loadable, RecordOf, Request, Plan, AtEnd, Nth, ToCome, Excludes;
    KeptIsNumbered(q, table, nextId);
    ReadBackIsRegular(q, table, nextId, now);
    ReadBackKind(q, table);
    if q[0].recurrence {
      PlanOfHead(q, table, nextId, now);
      ExcludesAreLater(q, table, nextId);
      assert q[0] in q;
    }
  }

  lemma {:induction false} CardRecords(q: seq<Entry>, saved: seq<int>, table: seq<Excluded>, nextId: int, now: int)
    requires CardKept(q, table, nextId) && StrictlySorted(q) && HeadsLoadable(q, saved, now)
    requires EndsOnly(q, saved, table)
    ensures forall r :: r in SaveQueue(q, saved, table).0 ==>
              EndRecord(r, now) && (NoneDeleted(q, table) ==> WholeRecord(r, now))
    decreases |q|
  {
    hide CardKept, StrictlySorted, Loadable, RecordOf, DeletedAtEnd, EndsOnly, EndRecord, WholeRecord;
    if q != [] {
      TailIsKept(q, table, nextId);
      assert NoneDeleted(q, table) ==> NoneDeleted(q[1..], table);
      hide NoneDeleted;
      if q[0].recurrence && q[0].id in saved {
        SavedIsPassed(q, saved, table);
        CardRecords(q[1..], saved, table, nextId, now);
      } else {
        KeptIsNumbered(q, table, nextId);
        EndsOnlySplit(q, saved, table, nextId);
        HeadRecordKind(q, table, nextId, now);
        CardRecords(q[1..], SavedAfter(q, saved), table, nextId, now);
      }
    }
  }

  lemma {:induction false} FileRecords(st: State, v: nat, saved: seq<int>, now: int)
    requires Kept(st) && Readable(st, now) && GapsAtEnd(st) && v <= |st.queues| && SavedElsewhere(st.queues, v, saved)
    ensures forall r :: r in SaveFrom(st.queues, v, saved, st.excluded) ==>
              EndRecord(r, now) && (Whole(st) ==> WholeRecord(r, now))
    decreases |st.queues| - v
  {
    hide CardKept, CardOk, OneCardEach, TableOk, SaveQueue, EndsOnly, CardReadable, EndRecord, WholeRecord, NoneDeleted;
    if v < |st.queues| {
      var q := st.queues[v];
      CardIsStrict(st, v);
      NoneSavedYet(q, saved, st.excluded, now);
      SavedStaysElsewhere(st.queues, v, saved, st.excluded);
      CardRecords(q, saved, st.excluded, st.nextId, now);
      FileRecords(st, v + 1, SaveQueue(q, saved, st.excluded).1, now);
    }
  }

  // A restart keeps dates by number and series on one card each; and that every
  // number is accounted for, if none from a pending one on was deleted.
  lemma ReloadKeepsSeries(st: State, now: int)
    requires Kept(st) && Readable(st, now) && GapsAtEnd(st)
    ensures Kept(Reload(st, now)) && (Whole(st) ==> SeriesOk(Reload(st, now)))
  {
    hide Kept, SeriesOk, Readable, GapsAtEnd, Whole, SaveFrom, Load;
    FileRecords(st, 0, [], now);
    EmptyIsOk(|st.queues|, st.maxEntries);
    OkIsKept(Empty(|st.queues|, st.maxEntries));
    LoadKeepsKept(Empty(|st.queues|, st.maxEntries), File(st), now);
    if Whole(st) {
      LoadKeepsSeries(Empty(|st.queues|, st.maxEntries), File(st), now);
    }
  }

  // ---------------------------------------------------------------------
  // The daemon's life: work, then a restart, over and over

  datatype Phase = Phase(ops: seq<Op>, restart: int)

  function Live(st: State, phases: seq<Phase>, resolution: int): (t: State)
    requires WellFormed(st)
    ensures SameCards(t, st)
    decreases |phases|
  {
    if phases == [] then st
    else Live(Reload(Run(st, phases[0].ops, resolution), phases[0].restart), phases[1..], resolution)
  }

  // Requests are those of clients, and every restart finds a schedule that can
  // be saved and read back.
  ghost predicate Careful(st: State, phases: seq<Phase>, resolution: int)
    requires WellFormed(st)
    decreases |phases|
  {
    phases != [] ==>
      var t := Run(st, phases[0].ops, resolution);
      && (forall k :: 0 <= k < |phases[0].ops| ==> ClientOp(phases[0].ops[k]))
      && Saveable(t, phases[0].restart)
      && Careful(Reload(t, phases[0].restart), phases[1..], resolution)
  }

  // No restart finds a deleted number behind a pending one.
  ghost predicate NeverGapped(st: State, phases: seq<Phase>, resolution: int)
    requires WellFormed(st)
    decreases |phases|
  {
    phases != [] ==>
      var t := Run(st, phases[0].ops, resolution);
      Whole(t) && NeverGapped(Reload(t, phases[0].restart), phases[1..], resolution)
  }

  // No restart of the life loses or moves a recording that was pending, and if
  // the deleted numbers were all on record, none brings one back.
  ghost predicate NothingLost(st: State, phases: seq<Phase>, resolution: int, c: Entry)
    requires WellFormed(st)
    decreases |phases|
  {
    phases != [] ==>
      var t := Run(st, phases[0].ops, resolution);
      var u := Reload(t, phases[0].restart);
      && CountAll(t.queues, 0, c) <= CountAll(u.queues, 0, c)
      && (SeriesOk(t) ==> CountAll(u.queues, 0, c) == CountAll(t.queues, 0, c))
      && NothingLost(u, phases[1..], resolution, c)
  }

  lemma {:induction false} LifeLosesNothing(st: State, phases: seq<Phase>, resolution: int, c: Entry)
    requires Kept(st) && WellFormed(st) && Careful(st, phases, resolution)
    ensures Kept(Live(st, phases, resolution)) && NothingLost(st, phases, resolution, c)
    ensures SeriesOk(st) && NeverGapped(st, phases, resolution) ==> SeriesOk(Live(st, phases, resolution))
    decreases |phases|
  {
    hide Kept, SeriesOk, Readable, Placeable, GapsAtEnd, Whole, ClientOp, Run, SaveFrom, Load, CountAll;
    if phases != [] {
      RunKeepsKept(st, phases[0].ops, resolution);
      var t := Run(st, phases[0].ops, resolution);
      if SeriesOk(st) {
        RunKeepsSeries(st, phases[0].ops, resolution);
      }
      ReloadDropsNothing(t, phases[0].restart, c);
      ReloadKeepsSeries(t, phases[0].restart);
      LifeLosesNothing(Reload(t, phases[0].restart), phases[1..], resolution, c);
    }
  }

  // From the first start on, through any number of restarts: no pending
  // recording is lost by one, and the schedule that is left has no card booked
  // twice and dates that agree with episode numbers.  Without gaps at restarts
  // it misses the numbers deleted since, and no others.
  lemma Lifetime(cards: nat, maxEntries: nat, phases: seq<Phase>, resolution: int, c: Entry)
    requires Careful(Empty(cards, maxEntries), phases, resolution)
    ensures var t := Live(Empty(cards, maxEntries), phases, resolution);
            && Kept(t) && NothingLost(Empty(cards, maxEntries), phases, resolution, c)
            && (NeverGapped(Empty(cards, maxEntries), phases, resolution) ==> SeriesOk(t))
  {
    hide *;
    EmptyIsOk(cards, maxEntries);
    OkIsKept(Empty(cards, maxEntries));
    LifeLosesNothing(Empty(cards, maxEntries), phases, resolution, c);
  }
}
