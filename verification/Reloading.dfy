// Saving the schedule and reading it back.
module Reloading {
  import opened Calendar
  import opened Schedule
  import opened Booking
  import opened Ledger
  import opened Episodes
  import opened Database
  import opened Counting
  import opened SeriesRecord

  // ---------------------------------------------------------------------
  // What reading a file makes

  function Planned(rs: seq<Record>): seq<Entry>
    decreases |rs|
  {
    if rs == [] then [] else Plan(rs[0]) + Planned(rs[1..])
  }

  lemma {:induction false} PlannedInTurn(a: seq<Record>, b: seq<Record>)
    ensures Planned(a + b) == Planned(a) + Planned(b)
    decreases |a|
  {
    hide Plan;
    if a == [] {
      assert a + b == b;
    } else {
      assert (a + b)[1..] == a[1..] + b;
      PlannedInTurn(a[1..], b);
    }
  }

  // Every date asked for is apart from those of done.
  predicate ClearOf(r: Entry, done: seq<Entry>) {
    forall n, i :: 0 <= n < Count(r) && 0 <= i < |done| ==> ApartFrom(Time(r, n), done[i].Time())
  }

  // The records of one card would follow one another on an empty one: each is
  // of recordings to come, clear of what those before it make, and a series
  // finds the room that it asks for.
  predicate RecordsFit(rs: seq<Record>, done: seq<Entry>, now: int, maxEntries: nat)
    decreases |rs|
  {
    rs != [] ==>
      && ToCome(rs[0], now)
      && ClearOf(Request(rs[0]), done)
      && (Request(rs[0]).recurrence ==> |done| + Request(rs[0]).num <= maxEntries)
      && RecordsFit(rs[1..], done + Plan(rs[0]), now, maxEntries)
  }

  // While the records of card v are read: later cards are empty, and card v has
  // at most what earlier records of card v make.
  ghost predicate Loading(st: State, v: nat, done: seq<Entry>) {
    && Booked(st) && NothingOngoing(st) && v < |st.queues|
    && |st.queues[v]| <= |done|
    && (forall x :: x in st.queues[v] ==> TimeIn(x, done))
    && (forall w :: v < w < |st.queues| ==> st.queues[w] == [])
  }

  ghost predicate TimeIn(x: Entry, es: seq<Entry>) {
    exists i :: 0 <= i < |es| && es[i].Time() == x.Time()
  }

  lemma RoomOnOwnCard(st: State, v: nat, done: seq<Entry>, r: Entry, now: int)
    requires Loading(st, v, done) && Regular(r, now) && ClearOf(r, done)
    requires r.recurrence ==> |done| + r.num <= st.maxEntries
    ensures !Refuses(st, v, r)
  {
    hide Regular, Time, Overlapping;
    var p := st.queues[v];
    assert CardOk(p, st.ongoing[v]);
    hide CardOk;
    RegularIsEven(r, now);
    OverlapTestIsExact(r, p, st.ongoing[v]);
    forall n: nat | n < Count(r)
      ensures Free(Time(r, n), p, st.ongoing[v])
    {
      forall i | 0 <= i < |p|
        ensures ApartFrom(Time(r, n), p[i].Time())
      {
        assert p[i] in p && TimeIn(p[i], done);
      }
    }
  }

  // First fit puts the record on its own card or an earlier one, with every
  // entry that it makes, and nothing else changes.  Only a single recording
  // needs to be told that no card before is full: a series is not accepted by
  // one that has no room for it.
  lemma PlaceOne(st: State, v: nat, done: seq<Entry>, r: Record, now: int) returns (w: nat)
    requires Loading(st, v, done) && ToCome(r, now) && ClearOf(Request(r), done)
    requires if Request(r).recurrence then |done| + Request(r).num <= st.maxEntries
             else SizeFrom(st.queues, 0) < st.maxEntries
    ensures var t := LoadOne(st, r, now);
            && w <= v && t.queues == st.queues[w := t.queues[w]]
            && Loading(t, v, done + Plan(r))
            && SizeFrom(t.queues, 0) == SizeFrom(st.queues, 0) + |Plan(r)|
            && forall c :: CountAll(t.queues, 0, c) == CountAll(st.queues, 0, c) + CountIn(Plan(r), c)
  {
    hide Regular, CardOk, Refuses, Insert, AppendAll, NewEntries, Plan, Request, Excludes, ClearOf, Content, Count;
    var e := Request(r);
    RoomOnOwnCard(st, v, done, e, now);
    FirstFitKeepsBooked(st, 0, e, Excludes(r), now);
    LowestCard(st, 0, e, Excludes(r), now);
    w := CardFor(st, e, 0);
    InsertTouchesOne(st, w, e, Excludes(r), now);
    var t := LoadOne(st, r, now);
    var es := NewEntries(e, now, st.nextSeq, st.nextId, Excludes(r));
    MadeAsPlanned(r, now, st.nextSeq, st.nextId);
    RoomForMade(st, w, e, |es|);
    AcceptedQueue(st, w, e, Excludes(r), now);
    ReadOnTop(st.queues[w], es, Plan(r), st.maxEntries, done);
    forall c
      ensures CountAll(t.queues, 0, c) == CountAll(st.queues, 0, c) + CountIn(Plan(r), c)
      ensures SizeFrom(t.queues, 0) == SizeFrom(st.queues, 0) + |Plan(r)|
    {
      CountAppendAll(st.queues[w], es, st.maxEntries, c);
      SameContents(es, Plan(r), c);
      SumsUpdate(st.queues, 0, w, t.queues[w], c);
    }
    assert CountAll(t.queues, 0, e) == CountAll(st.queues, 0, e) + CountIn(Plan(r), e);
  }

  lemma RoomForMade(st: State, w: nat, r: Entry, n: nat)
    requires WellFormed(st) && w < |st.queues| && !Refuses(st, w, r) && n <= Count(r)
    requires !r.recurrence ==> SizeFrom(st.queues, 0) < st.maxEntries
    ensures |st.queues[w]| + n <= st.maxEntries
  {
    hide Overlapping;
    PartOfSize(st.queues, 0, w);
  }

  lemma ReadOnTop(q: seq<Entry>, es: seq<Entry>, plan: seq<Entry>, maxEntries: nat, done: seq<Entry>)
    requires |q| + |es| <= maxEntries && |es| == |plan|
    requires forall k :: 0 <= k < |es| ==> es[k].Time() == plan[k].Time()
    ensures var p := AppendAll(q, es, maxEntries);
            |q| <= |done| && (forall x :: x in q ==> TimeIn(x, done)) ==>
              |p| <= |done + plan| && forall x :: x in p ==> TimeIn(x, done + plan)
    ensures forall x :: TimeIn(x, done) ==> TimeIn(x, done + plan)
  {
    hide AppendAll;
    AppendAllMembers(q, es, maxEntries);
    AppendAllPermutes(q, es, maxEntries);
    var p := AppendAll(q, es, maxEntries);
    assert |multiset(p)| == |p| && |multiset(q)| == |q| && |multiset(es)| == |es|;
    forall x | TimeIn(x, done)
      ensures TimeIn(x, done + plan)
    {
      var i :| 0 <= i < |done| && done[i].Time() == x.Time();
      assert (done + plan)[i] == done[i];
    }
    forall x | x in es
      ensures TimeIn(x, done + plan)
    {
      var k :| 0 <= k < |es| && es[k] == x;
      assert (done + plan)[|done| + k] == plan[k];
    }
  }

  lemma AcceptedQueue(st: State, w: nat, r: Entry, excluded: seq<int>, now: int)
    requires WellFormed(st) && w < |st.queues| && !Refuses(st, w, r)
    ensures Insert(st, w, r, excluded, now).0.queues[w]
         == AppendAll(st.queues[w], NewEntries(r, now, st.nextSeq, st.nextId, excluded), st.maxEntries)
  {
  }

  predicate OnlySeries(rs: seq<Record>) {
    forall i :: 0 <= i < |rs| ==> Request(rs[i]).recurrence
  }

  // All that is read may be on one card then: single recordings find room.
  predicate RoomFor(queues: seq<seq<Entry>>, rs: seq<Record>, maxEntries: nat) {
    OnlySeries(rs) || SizeFrom(queues, 0) + |Planned(rs)| <= maxEntries
  }

  lemma {:induction false} LoadRecords(st: State, v: nat, done: seq<Entry>, rs: seq<Record>, now: int)
    requires Loading(st, v, done) && RecordsFit(rs, done, now, st.maxEntries) && RoomFor(st.queues, rs, st.maxEntries)
    ensures var t := Load(st, rs, now);
            && Loading(t, v, done + Planned(rs))
            && SizeFrom(t.queues, 0) == SizeFrom(st.queues, 0) + |Planned(rs)|
            && forall c :: CountAll(t.queues, 0, c) == CountAll(st.queues, 0, c) + CountIn(Planned(rs), c)
    decreases |rs|
  {
    hide Loading, ToCome, ClearOf, CountAll, SizeFrom, Plan, Request, LoadOne;
    LoadingIsWellFormed(st, v, done);
    if rs == [] {
      assert done + Planned(rs) == done;
    } else {
      SingleIsMade(rs[0]);
      var w := PlaceOne(st, v, done, rs[0], now);
      var t := LoadOne(st, rs[0], now);
      LoadRecords(t, v, done + Plan(rs[0]), rs[1..], now);
      assert done + Planned(rs) == done + Plan(rs[0]) + Planned(rs[1..]);
      forall c
        ensures CountIn(Planned(rs), c) == CountIn(Plan(rs[0]), c) + CountIn(Planned(rs[1..]), c)
      {
        CountConcat(Plan(rs[0]), Planned(rs[1..]), c);
      }
    }
  }

  lemma SingleIsMade(r: Record)
    ensures !Request(r).recurrence ==> |Plan(r)| == 1
  {
    hide Request;
  }

  lemma LoadingIsWellFormed(st: State, v: nat, done: seq<Entry>)
    requires Loading(st, v, done)
    ensures WellFormed(st)
  {
  }

  // ---------------------------------------------------------------------
  // The whole file

  // The records of every card fit.
  predicate CardsFit(queues: seq<seq<Entry>>, v: nat, saved: seq<int>, table: seq<Excluded>, now: int, maxEntries: nat)
    requires v <= |queues|
    decreases |queues| - v
  {
    v < |queues| ==>
      var (rs, saved') := SaveQueue(queues[v], saved, table);
      RecordsFit(rs, [], now, maxEntries) && CardsFit(queues, v + 1, saved', table, now, maxEntries)
  }

  ghost predicate LoadedUpTo(t: State, v: nat) {
    && Booked(t) && NothingOngoing(t)
    && forall w :: v <= w < |t.queues| ==> t.queues[w] == []
  }

  lemma {:induction false} LoadCards(t: State, queues: seq<seq<Entry>>, v: nat, saved: seq<int>, table: seq<Excluded>,
                                     now: int)
    requires v <= |queues| == |t.queues| && LoadedUpTo(t, v)
    requires CardsFit(queues, v, saved, table, now, t.maxEntries)
    requires RoomFor(t.queues, SaveFrom(queues, v, saved, table), t.maxEntries)
    ensures var u, rs := Load(t, SaveFrom(queues, v, saved, table), now), SaveFrom(queues, v, saved, table);
            && LoadedUpTo(u, |queues|)
            && forall c :: CountAll(u.queues, 0, c) == CountAll(t.queues, 0, c) + CountIn(Planned(rs), c)
    decreases |queues| - v
  {
    hide CardOk, SaveQueue, LoadOne, CountIn, CountAll, SizeFrom, RecordsFit, Request;
    if v < |queues| {
      var (rs, saved') := SaveQueue(queues[v], saved, table);
      var rest := SaveFrom(queues, v + 1, saved', table);
      PlannedInTurn(rs, rest);
      RoomInTurn(t.queues, rs, rest, t.maxEntries);
      assert Loading(t, v, []);
      LoadRecords(t, v, [], rs, now);
      var u := Load(t, rs, now);
      RoomAfter(t.queues, u.queues, rs, rest, t.maxEntries);
      LoadCards(u, queues, v + 1, saved', table, now);
      LoadInTurn(t, rs, rest, now);
      var end := Load(u, rest, now);
      assert SaveFrom(queues, v, saved, table) == rs + rest;
      forall c
        ensures CountAll(end.queues, 0, c) == CountAll(t.queues, 0, c) + CountIn(Planned(rs + rest), c)
      {
        CountConcat(Planned(rs), Planned(rest), c);
      }
    } else {
      NothingPlanned();
    }
  }

  lemma NothingPlanned()
    ensures forall c :: CountIn(Planned([]), c) == 0
  {
  }

  lemma RoomInTurn(queues: seq<seq<Entry>>, a: seq<Record>, b: seq<Record>, maxEntries: nat)
    requires RoomFor(queues, a + b, maxEntries)
    ensures RoomFor(queues, a, maxEntries)
  {
    hide Planned, Request;
    PlannedInTurn(a, b);
    if OnlySeries(a + b) {
      forall i | 0 <= i < |a|
        ensures Request(a[i]).recurrence
      {
        assert (a + b)[i] == a[i];
      }
    }
  }

  lemma RoomAfter(queues: seq<seq<Entry>>, later: seq<seq<Entry>>, a: seq<Record>, b: seq<Record>, maxEntries: nat)
    requires RoomFor(queues, a + b, maxEntries) && SizeFrom(later, 0) == SizeFrom(queues, 0) + |Planned(a)|
    ensures RoomFor(later, b, maxEntries)
  {
    hide Planned, Request;
    PlannedInTurn(a, b);
    if OnlySeries(a + b) {
      forall i | 0 <= i < |b|
        ensures Request(b[i]).recurrence
      {
        assert (a + b)[|a| + i] == b[i];
      }
    }
  }

  lemma {:induction false} NothingIn(queues: seq<seq<Entry>>, v: nat, c: Entry)
    requires v <= |queues| && forall w :: v <= w < |queues| ==> queues[w] == []
    ensures CountAll(queues, v, c) == 0 && SizeFrom(queues, v) == 0
    decreases |queues| - v
  {
    if v < |queues| {
      NothingIn(queues, v + 1, c);
    }
  }

  lemma EmptyIsLoaded(cards: nat, maxEntries: nat)
    ensures LoadedUpTo(Empty(cards, maxEntries), 0)
  {
  }

  // The file of a schedule, and the schedule after a restart: what was saved
  // last, read into empty tables.
  function File(st: State): seq<Record> {
    SaveFrom(st.queues, 0, [], st.excluded)
  }

  function Reload(st: State, now: int): (t: State)
    ensures WellFormed(t) && |t.queues| == |st.queues| && t.maxEntries == st.maxEntries
  {
    Load(Empty(|st.queues|, st.maxEntries), File(st), now)
  }

  // The file of cards with one recording each.
  lemma OneRecord(e: Entry)
    requires InFileYears(e.start) && InFileYears(e.end)
    ensures var r := RecordOf([e], []);
            && Request(r) == (if e.recurrence then e.(seqnbr := -1, id := 0) else Content(e).(seqnbr := -1))
            && Excludes(r) == []
  {
    hide FromTimestamp, ToTimestamp, InFileYears;
    TimestampRoundTrip(e.start);
    TimestampRoundTrip(e.end);
    YearsInFile(e.start);
    YearsInFile(e.end);
  }

  lemma {:induction false} SaveSingleton(queues: seq<seq<Entry>>, v: nat, saved: seq<int>)
    requires v < |queues| && |queues[v]| == 1 && (queues[v][0].recurrence ==> queues[v][0].id !in saved)
    ensures SaveFrom(queues, v, saved, [])
         == [RecordOf(queues[v], [])]
            + SaveFrom(queues, v + 1, if queues[v][0].recurrence then saved + [queues[v][0].id] else saved, [])
  {
    hide RecordOf;
    var ids := if queues[v][0].recurrence then saved + [queues[v][0].id] else saved;
    assert queues[v][1..] == [] && SaveQueue(queues[v][1..], ids, []) == ([], ids);
  }

  lemma TwoRecords(queues: seq<seq<Entry>>)
    requires |queues| == 2 && |queues[0]| == |queues[1]| == 1 && !queues[0][0].recurrence
    ensures SaveFrom(queues, 0, [], []) == [RecordOf(queues[0], []), RecordOf(queues[1], [])]
  {
    hide RecordOf, SaveQueue;
    SaveSingleton(queues, 0, []);
    SaveSingleton(queues, 1, []);
  }

  // Every record can be read back onto its own card, and if there are single
  // recordings, one card could take everything.
  predicate Placeable(st: State, now: int) {
    && CardsFit(st.queues, 0, [], st.excluded, now, st.maxEntries)
    && (OnlySeries(File(st)) || |Planned(File(st))| <= st.maxEntries)
  }

  // Then reading makes what the records say, no more and no less, though maybe
  // on a lower card: nothing is refused or dropped, and no card booked twice.
  lemma ReloadIsPlanned(st: State, now: int, c: Entry)
    requires Placeable(st, now)
    ensures var t := Reload(st, now);
            Booked(t) && NothingOngoing(t) && CountAll(t.queues, 0, c) == CountIn(Planned(File(st)), c)
  {
    hide CardsFit, SaveFrom, CardOk, Load, Planned, CountIn, OnlySeries;
    var empty := Empty(|st.queues|, st.maxEntries);
    assert LoadedUpTo(empty, 0) by { EmptyIsLoaded(|st.queues|, st.maxEntries); }
    NothingIn(empty.queues, 0, c);
    LoadCards(empty, st.queues, 0, [], st.excluded, now);
  }
}
