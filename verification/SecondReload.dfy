// The numbers of series through one restart, and through a second.
module SecondReload {
  import opened Recurrence
  import opened Schedule
  import opened Booking
  import opened Episodes
  import opened KeptSeries
  import opened Database
  import opened Counting
  import opened SeriesRecord
  import opened Reloading
  import opened Returning

  // The same episode of the same programme and repeat type, out of the same
  // number, whatever its date.
  predicate SameEpisode(e: Entry, c: Entry) {
    && e.recurrence && e.program == c.program && e.rtype == c.rtype
    && e.number == c.number && e.number + e.num == c.number + c.num
  }

  ghost predicate Listed(q: seq<Entry>, c: Entry) {
    exists e :: e in q && SameEpisode(e, c)
  }

  ghost predicate Pending(st: State, c: Entry) {
    exists v :: 0 <= v < |st.queues| && Listed(st.queues[v], c)
  }

  // ---------------------------------------------------------------------
  // What is pending after a restart is what the file makes

  lemma {:induction false} MemberIsCounted(q: seq<Entry>, e: Entry)
    requires e in q
    ensures CountIn(q, Content(e)) > 0
    decreases |q|
  {
    hide Content;
    if q[0] != e {
      MemberIsCounted(q[1..], e);
    }
  }

  lemma {:induction false} CountedOnCard(queues: seq<seq<Entry>>, v: nat, c: Entry) returns (w: nat)
    requires v <= |queues| && CountAll(queues, v, c) > 0
    ensures w < |queues| && CountIn(queues[w], c) > 0
    decreases |queues| - v
  {
    hide CountIn;
    if CountIn(queues[v], c) > 0 {
      w := v;
    } else {
      w := CountedOnCard(queues, v + 1, c);
    }
  }

  lemma {:induction false} CardIsCounted(queues: seq<seq<Entry>>, v: nat, w: nat, c: Entry)
    requires v <= w < |queues| && CountIn(queues[w], c) > 0
    ensures CountAll(queues, v, c) > 0
    decreases w - v
  {
    hide CountIn;
    if v < w {
      CardIsCounted(queues, v + 1, w, c);
    }
  }

  lemma SameContent(d: Entry, e: Entry, c: Entry)
    requires Content(d) == Content(e)
    ensures SameEpisode(d, c) <==> SameEpisode(e, c)
  {
  }

  lemma PendingIsPlanned(st: State, now: int, c: Entry)
    requires Placeable(st, now)
    ensures Pending(Reload(st, now), c) <==> Listed(Planned(File(st)), c)
  {
    hide Placeable, Reload, File, Planned, CountIn, CountAll, Content, SameEpisode;
    var t, p := Reload(st, now), Planned(File(st));
    if Pending(t, c) {
      var v :| 0 <= v < |t.queues| && Listed(t.queues[v], c);
      var e :| e in t.queues[v] && SameEpisode(e, c);
      MemberIsCounted(t.queues[v], e);
      CardIsCounted(t.queues, 0, v, Content(e));
      ReloadIsPlanned(st, now, Content(e));
      var i := Counted(p, Content(e));
      SameContent(p[i], e, c);
    }
    if Listed(p, c) {
      var e :| e in p && SameEpisode(e, c);
      MemberIsCounted(p, e);
      ReloadIsPlanned(st, now, Content(e));
      var v := CountedOnCard(t.queues, 0, Content(e));
      var i := Counted(t.queues[v], Content(e));
      SameContent(t.queues[v][i], e, c);
      assert Listed(t.queues[v], c);
    }
  }

  lemma {:induction false} PlannedByOne(rs: seq<Record>, c: Entry)
    ensures Listed(Planned(rs), c) <==> exists r :: r in rs && Listed(Plan(r), c)
    decreases |rs|
  {
    hide Plan, SameEpisode;
    if rs != [] {
      PlannedByOne(rs[1..], c);
      assert forall e :: e in Planned(rs) <==> e in Plan(rs[0]) || e in Planned(rs[1..]);
      assert forall r :: r in rs <==> r == rs[0] || r in rs[1..];
    }
  }

  // ---------------------------------------------------------------------
  // The records of the file are those of the leading entries

  lemma {:induction false} LeadIsSaved(q: seq<Entry>, i: nat, j: nat, saved: seq<int>, table: seq<Excluded>)
    requires i <= j < |q| && Leads(q, j) && (q[j].recurrence ==> q[j].id !in saved)
    ensures RecordOf(q[j..], table) in SaveQueue(q[i..], saved, table).0
    decreases j - i
  {
    hide RecordOf;
    var s := q[i..];
    assert s[0] == q[i] && s[1..] == q[i + 1..];
    if i < j {
      assert !SameSeries(q[i], q[j]);
      LeadIsSaved(q, i + 1, j, if q[i].recurrence && q[i].id !in saved then saved + [q[i].id] else saved, table);
    }
  }

  lemma {:induction false} SavedLeads(q: seq<Entry>, i: nat, saved: seq<int>, table: seq<Excluded>, r: Record)
    returns (j: nat)
    requires i <= |q| && r in SaveQueue(q[i..], saved, table).0
    requires forall k :: 0 <= k < i && q[k].recurrence ==> q[k].id in saved
    ensures j < |q| && Leads(q, j) && r == RecordOf(q[j..], table)
    decreases |q| - i
  {
    hide RecordOf;
    assert i < |q|;
    var s := q[i..];
    assert s[0] == q[i] && s[1..] == q[i + 1..];
    if q[i].recurrence && q[i].id in saved {
      j := SavedLeads(q, i + 1, saved, table, r);
    } else if r == RecordOf(s, table) {
      j := i;
    } else {
      j := SavedLeads(q, i + 1, SavedAfter(s, saved), table, r);
    }
  }

  lemma {:induction false} LeadInFile(queues: seq<seq<Entry>>, v: nat, w: nat, j: nat, saved: seq<int>,
                                      table: seq<Excluded>)
    requires OneCardEach(queues) && v <= w < |queues| && SavedElsewhere(queues, v, saved)
    requires j < |queues[w]| && Leads(queues[w], j)
    ensures RecordOf(queues[w][j..], table) in SaveFrom(queues, v, saved, table)
    decreases w - v
  {
    hide RecordOf, SaveQueue, Leads, OneCardEach;
    if v < w {
      SavedStaysElsewhere(queues, v, saved, table);
      LeadInFile(queues, v + 1, w, j, SaveQueue(queues[v], saved, table).1, table);
    } else {
      assert queues[v][0..] == queues[v];
      LeadIsSaved(queues[v], 0, j, saved, table);
    }
  }

  lemma {:induction false} FileLeads(queues: seq<seq<Entry>>, v: nat, saved: seq<int>, table: seq<Excluded>, r: Record)
    returns (w: nat, j: nat)
    requires v <= |queues| && r in SaveFrom(queues, v, saved, table)
    ensures w < |queues| && j < |queues[w]| && Leads(queues[w], j) && r == RecordOf(queues[w][j..], table)
    decreases |queues| - v
  {
    hide RecordOf, SaveQueue, Leads;
    assert v < |queues|;
    if r in SaveQueue(queues[v], saved, table).0 {
      w := v;
      assert queues[v][0..] == queues[v];
      j := SavedLeads(queues[v], 0, saved, table, r);
    } else {
      w, j := FileLeads(queues, v + 1, SaveQueue(queues[v], saved, table).1, table, r);
    }
  }

  // The leading entry of an entry's series.
  lemma LeadOf(q: seq<Entry>, i: nat) returns (j: nat)
    requires i < |q| && q[i].recurrence
    ensures j <= i && Leads(q, j) && SameSeries(q[j], q[i])
    decreases i
  {
    if Leads(q, i) {
      j := i;
    } else {
      var k :| 0 <= k < i && SameSeries(q[k], q[i]);
      j := LeadOf(q, k);
    }
  }

  // ---------------------------------------------------------------------
  // Through the first restart every number stays

  lemma {:induction false} SuffixSeries(q: seq<Entry>, j: nat, table: seq<Excluded>, nextId: int)
    requires CardSeries(q, table, nextId) && StrictlySorted(q) && j <= |q|
    ensures CardSeries(q[j..], table, nextId) && StrictlySorted(q[j..])
    decreases j
  {
    hide CardSeries, StrictlySorted;
    if j == 0 {
      assert q[0..] == q;
    } else {
      SuffixSeries(q, j - 1, table, nextId);
      TailOfCard(q[j - 1..], table, nextId);
      assert q[j - 1..][1..] == q[j..];
    }
  }

  // Episodes of one series have its programme, type and last number.
  predicate Siblings(a: Entry, e: Entry) {
    e.recurrence && e.program == a.program && e.rtype == a.rtype && e.number + e.num == a.number + a.num
  }

  lemma {:induction false} UnrolledSiblings(r: Entry, x: Span, i: nat, seqnbr: int, id: int, excluded: seq<int>)
    requires i <= r.num && r.recurrence
    ensures forall e :: e in Unroll(r, x, i, seqnbr, id, excluded) ==> Siblings(r, e)
    decreases r.num - i
  {
    hide Next;
    if i < r.num {
      if r.number + i in excluded {
        UnrolledSiblings(r, x, i + 1, seqnbr, id, excluded);
      } else {
        UnrolledSiblings(r, Next(r.rtype, x), i + 1, seqnbr + 1, id, excluded);
      }
    }
  }

  lemma PlanSiblings(r: Record, a: Entry)
    requires a.recurrence && Request(r) == a.(seqnbr := -1, id := 0)
    ensures forall e :: e in Plan(r) ==> Siblings(a, e)
  {
    hide Request, Excludes, Unroll;
    UnrolledSiblings(Request(r), a.Time(), 0, 0, 0, Excludes(r));
  }

  // The record of a lead makes the very numbers that are pending of its series.
  lemma LeadMakes(q: seq<Entry>, table: seq<Excluded>, nextId: int, now: int, c: Entry)
    requires q != [] && CardSeries(q, table, nextId) && StrictlySorted(q) && Loadable(q[0], now)
    ensures Listed(Plan(RecordOf(q, table)), c) <==> q[0].recurrence && Listed(Of(q, q[0].id), c)
  {
    hide CardSeries, StrictlySorted, Loadable, RecordOf, Plan, Request, Of;
    var p, g := Plan(RecordOf(q, table)), Of(q, q[0].id);
    SeriesIsNumbered(q, table, nextId);
    ReadBack(q, table, nextId, now);
    if q[0].recurrence {
      PlanSiblings(RecordOf(q, table), q[0]);
      PendingSiblings(q, nextId);
      PlanNumbers(q, table, nextId, now);
      SameListed(p, g, q[0], c);
    } else {
      SingleRemade(q, table, nextId, now);
      SinglePlan(RecordOf(q, table));
    }
  }

  lemma SinglePlan(r: Record)
    requires !Request(r).recurrence
    ensures forall e :: e in Plan(r) ==> !e.recurrence
  {
    hide Request;
  }

  lemma PendingSiblings(q: seq<Entry>, nextId: int)
    requires q != [] && CardNumbers(q, nextId) && q[0].recurrence
    ensures forall e :: e in Of(q, q[0].id) ==> Siblings(q[0], e)
  {
    hide Renewable;
    OfMembers(q, q[0].id);
    forall e | e in Of(q, q[0].id)
      ensures Siblings(q[0], e)
    {
      assert SameSeries(q[0], e) && Follows(q[0], e);
    }
  }

  lemma SameListed(p: seq<Entry>, g: seq<Entry>, a: Entry, c: Entry)
    requires |p| == |g| && forall k :: 0 <= k < |g| ==> p[k].number == g[k].number
    requires (forall e :: e in p ==> Siblings(a, e)) && (forall e :: e in g ==> Siblings(a, e))
    ensures Listed(p, c) <==> Listed(g, c)
  {
    if Listed(p, c) {
      var e :| e in p && SameEpisode(e, c);
      var k :| 0 <= k < |p| && p[k] == e;
      assert g[k] in g && SameEpisode(g[k], c);
    }
    if Listed(g, c) {
      var e :| e in g && SameEpisode(e, c);
      var k :| 0 <= k < |g| && g[k] == e;
      assert p[k] in p && SameEpisode(p[k], c);
    }
  }

  // After a restart just the episodes are pending that were so before: deleted
  // ones stay away, and the others keep their numbers, if not their dates.
  lemma FirstReloadKeepsNumbers(st: State, now: int, c: Entry)
    requires SeriesOk(st) && Readable(st, now) && Placeable(st, now)
    ensures Pending(Reload(st, now), c) <==> Pending(st, c)
  {
    hide SeriesOk, Placeable, CardReadable, Reload, Planned, Listed, SaveFrom, Plan, RecordOf;
    PendingIsPlanned(st, now, c);
    PlannedByOne(File(st), c);
    if Pending(st, c) {
      var v :| 0 <= v < |st.queues| && Listed(st.queues[v], c);
      var r := ListedIsMade(st, now, v, c);
    }
    if Listed(Planned(File(st)), c) {
      var r :| r in File(st) && Listed(Plan(r), c);
      var v, j := FileLeads(st.queues, 0, [], st.excluded, r);
      MadeIsListed(st, now, v, j, c);
    }
  }

  lemma CardSuffix(st: State, v: nat, j: nat, now: int)
    requires SeriesOk(st) && Readable(st, now) && v < |st.queues| && j < |st.queues[v]| && Leads(st.queues[v], j)
    ensures var s := st.queues[v][j..];
            CardSeries(s, st.excluded, st.nextId) && StrictlySorted(s) && Loadable(s[0], now)
  {
    hide CardSeries, StrictlySorted, Loadable, Leads, CardOk, TableOk, OneCardEach;
    CardIsStrict(st, v);
    SuffixSeries(st.queues[v], j, st.excluded, st.nextId);
    assert CardReadable(st.queues[v], now);
  }

  lemma ListedIsMade(st: State, now: int, v: nat, c: Entry) returns (r: Record)
    requires SeriesOk(st) && Readable(st, now) && v < |st.queues| && Listed(st.queues[v], c)
    ensures r in File(st) && Listed(Plan(r), c)
  {
    var q := st.queues[v];
    var e :| e in q && SameEpisode(e, c);
    var i :| 0 <= i < |q| && q[i] == e;
    var j := LeadOf(q, i);
    r := RecordOf(q[j..], st.excluded);
    assert OneCardEach(st.queues);
    assert q[j..][0] == q[j] && q[j..][i - j] == e;
    hide SeriesOk, Readable, Leads, RecordOf, Plan, SaveFrom, OneCardEach;
    CardSuffix(st, v, j, now);
    hide CardSeries, StrictlySorted, Loadable;
    LeadInFile(st.queues, 0, v, j, [], st.excluded);
    LeadMakes(q[j..], st.excluded, st.nextId, now, c);
    OfMembers(q[j..], q[j].id);
  }

  lemma MadeIsListed(st: State, now: int, v: nat, j: nat, c: Entry)
    requires SeriesOk(st) && Readable(st, now) && v < |st.queues| && j < |st.queues[v]| && Leads(st.queues[v], j)
    requires Listed(Plan(RecordOf(st.queues[v][j..], st.excluded)), c)
    ensures Pending(st, c)
  {
    var q := st.queues[v];
    assert forall e :: e in q[j..] ==> e in q;
    hide SeriesOk, Readable, Leads, RecordOf, Plan, SameEpisode;
    CardSuffix(st, v, j, now);
    hide CardSeries, StrictlySorted, Loadable;
    LeadMakes(q[j..], st.excluded, st.nextId, now, c);
    OfMembers(q[j..], q[j..][0].id);
    assert Listed(q, c);
  }

  // ---------------------------------------------------------------------
  // What was read from a file

  ghost predicate CardRises(q: seq<Entry>, nextId: int) {
    && IdsBelow(q, nextId)
    && (forall e :: e in q && e.recurrence ==> 1 <= e.rtype <= 9)
    && (forall a, b :: a in q && b in q && SameSeries(a, b) ==> InOrder(a, b))
  }

  predicate InOrder(a: Entry, b: Entry) {
    Siblings(a, b) && (a.start < b.start ==> a.number < b.number)
  }

  // Within each series numbers rise with the dates, gaps or not.
  ghost predicate Numbered(st: State) {
    && Booked(st) && OneCardEach(st.queues)
    && forall v :: 0 <= v < |st.queues| ==> CardRises(st.queues[v], st.nextId)
  }

  lemma NewEpisodesRise(r: Entry, seqnbr: int, id: int, excluded: seq<int>)
    requires r.recurrence && 1 <= r.rtype <= 9
    ensures CardRises(Unroll(r, r.Time(), 0, seqnbr, id, excluded), id + 1)
    ensures forall e :: e in Unroll(r, r.Time(), 0, seqnbr, id, excluded) ==> e.id == id
  {
    hide Unroll;
    var es := Unroll(r, r.Time(), 0, seqnbr, id, excluded);
    UnrollRises(r, r.Time(), 0, seqnbr, id, excluded);
    UnrolledInOrder(r, r.Time(), seqnbr, id, excluded);
    UnrolledSiblings(r, r.Time(), 0, seqnbr, id, excluded);
    forall e | e in es
      ensures e.id == id
    {
      UnrolledEntry(r, r.Time(), 0, seqnbr, id, excluded, e);
    }
    forall a, b | a in es && b in es
      ensures InOrder(a, b)
    {
      var i :| 0 <= i < |es| && es[i] == a;
      var j :| 0 <= j < |es| && es[j] == b;
      if j < i {
        assert es[j].start < es[i].start;
      }
    }
  }

  lemma BothRise(p: seq<Entry>, q: seq<Entry>, es: seq<Entry>, id: int)
    requires CardRises(q, id) && CardRises(es, id + 1) && forall e :: e in es ==> e.recurrence ==> e.id == id
    requires forall e :: e in p ==> e in q || e in es
    ensures CardRises(p, id + 1)
  {
    hide InOrder;
  }

  lemma LaterIdRises(q: seq<Entry>, id: int)
    requires CardRises(q, id)
    ensures CardRises(q, id + 1)
  {
    hide InOrder;
  }

  lemma SingleRises(p: seq<Entry>, q: seq<Entry>, id: int, e: Entry)
    requires CardRises(q, id) && !e.recurrence && forall d :: d in p ==> d in q || d == e
    ensures CardRises(p, id)
  {
    hide InOrder;
  }

  lemma InsertKeepsNumbered(st: State, v: nat, r: Entry, excluded: seq<int>, now: int)
    requires Numbered(st) && v < |st.queues| && Regular(r, now) && !Refuses(st, v, r)
    ensures Numbered(Insert(st, v, r, excluded, now).0)
  {
    hide CardRises, Regular, Unroll, CardOk, Insert, Overlapping, Refuses, OneCardEach;
    InsertKeepsBooked(st, v, r, excluded, now);
    InsertedMembers(st, v, r, excluded, now);
    var t := Insert(st, v, r, excluded, now).0;
    var p, q := t.queues[v], st.queues[v];
    assert CardRises(q, st.nextId);
    if r.recurrence {
      TypeIsKnown(r, now);
      NewEpisodesRise(r, st.nextSeq, st.nextId, excluded);
      BothRise(p, q, Unroll(r, r.Time(), 0, st.nextSeq, st.nextId, excluded), st.nextId);
    } else {
      SingleRises(p, q, st.nextId, r.(seqnbr := st.nextSeq));
    }
    forall w | 0 <= w < |st.queues|
      ensures CardRises(t.queues[w], t.nextId) && IdsBelow(st.queues[w], st.nextId)
    {
      assert CardRises(st.queues[w], st.nextId);
      RisesHasIds(st.queues[w], st.nextId);
      if w != v && r.recurrence {
        LaterIdRises(st.queues[w], st.nextId);
      }
    }
    NewIdKept(st, v, r, excluded, now);
  }

  lemma TypeIsKnown(r: Entry, now: int)
    requires Regular(r, now) && r.recurrence
    ensures 1 <= r.rtype <= 9
  {
  }

  lemma RisesHasIds(q: seq<Entry>, id: int)
    requires CardRises(q, id)
    ensures IdsBelow(q, id)
  {
  }

  lemma {:induction false} LoadKeepsNumbered(st: State, rs: seq<Record>, now: int)
    requires Numbered(st) && forall r :: r in rs ==> ToCome(r, now)
    ensures Numbered(Load(st, rs, now))
    decreases |rs|
  {
    hide CardRises, CardOk, OneCardEach, Regular, Request, Insert, InsertFirstFit, Refuses, Excludes;
    if rs != [] {
      var e := Request(rs[0]);
      assert ToCome(rs[0], now) && Regular(e, now);
      LowestCard(st, 0, e, Excludes(rs[0]), now);
      var v := CardFor(st, e, 0);
      if v < |st.queues| {
        InsertKeepsNumbered(st, v, e, Excludes(rs[0]), now);
      }
      LoadKeepsNumbered(LoadOne(st, rs[0], now), rs[1..], now);
    }
  }

  lemma {:induction false} FittingIsToCome(rs: seq<Record>, done: seq<Entry>, now: int, maxEntries: nat)
    requires RecordsFit(rs, done, now, maxEntries)
    ensures forall r :: r in rs ==> ToCome(r, now)
    decreases |rs|
  {
    hide ToCome, ClearOf, Plan, Request;
    if rs != [] {
      FittingIsToCome(rs[1..], done + Plan(rs[0]), now, maxEntries);
    }
  }

  lemma {:induction false} FileIsToCome(queues: seq<seq<Entry>>, v: nat, saved: seq<int>, table: seq<Excluded>,
                                        now: int, maxEntries: nat)
    requires v <= |queues| && CardsFit(queues, v, saved, table, now, maxEntries)
    ensures forall r :: r in SaveFrom(queues, v, saved, table) ==> ToCome(r, now)
    decreases |queues| - v
  {
    hide ToCome, RecordsFit, SaveQueue;
    if v < |queues| {
      var (rs, saved') := SaveQueue(queues[v], saved, table);
      FittingIsToCome(rs, [], now, maxEntries);
      FileIsToCome(queues, v + 1, saved', table, now, maxEntries);
    }
  }

  lemma ReloadIsNumbered(st: State, now: int)
    requires Placeable(st, now)
    ensures Numbered(Reload(st, now)) && Reload(st, now).excluded == []
  {
    hide ToCome, Load, SaveFrom, CardsFit, OnlySeries, Planned;
    var empty := Empty(|st.queues|, st.maxEntries);
    FileIsToCome(st.queues, 0, [], st.excluded, now, st.maxEntries);
    LoadKeepsNumbered(empty, File(st), now);
    LoadForgetsGaps(empty, File(st), now);
  }

  // ---------------------------------------------------------------------
  // Through the second restart every number comes back

  // Is c an episode of a's series, a's own or a later one?
  predicate ToFollow(a: Entry, c: Entry) {
    && a.recurrence && a.program == c.program && a.rtype == c.rtype && a.number + a.num == c.number + c.num
    && a.number <= c.number < a.number + a.num
  }

  ghost predicate InSeries(st: State, c: Entry) {
    exists v, a :: 0 <= v < |st.queues| && a in st.queues[v] && ToFollow(a, c)
  }

  lemma LeadMakesAll(s: seq<Entry>, nextId: int, now: int, c: Entry)
    requires s != [] && CardRises(s, nextId) && StrictlySorted(s) && Loadable(s[0], now)
    ensures Listed(Plan(RecordOf(s, [])), c) <==> ToFollow(s[0], c)
  {
    var r, a := RecordOf(s, []), s[0];
    LowestIsFirst(s, nextId);
    ReadLowest(s, [], now);
    ExcludesNothing(s);
    assert a in s && (a.recurrence ==> Known(a.rtype));
    hide CardRises, StrictlySorted, Loadable, RecordOf, Plan, Request, LowestNumber, Excludes;
    if a.recurrence {
      PlanSiblings(r, a);
      NumberUnrolled(r, c.number);
      SameRange(Request(r), a);
      ListedByNumber(Plan(r), a, c);
    } else {
      SinglePlan(r);
    }
  }

  lemma LowestIsFirst(s: seq<Entry>, nextId: int)
    requires s != [] && CardRises(s, nextId) && StrictlySorted(s)
    ensures s[0].recurrence ==> LowestNumber(s[1..], s[0].id, s[0].number) == s[0].number
  {
    if s[0].recurrence {
      forall e | e in s[1..] && e.recurrence && e.id == s[0].id
        ensures s[0].number <= e.number
      {
        assert SameSeries(s[0], e) && InOrder(s[0], e);
      }
      LowestIs(s[1..], s[0].id, s[0].number);
    }
  }

  lemma ExcludesNothing(s: seq<Entry>)
    requires s != []
    ensures Excludes(RecordOf(s, [])) == []
  {
    hide LowestNumber;
  }

  lemma ListedByNumber(p: seq<Entry>, a: Entry, c: Entry)
    requires a.recurrence && forall e :: e in p ==> Siblings(a, e)
    requires HasNumber(p, c.number) <==> a.number <= c.number < a.number + a.num
    ensures Listed(p, c) <==> ToFollow(a, c)
  {
    if Listed(p, c) {
      var e :| e in p && SameEpisode(e, c);
      var k :| 0 <= k < |p| && p[k] == e;
      assert HasNumber(p, c.number);
    }
    if ToFollow(a, c) {
      var k :| 0 <= k < |p| && p[k].number == c.number;
      assert p[k] in p && SameEpisode(p[k], c);
    }
  }

  lemma NumberedSuffix(t: State, v: nat, j: nat, now: int)
    requires Numbered(t) && Readable(t, now) && v < |t.queues| && j < |t.queues[v]| && Leads(t.queues[v], j)
    ensures var s := t.queues[v][j..];
            CardRises(s, t.nextId) && StrictlySorted(s) && Loadable(s[0], now) && s[0] == t.queues[v][j]
  {
    hide Loadable, Leads, CardOk, OneCardEach, InOrder;
    CardIsStrict(t, v);
    assert CardReadable(t.queues[v], now) && CardRises(t.queues[v], t.nextId);
    assert forall e :: e in t.queues[v][j..] ==> e in t.queues[v];
  }

  // The lead of a series stands for all that any of its episodes does.
  lemma LeadFollows(t: State, v: nat, i: nat, c: Entry) returns (j: nat)
    requires Numbered(t) && v < |t.queues| && i < |t.queues[v]| && ToFollow(t.queues[v][i], c)
    ensures j < |t.queues[v]| && Leads(t.queues[v], j) && ToFollow(t.queues[v][j], c)
  {
    hide Leads, OneCardEach, CardOk;
    var q := t.queues[v];
    j := LeadOf(q, i);
    CardIsStrict(t, v);
    assert CardRises(q, t.nextId);
    assert InOrder(q[j], q[i]);
  }

  lemma SecondMakesAll(t: State, now: int, c: Entry)
    requires Numbered(t) && t.excluded == [] && Readable(t, now) && Placeable(t, now)
    ensures Pending(Reload(t, now), c) <==> InSeries(t, c)
  {
    hide Numbered, Readable, Placeable, Reload, Planned, Listed, SaveFrom, Plan, RecordOf, Leads, ToFollow;
    PendingIsPlanned(t, now, c);
    PlannedByOne(File(t), c);
    if InSeries(t, c) {
      var v, a :| 0 <= v < |t.queues| && a in t.queues[v] && ToFollow(a, c);
      var i :| 0 <= i < |t.queues[v]| && t.queues[v][i] == a;
      var j := LeadFollows(t, v, i, c);
      NumberedSuffix(t, v, j, now);
      hide CardRises, StrictlySorted, Loadable;
      LeadMakesAll(t.queues[v][j..], t.nextId, now, c);
      assert OneCardEach(t.queues) by { NumberedOnce(t); }
      LeadInFile(t.queues, 0, v, j, [], []);
    }
    if Listed(Planned(File(t)), c) {
      var r :| r in File(t) && Listed(Plan(r), c);
      var v, j := FileLeads(t.queues, 0, [], [], r);
      NumberedSuffix(t, v, j, now);
      hide CardRises, StrictlySorted, Loadable;
      LeadMakesAll(t.queues[v][j..], t.nextId, now, c);
      assert t.queues[v][j] in t.queues[v];
    }
  }

  lemma NumberedOnce(t: State)
    requires Numbered(t)
    ensures OneCardEach(t.queues)
  {
  }

  lemma SameFollowers(a: Entry, b: Entry, c: Entry)
    requires SameEpisode(a, b) && b.recurrence
    ensures ToFollow(a, c) <==> ToFollow(b, c)
  {
  }

  lemma Follower(s: State, t: State, c: Entry)
    requires InSeries(s, c) && forall d :: Pending(s, d) <==> Pending(t, d)
    ensures InSeries(t, c)
  {
    hide SameEpisode, ToFollow;
    var v, a :| 0 <= v < |s.queues| && a in s.queues[v] && ToFollow(a, c);
    assert SameEpisode(a, a) && a.recurrence by { ItsOwn(a, c); }
    assert Listed(s.queues[v], a) && Pending(s, a);
    var w :| 0 <= w < |t.queues| && Listed(t.queues[w], a);
    var b :| b in t.queues[w] && SameEpisode(b, a);
    SameFollowers(b, a, c);
  }

  lemma ItsOwn(a: Entry, c: Entry)
    requires ToFollow(a, c)
    ensures SameEpisode(a, a) && a.recurrence
  {
  }

  // A second restart has every number of a series from its first pending one to
  // the last: what was deleted before the first restart is there again.
  lemma SecondReloadBringsAll(st: State, now: int, later: int, c: Entry)
    requires SeriesOk(st) && Readable(st, now) && Placeable(st, now)
    requires Readable(Reload(st, now), later) && Placeable(Reload(st, now), later)
    ensures Pending(Reload(Reload(st, now), later), c) <==> InSeries(st, c)
  {
    hide *;
    var t := Reload(st, now);
    ReloadIsNumbered(st, now);
    SecondMakesAll(t, later, c);
    forall d
      ensures Pending(t, d) <==> Pending(st, d)
    {
      FirstReloadKeepsNumbers(st, now, d);
    }
    if InSeries(st, c) {
      Follower(st, t, c);
    }
    if InSeries(t, c) {
      Follower(t, st, c);
    }
  }
}
