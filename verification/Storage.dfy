// Writing the tables to the file and reading them back (src/tvxmldb.c): the
// loops that carry out SaveFrom and Load of Database.dfy.
module Storage {
  import opened Calendar
  import opened Schedule
  import opened Scheduler
  import opened Database

  // ---------------------------------------------------------------------
  // Writing

  // The lowest number of the series of the entry in slot i, from there on.
  method LowestOf(t: Table, v: nat, i: nat) returns (low: int)
    requires t.Valid() && v < t.maxVideo && i < t.numEntries[v]
    ensures var q := t.Queues()[v]; low == LowestNumber(q[i + 1..], q[i].id, q[i].number)
  {
    hide Base, Laid, QueuesOf, Table.Queues;
    ghost var q := t.Queues()[v];
    var b := Base(v, t.maxEntries);
    t.Opened(v);
    assert t.recs[b + i] == Some(q[i]);
    var e := t.recs[b + i].value;
    low := e.number;
    var k := i + 1;
    while k < t.numEntries[v]
      invariant i < k <= |q|
      invariant LowestNumber(q[k..], e.id, low) == LowestNumber(q[i + 1..], e.id, e.number)
    {
      assert t.recs[b + k] == Some(q[k]) && q[k..][1..] == q[k + 1..];
      var f := t.recs[b + k].value;
      if f.recurrence && f.id == e.id && f.number < low {
        low := f.number;
      }
      k := k + 1;
    }
  }

  // The walk of iterate_excluded_init over the exclusion table.
  method ItemsOf(table: seq<Excluded>, id: int) returns (items: seq<int>)
    ensures items == ExcludedItems(table, id)
  {
    var i := 0;
    while i < |table|
      invariant i <= |table| && ExcludedItems(table, id) == ExcludedItems(table[i..], id)
    {
      if table[i].id == id {
        return table[i].items;
      }
      assert table[i..][1..] == table[i + 1..];
      i := i + 1;
    }
    items := [];
  }

  lemma AboveOne(items: seq<int>, j: nat, low: int)
    requires j < |items|
    ensures Above(items[j..], low) == (if items[j] > low then [items[j]] else []) + Above(items[j + 1..], low)
  {
    assert items[j..][1..] == items[j + 1..];
  }

  // The walk of next_excluded_item: the numbers above low.
  method ItemsAbove(items: seq<int>, low: int) returns (above: seq<int>)
    ensures above == Above(items, low)
  {
    assert items[0..] == items && Above(items[|items|..], low) == [];
    hide Above;
    above := [];
    var j := 0;
    while j < |items|
      invariant j <= |items| && above + Above(items[j..], low) == Above(items, low)
    {
      AboveOne(items, j, low);
      if items[j] > low {
        above := above + [items[j]];
      }
      j := j + 1;
    }
  }

  // What is written for the entry in slot i.
  method WriteRecord(t: Table, v: nat, i: nat) returns (r: Record)
    requires t.Valid() && v < t.maxVideo && i < t.numEntries[v]
    ensures r == RecordOf(t.Queues()[v][i..], t.excluded)
  {
    hide Base, Laid, QueuesOf, FromTimestamp, LowestNumber, Above;
    ghost var q := t.Queues()[v];
    t.Opened(v);
    var b := Base(v, t.maxEntries);
    assert t.recs[b + i] == Some(q[i]) && q[i..][1..] == q[i + 1..];
    var e := t.recs[b + i].value;
    var repeat: Option<Repeat> := None;
    if e.recurrence {
      var low := LowestOf(t, v, i);
      var items := ItemsOf(t.excluded, e.id);
      var above := ItemsAbove(items, low);
      repeat := Some(Repeat(e.rtype, e.num, low, above));
    }
    r := Record(e.program, FromTimestamp(e.start), FromTimestamp(e.end), repeat);
  }

  lemma SaveOne(q: seq<Entry>, i: nat, saved: seq<int>, table: seq<Excluded>)
    requires i < |q|
    ensures if q[i].recurrence && q[i].id in saved then
              SaveQueue(q[i..], saved, table) == SaveQueue(q[i + 1..], saved, table)
            else
              var (rs, ids) := SaveQueue(q[i + 1..], if q[i].recurrence then saved + [q[i].id] else saved, table);
              SaveQueue(q[i..], saved, table) == ([RecordOf(q[i..], table)] + rs, ids)
  {
    hide RecordOf;
    assert q[i..][1..] == q[i + 1..];
  }

  lemma SaveNone(q: seq<Entry>, saved: seq<int>, table: seq<Excluded>)
    ensures q[0..] == q && SaveQueue(q[|q|..], saved, table) == ([], saved)
  {
  }

  // One card of _writeXMLFileHTML: `saved` are the series already written.
  method WriteCard(t: Table, v: nat, saved: seq<int>) returns (rs: seq<Record>, ids: seq<int>)
    requires t.Valid() && v < t.maxVideo
    ensures (rs, ids) == SaveQueue(t.Queues()[v], saved, t.excluded)
  {
    hide Base, Laid, QueuesOf, RecordOf, SaveQueue, Table.Queues;
    ghost var q := t.Queues()[v];
    ghost var goal := SaveQueue(q, saved, t.excluded);
    var b := Base(v, t.maxEntries);
    t.Opened(v);
    rs, ids := [], saved;
    var i := 0;
    SaveNone(q, saved, t.excluded);
    assert [] + goal.0 == goal.0;
    while i < t.numEntries[v]
      invariant i <= |q|
      invariant rs + SaveQueue(q[i..], ids, t.excluded).0 == goal.0
      invariant SaveQueue(q[i..], ids, t.excluded).1 == goal.1
    {
      assert t.recs[b + i] == Some(q[i]);
      SaveOne(q, i, ids, t.excluded);
      var e := t.recs[b + i].value;
      if !(e.recurrence && e.id in ids) {
        var r := WriteRecord(t, v, i);
        rs := rs + [r];
        ids := if e.recurrence then ids + [e.id] else ids;
      }
      i := i + 1;
    }
    SaveNone(q, ids, t.excluded);
    assert rs + [] == rs;
  }

  // _writeXMLFileHTML
  method WriteFile(t: Table) returns (rs: seq<Record>)
    requires t.Valid()
    ensures rs == SaveFrom(t.Contents().queues, 0, [], t.excluded)
  {
    hide Base, Laid, QueuesOf, SaveQueue;
    ghost var qs := t.Queues();
    var saved: seq<int> := [];
    rs := [];
    var v := 0;
    while v < t.maxVideo
      invariant v <= t.maxVideo
      invariant rs + SaveFrom(qs, v, saved, t.excluded) == SaveFrom(qs, 0, [], t.excluded)
    {
      var card;
      card, saved := WriteCard(t, v, saved);
      rs := rs + card;
      v := v + 1;
    }
  }

  // ---------------------------------------------------------------------
  // Reading

  // Does reading a record, or one of the file, end the program?
  predicate LoadOneEnds(st: State, r: Record, now: int)
    requires WellFormed(st)
  {
    Request(r).start < Request(r).end && FirstFitEnds(st, 0, Request(r), Excludes(r), now)
  }

  predicate LoadEnds(st: State, rs: seq<Record>, now: int)
    requires WellFormed(st)
    decreases |rs|
  {
    rs != [] && (LoadOneEnds(st, rs[0], now) || LoadEnds(LoadOne(st, rs[0], now), rs[1..], now))
  }

  // processRecording: the first card that will have it.
  method ProcessRecording(t: Table, r: Record, now: int) returns (ended: bool)
    requires t.Valid() && 0 < t.maxVideo
    modifies t, t.recs, t.numEntries
    ensures t.Valid() && ended == LoadOneEnds(old(t.Contents()), r, now)
    ensures !ended ==> t.Contents() == LoadOne(old(t.Contents()), r, now)
  {
    hide Base, Laid, QueuesOf, ToTimestamp, FileDate, Refuses, Insert, Request, InsertEnds;
    ghost var st := t.Contents();
    var e := Request(r);
    if e.start >= e.end {
      return false;
    }
    var v, outcome := 0, Refused;
    ended, outcome := t.InsertRec(0, e, Excludes(r), now);
    InsertRefusal(st, 0, e, Excludes(r), now);
    while !ended && outcome.Refused? && v + 1 < t.maxVideo
      invariant v < t.maxVideo && t.Valid()
      invariant if ended then FirstFitEnds(st, 0, e, Excludes(r), now)
                else if outcome.Refused? then
                  && t.Contents() == st && Refuses(st, v, e) && !InsertEnds(st, v, e, Excludes(r), now)
                  && InsertFirstFit(st, 0, e, Excludes(r), now) == InsertFirstFit(st, v, e, Excludes(r), now)
                  && FirstFitEnds(st, 0, e, Excludes(r), now) == FirstFitEnds(st, v, e, Excludes(r), now)
                else
                  && (t.Contents(), outcome) == InsertFirstFit(st, 0, e, Excludes(r), now)
                  && !FirstFitEnds(st, 0, e, Excludes(r), now)
      decreases !ended, t.maxVideo - v
    {
      v := v + 1;
      ended, outcome := t.InsertRec(v, e, Excludes(r), now);
      InsertRefusal(st, v, e, Excludes(r), now);
    }
  }

  lemma InsertRefusal(st: State, v: nat, r: Entry, excluded: seq<int>, now: int)
    requires WellFormed(st) && v < |st.queues|
    ensures Insert(st, v, r, excluded, now).1.Refused? <==> Refuses(st, v, r)
    ensures Refuses(st, v, r) ==> Insert(st, v, r, excluded, now).0 == st
  {
    hide Refuses, NewEntries, AppendAll;
  }

  // The loop of readXMLFile
  method ReadFile(t: Table, rs: seq<Record>, now: int) returns (ended: bool)
    requires t.Valid() && 0 < t.maxVideo
    modifies t, t.recs, t.numEntries
    ensures t.Valid() && ended == LoadEnds(old(t.Contents()), rs, now)
    ensures !ended ==> t.Contents() == Load(old(t.Contents()), rs, now)
  {
    hide LoadOne, LoadOneEnds, Laid, QueuesOf;
    var k := 0;
    ended := false;
    while k < |rs|
      invariant k <= |rs| && t.Valid() && !ended
      invariant Load(t.Contents(), rs[k..], now) == Load(old(t.Contents()), rs, now)
      invariant LoadEnds(t.Contents(), rs[k..], now) == LoadEnds(old(t.Contents()), rs, now)
    {
      assert rs[k..][1..] == rs[k + 1..];
      ended := ProcessRecording(t, rs[k], now);
      if ended {
        return;
      }
      k := k + 1;
    }
  }

  // A file whose series have occurrences and no date before the epoch is read
  // to its end.
  lemma {:induction false} SoundFileIsRead(st: State, rs: seq<Record>, now: int)
    requires WellFormed(st)
    requires forall r :: r in rs && Request(r).recurrence ==> 0 < Request(r).num && Dated(Request(r).Time())
    ensures !LoadEnds(st, rs, now)
    decreases |rs|
  {
    hide LoadOne, Request, InsertEnds;
    if rs != [] {
      FirstFitGoesOn(st, 0, Request(rs[0]), Excludes(rs[0]), now);
      SoundFileIsRead(LoadOne(st, rs[0], now), rs[1..], now);
    }
  }

  lemma {:induction false} FirstFitGoesOn(st: State, v: nat, r: Entry, excluded: seq<int>, now: int)
    requires WellFormed(st) && v <= |st.queues| && (r.recurrence ==> 0 < r.num && Dated(r.Time()))
    ensures !FirstFitEnds(st, v, r, excluded, now)
    decreases |st.queues| - v
  {
    hide InsertEnds, Refuses;
    if v < |st.queues| {
      DatedNeverEnds(st, v, r, excluded, now);
      FirstFitGoesOn(st, v + 1, r, excluded, now);
    }
  }
}
