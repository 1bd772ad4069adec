// The tables of src/recs.c, changed in place: one flat array with a stretch of
// slots for each card, the counts, the ongoing recordings, the two counters
// and the exclusion table.  Every method does to the tables what its namesake
// in Schedule.dfy does to the value they stand for.
module Scheduler {
  import opened Calendar
  import opened Recurrence
  import opened Schedule

  // ---------------------------------------------------------------------
  // The queues that a flat array of slots holds

  // REC_IDX(v, 0): where the slots of card v begin.
  function Base(v: nat, m: nat): nat {
    v * m
  }

  lemma BaseApart(v: nat, w: nat, m: nat)
    requires v < w
    ensures Base(v, m) + m <= Base(w, m)
  {
    assert (w - v - 1) * m >= 0;
  }

  predicate Full(slots: seq<Option<Entry>>) {
    forall i :: 0 <= i < |slots| ==> slots[i].Some?
  }

  function Values(slots: seq<Option<Entry>>): (q: seq<Entry>)
    requires Full(slots)
    ensures |q| == |slots| && forall i :: 0 <= i < |q| ==> slots[i] == Some(q[i])
  {
    seq(|slots|, i requires 0 <= i < |slots| => slots[i].value)
  }

  // The first n slots of card v are in use.
  predicate CardLaid(slots: seq<Option<Entry>>, n: nat, m: nat, v: nat) {
    n <= m && Base(v, m) + m <= |slots| && Full(slots[Base(v, m)..Base(v, m) + n])
  }

  function QueueAt(slots: seq<Option<Entry>>, n: nat, m: nat, v: nat): (q: seq<Entry>)
    requires CardLaid(slots, n, m, v)
    ensures |q| == n && forall i :: 0 <= i < n ==> slots[Base(v, m) + i] == Some(q[i])
  {
    Values(slots[Base(v, m)..Base(v, m) + n])
  }

  predicate Laid(slots: seq<Option<Entry>>, counts: seq<nat>, m: nat) {
    |slots| == Base(|counts|, m) && forall v :: 0 <= v < |counts| ==> CardLaid(slots, counts[v], m, v)
  }

  function QueuesOf(slots: seq<Option<Entry>>, counts: seq<nat>, m: nat): (qs: seq<seq<Entry>>)
    requires Laid(slots, counts, m)
    ensures |qs| == |counts|
    ensures forall v :: 0 <= v < |qs| ==> |qs[v]| <= m && qs[v] == QueueAt(slots, counts[v], m, v)
  {
    seq(|counts|, v requires 0 <= v < |counts| => QueueAt(slots, counts[v], m, v))
  }

  // Equal to the slots from lo on, up to n of them.
  predicate Outside(now: seq<Option<Entry>>, was: seq<Option<Entry>>, lo: nat, n: nat) {
    |now| == |was| && forall k :: 0 <= k < |now| && !(lo <= k < lo + n) ==> now[k] == was[k]
  }

  // Rewriting the slots of one card changes that card's queue only.
  lemma OneCard(now: seq<Option<Entry>>, was: seq<Option<Entry>>, counts: seq<nat>, m: nat, v: nat, n: nat)
    requires Laid(was, counts, m) && v < |counts|
    requires Outside(now, was, Base(v, m), m) && CardLaid(now, n, m, v)
    ensures Laid(now, counts[v := n], m)
    ensures QueuesOf(now, counts[v := n], m) == QueuesOf(was, counts, m)[v := QueueAt(now, n, m, v)]
  {
    hide Base;
    forall w | 0 <= w < |counts| && w != v
      ensures CardLaid(now, counts[w], m, w) && QueueAt(now, counts[w], m, w) == QueueAt(was, counts[w], m, w)
    {
      if v < w {
        BaseApart(v, w, m);
      } else {
        BaseApart(w, v, m);
      }
      assert CardLaid(was, counts[w], m, w);
      assert now[Base(w, m)..Base(w, m) + counts[w]] == was[Base(w, m)..Base(w, m) + counts[w]];
    }
  }

  // ---------------------------------------------------------------------
  // Sorting in place

  // The slots from lo on hold the queue q.
  ghost predicate Holds(a: array<Option<Entry>>, lo: nat, q: seq<Entry>)
    reads a
  {
    lo + |q| <= a.Length && forall k :: 0 <= k < |q| ==> a[lo + k] == Some(q[k])
  }

  // sortrecs: the n slots from lo, by start.
  method SortSlots(a: array<Option<Entry>>, lo: nat, n: nat, ghost q: seq<Entry>)
    requires Holds(a, lo, q) && n == |q|
    modifies a
    ensures Holds(a, lo, SortByStart(q))
    ensures forall k :: 0 <= k < a.Length && !(lo <= k < lo + n) ==> a[k] == old(a[k])
  {
    hide SortByStart;
    var i := 0;
    assert SortByStart([]) + q == q by { SortNothing(q); }
    while i < n
      invariant 0 <= i <= n
      invariant Holds(a, lo, SortByStart(q[..i]) + q[i..])
      invariant forall k :: 0 <= k < a.Length && !(lo <= k < lo + n) ==> a[k] == old(a[k])
    {
      SortOneMore(q, i);
      SiftDown(a, lo, i, SortByStart(q[..i]), q[i], q[i + 1..]);
      i := i + 1;
    }
    assert q[..n] == q && SortByStart(q[..n]) + q[n..] == SortByStart(q);
  }

  lemma SortNothing(q: seq<Entry>)
    ensures SortByStart(q[..0]) + q[0..] == q
  {
  }

  lemma SortOneMore(q: seq<Entry>, i: nat)
    requires i < |q|
    ensures SortByStart(q[..i + 1]) == InsertByStart(SortByStart(q[..i]), q[i])
    ensures SortByStart(q[..i]) + q[i..] == SortByStart(q[..i]) + [q[i]] + q[i + 1..]
  {
    assert q[..i + 1][..i] == q[..i];
  }

  // Move the entry in slot lo + i down past every entry that starts later.
  method SiftDown(a: array<Option<Entry>>, lo: nat, i: nat, ghost p: seq<Entry>, ghost x: Entry, ghost rest: seq<Entry>)
    requires |p| == i && Holds(a, lo, p + [x] + rest)
    modifies a
    ensures Holds(a, lo, InsertByStart(p, x) + rest)
    ensures forall k :: 0 <= k < a.Length && !(lo <= k <= lo + i) ==> a[k] == old(a[k])
  {
    hide *;
    TwoParts(a, lo, p, x, rest);
    var e := a[lo + i].value;
    var j := MakeRoom(a, lo, i, e, p);
    a[lo + j] := Some(e);
    InsertPlace(p, x, j);
    Joined(a, lo, p, x, rest, j);
  }

  // Move every entry of p that starts later than e one slot up.
  method MakeRoom(a: array<Option<Entry>>, lo: nat, i: nat, e: Entry, ghost p: seq<Entry>) returns (j: nat)
    requires lo + i < a.Length && |p| == i && forall k :: 0 <= k < i ==> a[lo + k] == Some(p[k])
    modifies a
    ensures j <= i && (forall k :: 0 <= k < j ==> a[lo + k] == Some(p[k]))
    ensures forall k :: j <= k < i ==> a[lo + 1 + k] == Some(p[k]) && e.start < p[k].start
    ensures j > 0 ==> p[j - 1].start <= e.start
    ensures forall k :: 0 <= k < a.Length && !(lo <= k <= lo + i) ==> a[k] == old(a[k])
  {
    j := i;
    while j > 0
      invariant j <= i
      invariant forall k :: 0 <= k < j ==> a[lo + k] == Some(p[k])
      invariant forall k :: j <= k < i ==> a[lo + 1 + k] == Some(p[k]) && e.start < p[k].start
      invariant forall k :: 0 <= k < a.Length && !(lo <= k <= lo + i) ==> a[k] == old(a[k])
    {
      var k := j - 1;
      assert a[lo + k] == Some(p[k]);
      if a[lo + k].value.start <= e.start {
        return;
      }
      a[lo + j] := a[lo + k];
      j := k;
    }
  }

  lemma {:induction false} InsertPlace(p: seq<Entry>, x: Entry, j: nat)
    requires j <= |p| && (j > 0 ==> p[j - 1].start <= x.start)
    requires forall k :: j <= k < |p| ==> x.start < p[k].start
    ensures InsertByStart(p, x) == p[..j] + [x] + p[j..]
    decreases |p|
  {
    if j < |p| {
      var n := |p| - 1;
      assert InsertByStart(p, x) == InsertByStart(p[..n], x) + [p[n]];
      InsertPlace(p[..n], x, j);
      hide InsertByStart;
      assert p[..n][..j] == p[..j];
      assert p[..n][j..] + [p[n]] == p[j..];
    }
  }

  lemma TwoParts(a: array<Option<Entry>>, lo: nat, p: seq<Entry>, x: Entry, rest: seq<Entry>)
    requires Holds(a, lo, p + [x] + rest)
    ensures lo + |p| + 1 + |rest| <= a.Length && a[lo + |p|] == Some(x)
    ensures forall k :: 0 <= k < |p| ==> a[lo + k] == Some(p[k])
    ensures forall k :: 0 <= k < |rest| ==> a[lo + |p| + 1 + k] == Some(rest[k])
  {
    var q := p + [x] + rest;
    assert q[|p|] == x;
    assert forall k :: 0 <= k < |p| ==> q[k] == p[k];
    assert forall k :: 0 <= k < |rest| ==> q[|p| + 1 + k] == rest[k];
  }

  lemma Joined(a: array<Option<Entry>>, lo: nat, p: seq<Entry>, x: Entry, rest: seq<Entry>, j: nat)
    requires j <= |p| && lo + |p| + 1 + |rest| <= a.Length && a[lo + j] == Some(x)
    requires forall k :: 0 <= k < j ==> a[lo + k] == Some(p[k])
    requires forall k :: j <= k < |p| ==> a[lo + 1 + k] == Some(p[k])
    requires forall k :: 0 <= k < |rest| ==> a[lo + |p| + 1 + k] == Some(rest[k])
    ensures Holds(a, lo, p[..j] + [x] + p[j..] + rest)
  {
    var q := p[..j] + [x] + p[j..] + rest;
    forall k | 0 <= k < |q|
      ensures a[lo + k] == Some(q[k])
    {
      if j < k <= |p| {
        assert q[k] == p[k - 1];
      } else if |p| < k {
        assert q[k] == rest[k - |p| - 1];
      }
    }
  }

  // Slots that hold q are the queue of a card.
  lemma HeldQueue(a: array<Option<Entry>>, m: nat, v: nat, q: seq<Entry>)
    requires |q| <= m && Base(v, m) + m <= a.Length
    ensures Holds(a, Base(v, m), q) <==> CardLaid(a[..], |q|, m, v) && QueueAt(a[..], |q|, m, v) == q
  {
    hide Base;
    var s := a[..][Base(v, m)..Base(v, m) + |q|];
    if Holds(a, Base(v, m), q) {
      assert forall k :: 0 <= k < |q| ==> s[k] == Some(q[k]);
    }
  }

  // ---------------------------------------------------------------------
  // Deleting a series in place

  // Clear the slots of series id.
  method NullOut(a: array<Option<Entry>>, lo: nat, n: nat, ghost q: seq<Entry>, id: int)
    requires Holds(a, lo, q) && n == |q|
    modifies a
    ensures forall k :: 0 <= k < n ==> a[lo + k] == if q[k].id == id then None else Some(q[k])
    ensures forall k :: 0 <= k < a.Length && !(lo <= k < lo + n) ==> a[k] == old(a[k])
  {
    var i := 0;
    while i < n
      invariant i <= n
      invariant forall k :: 0 <= k < n ==> a[lo + k] == if k < i && q[k].id == id then None else Some(q[k])
      invariant forall k :: 0 <= k < a.Length && !(lo <= k < lo + n) ==> a[k] == old(a[k])
    {
      assert a[lo + i] == Some(q[i]);
      if a[lo + i].value.id == id {
        a[lo + i] := None;
      }
      i := i + 1;
    }
  }

  // Collect what is left in order.
  method Compact(a: array<Option<Entry>>, lo: nat, n: nat, ghost q: seq<Entry>, id: int, tmp: array<Option<Entry>>)
    returns (nbr: nat)
    requires n == |q| && lo + n <= a.Length && n <= tmp.Length && a != tmp
    requires forall k :: 0 <= k < n ==> a[lo + k] == if q[k].id == id then None else Some(q[k])
    modifies tmp
    ensures nbr == |Others(q, id)| && Holds(tmp, 0, Others(q, id))
  {
    nbr := 0;
    ghost var kept: seq<Entry> := [];
    var i := 0;
    while i < n
      invariant nbr == |kept| <= i <= n && Holds(tmp, 0, kept)
      invariant kept + Others(q[i..], id) == Others(q, id)
    {
      assert a[lo + i] == (if q[i].id == id then None else Some(q[i])) && q[i..][1..] == q[i + 1..];
      if a[lo + i].Some? {
        tmp[nbr] := a[lo + i];
        kept := kept + [q[i]];
        nbr := nbr + 1;
      }
      i := i + 1;
    }
  }

  method CopyBack(a: array<Option<Entry>>, lo: nat, tmp: array<Option<Entry>>, nbr: nat, ghost q: seq<Entry>)
    requires lo + nbr <= a.Length && a != tmp && nbr == |q| && Holds(tmp, 0, q)
    modifies a
    ensures Holds(a, lo, q)
    ensures forall k :: 0 <= k < a.Length && !(lo <= k < lo + nbr) ==> a[k] == old(a[k])
  {
    var i := 0;
    while i < nbr
      invariant i <= nbr
      invariant forall k :: 0 <= k < i ==> a[lo + k] == Some(q[k])
      invariant forall k :: 0 <= k < a.Length && !(lo <= k < lo + nbr) ==> a[k] == old(a[k])
    {
      assert tmp[0 + i] == Some(q[i]);
      a[lo + i] := tmp[i];
      i := i + 1;
    }
  }

  // ---------------------------------------------------------------------
  // Stepping through the dates of a series

  // increcdays as its callers use it; `ended` is its call of exit().
  method NextDates(rtype: int, x: Span, cs: Civil, ce: Civil) returns (ended: bool, y: Span, ns: Civil, ne: Civil)
    requires cs == FromTimestamp(x.start) && ce == FromTimestamp(x.end)
    ensures ended == NextEnds(rtype, x)
    ensures !ended ==> y == Next(rtype, x) && ns == FromTimestamp(y.start) && ne == FromTimestamp(y.end)
  {
    hide FromTimestamp, StepDays;
    var status;
    status, y, ns, ne := IncRecDays(rtype, x, cs, ce);
    ended := status.Exit?;
    if status.UnknownType? {
      y, ns, ne := x, cs, ce;
    }
  }

  lemma CollidesAtFirst(r: Entry, q: seq<Entry>, o: Option<Entry>)
    requires r.recurrence && 0 < r.num
    ensures CollidesWithAny(r.Time(), q, o) ==> Overlapping(r, q, o)
  {
    hide CollidesWithAny;
    assert Nth(r.rtype, r.Time(), 0) == r.Time();
  }

  lemma NoneExcluded(r: Entry, excluded: seq<int>)
    ensures AllExcluded(r, 0, excluded)
  {
  }

  lemma OneMoreExcluded(r: Entry, i: nat, excluded: seq<int>)
    ensures AllExcluded(r, i + 1, excluded) <==> AllExcluded(r, i, excluded) && r.number + i in excluded
  {
  }

  lemma OneIncluded(r: Entry, i: nat, excluded: seq<int>)
    requires i < r.num && r.number + i !in excluded
    ensures !AllExcluded(r, r.num, excluded)
  {
  }

  lemma DatedGoesOn(rtype: int, x: Span)
    ensures NextEnds(rtype, x) ==> !Dated(x)
    ensures !NextEnds(rtype, x) && Known(rtype) ==> Dated(Next(rtype, x))
  {
    hide Next;
    if Dated(x) {
      LaterIsDated(rtype, x);
    }
  }

  lemma UnrollOne(r: Entry, x: Span, i: nat, seqnbr: int, id: int, excluded: seq<int>)
    requires i < r.num
    ensures var es := Unroll(r, x, i, seqnbr, id, excluded);
            if r.number + i in excluded then es == Unroll(r, x, i + 1, seqnbr, id, excluded)
            else
              && es != [] && es == [Occurrence(r, x, i, seqnbr, id)] + es[1..]
              && es[1..] == if Known(r.rtype) then Unroll(r, Next(r.rtype, x), i + 1, seqnbr + 1, id, excluded) else []
  {
    hide Next;
  }

  lemma UnrollNone(r: Entry, x: Span, i: nat, seqnbr: int, id: int, excluded: seq<int>)
    requires i <= r.num
    ensures i == r.num ==> Unroll(r, x, i, seqnbr, id, excluded) == []
  {
  }

  lemma AppendFirst(q: seq<Entry>, e: Entry, rest: seq<Entry>, maxEntries: nat)
    ensures AppendAll(q, [e] + rest, maxEntries) == AppendAll(Append(q, e, maxEntries), rest, maxEntries)
  {
    hide Append;
    assert ([e] + rest)[1..] == rest;
  }

  lemma AppendNone(q: seq<Entry>, maxEntries: nat)
    ensures AppendAll(q, [], maxEntries) == q
  {
  }

  lemma AppendOne(q: seq<Entry>, e: Entry, maxEntries: nat)
    ensures AppendAll(q, [e], maxEntries) == Append(q, e, maxEntries)
  {
    hide Append;
    assert [e][1..] == [];
  }

  // ---------------------------------------------------------------------
  // The tables

  class Table {
    const maxVideo: nat
    const maxEntries: nat
    const recs: array<Option<Entry>>
    const numEntries: array<nat>
    const ongoing: array<Option<Entry>>
    var nextSeq: int
    var nextId: int
    var excluded: seq<Excluded>

    ghost predicate Valid()
      reads recs, numEntries
    {
      && recs != ongoing
      && numEntries.Length == maxVideo && ongoing.Length == maxVideo
      && Laid(recs[..], numEntries[..], maxEntries)
    }

    ghost function Queues(): (qs: seq<seq<Entry>>)
      requires Valid()
      reads recs, numEntries
      ensures |qs| == maxVideo
      ensures forall v :: 0 <= v < maxVideo ==> |qs[v]| == numEntries[v] <= maxEntries
    {
      QueuesOf(recs[..], numEntries[..], maxEntries)
    }

    // The schedule that the tables stand for.
    ghost function Contents(): (st: State)
      requires Valid()
      reads this, recs, numEntries, ongoing
      ensures WellFormed(st)
    {
      State(maxEntries, Queues(), ongoing[..], nextSeq, nextId, excluded)
    }

    // initrecs
    constructor (maxVideo: nat, maxEntries: nat)
      ensures Valid() && fresh(recs) && fresh(numEntries) && fresh(ongoing)
      ensures Contents() == Empty(maxVideo, maxEntries)
    {
      this.maxVideo, this.maxEntries := maxVideo, maxEntries;
      recs := new Option<Entry>[Base(maxVideo, maxEntries)](_ => None);
      numEntries := new nat[maxVideo](_ => 0);
      ongoing := new Option<Entry>[maxVideo](_ => None);
      nextSeq, nextId, excluded := 1, 1, [];
      new;
      forall v | 0 <= v < maxVideo
        ensures CardLaid(recs[..], 0, maxEntries, v)
      {
        BaseApart(v, maxVideo, maxEntries);
      }
    }

    // What a method finds in the slots of card v.
    lemma Opened(v: nat)
      requires Valid() && v < maxVideo
      ensures Base(v, maxEntries) + maxEntries <= recs.Length
      ensures Holds(recs, Base(v, maxEntries), Queues()[v])
    {
      hide Base;
      assert CardLaid(recs[..], numEntries[v], maxEntries, v);
      HeldQueue(recs, maxEntries, v, Queues()[v]);
    }

    // What a method has done that rewrote the slots of card v.
    lemma Closed(slots: seq<Option<Entry>>, counts: seq<nat>, v: nat, q: seq<Entry>)
      requires recs != ongoing && numEntries.Length == ongoing.Length == maxVideo
      requires Laid(slots, counts, maxEntries) && |slots| == recs.Length && v < |counts| && |q| <= maxEntries
      requires numEntries[..] == counts[v := |q|] && Holds(recs, Base(v, maxEntries), q)
      requires forall k :: 0 <= k < recs.Length && !(Base(v, maxEntries) <= k < Base(v, maxEntries) + maxEntries) ==>
                 recs[k] == slots[k]
      ensures Valid() && Queues() == QueuesOf(slots, counts, maxEntries)[v := q]
    {
      hide Base;
      assert CardLaid(slots, counts[v], maxEntries, v);
      HeldQueue(recs, maxEntries, v, q);
      OneCard(recs[..], slots, counts, maxEntries, v, |q|);
    }

    // _insertrec
    method InsertEntry(v: nat, e: Entry) returns (ok: bool)
      requires Valid() && v < maxVideo
      modifies recs, numEntries
      ensures Valid() && Queues() == old(Queues())[v := Append(old(Queues())[v], e, maxEntries)]
      ensures ok == (|old(Queues())[v]| < maxEntries)
    {
      hide Base, Laid, QueuesOf, SortByStart;
      ghost var q, slots, counts := Queues()[v], recs[..], numEntries[..];
      if numEntries[v] >= maxEntries {
        return false;
      }
      var b, n := Base(v, maxEntries), numEntries[v];
      Opened(v);
      recs[b + n] := Some(e);
      numEntries[v] := n + 1;
      SortSlots(recs, b, n + 1, q + [e]);
      Closed(slots, counts, v, SortByStart(q + [e]));
      ok := true;
    }

    // Move the last entry of card v into slot i, then sort: remove_toprec,
    // delete_toprec and delete_recid all take an entry out in this way.
    method TakeOut(v: nat, i: nat)
      requires Valid() && v < maxVideo && i < numEntries[v]
      modifies recs, numEntries
      ensures Valid() && Queues() == old(Queues())[v := DeleteAt(old(Queues())[v], i)]
    {
      hide Base, Laid, QueuesOf, SortByStart;
      ghost var q, slots, counts := Queues()[v], recs[..], numEntries[..];
      var b, n := Base(v, maxEntries), numEntries[v] - 1;
      Opened(v);
      ghost var moved := q[i := q[n]][..n];
      recs[b + i] := recs[b + n];
      recs[b + n] := None;
      numEntries[v] := n;
      SortSlots(recs, b, n, moved);
      Closed(slots, counts, v, SortByStart(moved));
    }

    // remove_toprec and, but for freeing the entry, delete_toprec
    method RemoveTop(v: nat)
      requires Valid() && v < maxVideo
      modifies recs, numEntries
      ensures Valid()
      ensures Queues() == if old(Queues())[v] == [] then old(Queues())
                          else old(Queues())[v := DeleteAt(old(Queues())[v], 0)]
    {
      hide Base, Laid, QueuesOf, DeleteAt;
      if numEntries[v] >= 1 {
        TakeOut(v, 0);
      }
    }

    // delete_recid, for a whole series
    method DeleteSeries(v: nat, id: int)
      requires Valid() && v < maxVideo
      modifies recs, numEntries
      ensures Valid() && Queues() == old(Queues())[v := SortByStart(Others(old(Queues())[v], id))]
    {
      hide Base, Laid, QueuesOf, SortByStart, Others;
      ghost var q, slots, counts := Queues()[v], recs[..], numEntries[..];
      var b, n := Base(v, maxEntries), numEntries[v];
      Opened(v);
      NullOut(recs, b, n, q, id);
      var tmp := new Option<Entry>[maxEntries](_ => None);
      var nbr := Compact(recs, b, n, q, id, tmp);
      CopyBack(recs, b, tmp, nbr, Others(q, id));
      numEntries[v] := nbr;
      SortSlots(recs, b, nbr, Others(q, id));
      Closed(slots, counts, v, SortByStart(Others(q, id)));
    }

    // The search of delete_recid through all queues.
    method Find(seqnbr: int) returns (v: nat, i: nat)
      requires Valid()
      ensures v == CardOf(Queues(), seqnbr, 0)
      ensures v < maxVideo ==> i == IndexOf(Queues()[v], seqnbr) < |Queues()[v]|
    {
      hide Base, Laid, QueuesOf, IndexOf;
      v := 0;
      while v < maxVideo
        invariant v <= maxVideo
        invariant CardOf(Queues(), seqnbr, 0) == CardOf(Queues(), seqnbr, v)
      {
        i := FindOn(v, seqnbr);
        if i < numEntries[v] {
          return;
        }
        v := v + 1;
      }
      i := 0;
    }

    method FindOn(v: nat, seqnbr: int) returns (i: nat)
      requires Valid() && v < maxVideo
      ensures i == IndexOf(Queues()[v], seqnbr)
    {
      hide Base, Laid, QueuesOf, Queues;
      ghost var q := Queues()[v];
      var b := Base(v, maxEntries);
      Opened(v);
      i := 0;
      while i < numEntries[v]
        invariant i <= |q| && IndexOf(q, seqnbr) == i + IndexOf(q[i..], seqnbr)
      {
        assert recs[b + i] == Some(q[i]) && q[i..][1..] == q[i + 1..];
        if recs[b + i].value.seqnbr == seqnbr {
          return;
        }
        i := i + 1;
      }
    }

    // add_excluded_from_repeated_recording
    method AddExcludedItem(id: int, number: int)
      modifies `excluded
      ensures excluded == AddExcluded(old(excluded), id, number)
    {
      var i := 0;
      while i < |excluded|
        invariant i <= |excluded| && excluded == old(excluded)
        invariant AddExcluded(excluded, id, number) == excluded[..i] + AddExcluded(excluded[i..], id, number)
      {
        if excluded[i].id == id {
          excluded := excluded[i := Excluded(id, excluded[i].items + [number])];
          return;
        }
        assert excluded[i..][1..] == excluded[i + 1..];
        i := i + 1;
      }
      excluded := excluded + [Excluded(id, [number])];
    }

    // delete_recid
    method DeleteRecId(seqnbr: int, allRecurrences: bool) returns (ok: bool)
      requires Valid()
      modifies this, recs, numEntries
      ensures Valid() && (Contents(), ok) == Delete(old(Contents()), seqnbr, allRecurrences)
    {
      hide Base, Laid, QueuesOf, CardOf, IndexOf, SortByStart, Others, DeleteAt, AddExcluded;
      var v, i := Find(seqnbr);
      if v == maxVideo {
        return false;
      }
      Opened(v);
      var b := Base(v, maxEntries);
      var e := recs[b + i].value;
      assert e == Queues()[v][i];
      if e.recurrence && allRecurrences {
        DeleteSeries(v, e.id);
      } else {
        if e.recurrence {
          AddExcludedItem(e.id, e.number);
        }
        TakeOut(v, i);
      }
      ok := true;
    }

    // The tests of isentryoverlapping for one date.
    method CollidesOnCard(v: nat, x: Span) returns (hit: bool)
      requires Valid() && v < maxVideo
      ensures hit == CollidesWithAny(x, Queues()[v], ongoing[v])
    {
      hide Base, Laid, QueuesOf;
      ghost var q := Queues()[v];
      var b := Base(v, maxEntries);
      Opened(v);
      var i := 0;
      while i < numEntries[v]
        invariant i <= |q| && forall k :: 0 <= k < i ==> !Collides(x, q[k].Time())
      {
        assert recs[b + i] == Some(q[i]);
        var e := recs[b + i].value;
        if (x.start >= e.start && x.start <= e.end) || (x.end >= e.start && x.end <= e.end)
           || (x.start < e.start && x.end > e.end) {
          return true;
        }
        i := i + 1;
      }
      if ongoing[v].Some? {
        var e := ongoing[v].value;
        if (x.start >= e.start && x.start <= e.end) || (x.end >= e.start && x.end <= e.end)
           || (x.start < e.start && x.end > e.end) {
          return true;
        }
      }
      hit := false;
    }

    // The loop of isentryoverlapping over the dates of a series.  Stepping to
    // a date before the epoch ends the program; that can only be the first step.
    method CollidingDate(v: nat, r: Entry) returns (ended: bool, hit: bool)
      requires Valid() && v < maxVideo && r.recurrence
      ensures ended == (0 < r.num && NextEnds(r.rtype, r.Time()) && !CollidesWithAny(r.Time(), Queues()[v], ongoing[v]))
      ensures !ended ==> hit == Overlapping(r, Queues()[v], ongoing[v])
    {
      hide CollidesWithAny, Laid, QueuesOf, Queues, Nth, Next, FromTimestamp;
      ghost var q, o := Queues()[v], ongoing[v];
      var x, cs, ce := r.Time(), FromTimestamp(r.start), FromTimestamp(r.end);
      var j := 0;
      ended := false;
      NthNone(r.rtype, r.Time());
      while j < r.num
        invariant j <= r.num && x == Nth(r.rtype, r.Time(), j) && !ended
        invariant if j == 0 then x == r.Time() else !NextEnds(r.rtype, r.Time()) && (Known(r.rtype) ==> Dated(x))
        invariant cs == FromTimestamp(x.start) && ce == FromTimestamp(x.end)
        invariant forall k: nat :: k < j ==> !CollidesWithAny(Nth(r.rtype, r.Time(), k), q, o)
      {
        hit := CollidesOnCard(v, x);
        if hit {
          return;
        }
        NthOneMore(r.rtype, r.Time(), j);
        if j > 0 && Known(r.rtype) {
          LaterIsDated(r.rtype, x);
        }
        ended, x, cs, ce := NextDates(r.rtype, x, cs, ce);
        if ended {
          return;
        }
        j := j + 1;
      }
      hit := false;
    }

    // isentryoverlapping: the request itself, or every date of its series.
    method IsEntryOverlapping(v: nat, r: Entry) returns (ended: bool, hit: bool)
      requires Valid() && v < maxVideo
      ensures ended == (r.recurrence && 0 < r.num && NextEnds(r.rtype, r.Time())
                        && !CollidesWithAny(r.Time(), Queues()[v], ongoing[v]))
      ensures !ended ==> hit == Overlapping(r, Queues()[v], ongoing[v])
    {
      ended := false;
      if r.recurrence {
        ended, hit := CollidingDate(v, r);
      } else {
        hit := CollidesOnCard(v, r.Time());
      }
    }

    // insertrec; when it does not come back, `ended` is true
    method InsertRec(v: nat, r: Entry, excludes: seq<int>, now: int) returns (ended: bool, outcome: Outcome)
      requires Valid() && v < maxVideo
      modifies this, recs, numEntries
      ensures Valid() && ended == InsertEnds(old(Contents()), v, r, excludes, now)
      ensures !ended ==> (Contents(), outcome) == Insert(old(Contents()), v, r, excludes, now)
    {
      hide Base, Laid, QueuesOf, Overlapping, Unroll, AppendAll, Append, Adjusted;
      hide CollidesWithAny, NextEnds, ExpansionEnds;
      outcome := Refused;
      var hit;
      ended, hit := IsEntryOverlapping(v, r);
      if r.recurrence && 0 < r.num {
        CollidesAtFirst(r, Queues()[v], ongoing[v]);
      }
      if ended || hit {
        return;
      }
      if r.recurrence {
        if numEntries[v] + r.num > maxEntries {
          return;
        }
        if r.num == 0 {
          return true, outcome;
        }
        var ok;
        ended, ok := InsertSeries(v, r, excludes, now);
        if ended {
          return;
        }
        if !ok {
          return false, UnknownRepeat;
        }
        nextId := nextId + 1;
      } else {
        var e := r.(seqnbr := nextSeq);
        nextSeq := nextSeq + 1;
        var stored := InsertEntry(v, e);
        AppendOne(old(Queues())[v], e, maxEntries);
      }
      outcome := Inserted(nextSeq - 1);
    }

    // The loop of insertrec that expands a series into single entries.
    method InsertSeries(v: nat, r: Entry, excludes: seq<int>, now: int) returns (ended: bool, ok: bool)
      requires Valid() && v < maxVideo && r.recurrence && 0 < r.num
      modifies `nextSeq, recs, numEntries
      ensures Valid() && ended == ExpansionEnds(r, excludes, now)
      ensures var es := NewEntries(r, now, old(nextSeq), nextId, excludes);
              !ended ==>
                && Queues() == old(Queues())[v := AppendAll(old(Queues())[v], es, maxEntries)]
                && nextSeq == old(nextSeq) + |es|
                && ok == (Known(r.rtype) || es == [])
    {
      hide Base, Laid, QueuesOf, Append, Next, Adjusted, Valid, Unroll, AppendAll, NextEnds, Queues, AllExcluded;
      var known, x := AdjustInitialRepeatDate(r.rtype, r.Time(), now);
      ghost var first := x;
      var cs, ce := FromTimestamp(x.start), FromTimestamp(x.end);
      hide FromTimestamp;
      ghost var es := Unroll(r, x, 0, nextSeq, nextId, excludes);
      var i := 0;
      ended, ok := false, false;
      NoneExcluded(r, excludes);
      while i < r.num
        invariant i <= r.num && Valid() && !ended
        invariant cs == FromTimestamp(x.start) && ce == FromTimestamp(x.end)
        invariant if AllExcluded(r, i, excludes) then x == first
                  else !NextEnds(r.rtype, first) && known && Dated(x)
        invariant ghost var left := Unroll(r, x, i, nextSeq, nextId, excludes);
                  && (Queues()[v := AppendAll(Queues()[v], left, maxEntries)]
                     == old(Queues())[v := AppendAll(old(Queues())[v], es, maxEntries)])
                  && nextSeq + |left| == old(nextSeq) + |es|
                  && (known || left == es)
      {
        UnrollOne(r, x, i, nextSeq, nextId, excludes);
        OneMoreExcluded(r, i, excludes);
        if !(r.number + i in excludes) {
          ghost var e, rest := Occurrence(r, x, i, nextSeq, nextId), Unroll(r, x, i, nextSeq, nextId, excludes)[1..];
          AppendFirst(Queues()[v], e, rest, maxEntries);
          OneIncluded(r, i, excludes);
          var stored := InsertEntry(v, Occurrence(r, x, i, nextSeq, nextId));
          nextSeq := nextSeq + 1;
          DatedGoesOn(r.rtype, x);
          ended, x, cs, ce := NextDates(r.rtype, x, cs, ce);
          if ended {
            return;
          }
          if !known {
            UnrollNone(r, x, i, nextSeq, nextId, excludes);
            AppendNone(Queues()[v], maxEntries);
            return false, false;
          }
        }
        i := i + 1;
      }
      UnrollNone(r, x, i, nextSeq, nextId, excludes);
      AppendNone(Queues()[v], maxEntries);
      ok := true;
    }

    // One round of chkrec: the head of every queue is begun, given up or left.
    method TickCards(now: int, resolution: int)
      requires Valid()
      modifies recs, numEntries, ongoing
      ensures Valid() && Contents() == Tick(old(Contents()), now, resolution)
    {
      hide Base, Laid, QueuesOf, TickQueue, TickOngoing;
      ghost var qs, os := Queues(), ongoing[..];
      var v := 0;
      while v < maxVideo
        invariant v <= maxVideo && Valid()
        invariant forall w :: 0 <= w < v ==>
                    && Queues()[w] == TickQueue(qs[w], os[w], now, resolution)
                    && ongoing[w] == TickOngoing(qs[w], os[w], now, resolution)
        invariant forall w :: v <= w < maxVideo ==> Queues()[w] == qs[w] && ongoing[w] == os[w]
      {
        TickCard(v, now, resolution);
        v := v + 1;
      }
    }

    method TickCard(v: nat, now: int, resolution: int)
      requires Valid() && v < maxVideo
      modifies recs, numEntries, ongoing
      ensures Valid()
      ensures Queues() == old(Queues())[v := TickQueue(old(Queues())[v], old(ongoing[v]), now, resolution)]
      ensures ongoing[..] == old(ongoing[..])[v := TickOngoing(old(Queues())[v], old(ongoing[v]), now, resolution)]
    {
      hide Base, Laid, QueuesOf, DeleteAt;
      ghost var q := Queues()[v];
      var b := Base(v, maxEntries);
      Opened(v);
      if numEntries[v] > 0 {
        assert recs[b + 0] == Some(q[0]);
        var diff := now - recs[b].value.start;
        if diff > 60 * 10 {
          RemoveTop(v);
        } else if diff >= -resolution && ongoing[v].None? {
          ongoing[v] := recs[b];
          RemoveTop(v);
        }
      }
    }

    // startrec, when the recording is over
    method ReleaseCard(v: nat)
      requires Valid() && v < maxVideo
      modifies ongoing
      ensures Valid() && Contents() == Release(old(Contents()), v)
    {
      ongoing[v] := None;
    }
  }
}
