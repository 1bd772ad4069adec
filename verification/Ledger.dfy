// Where every recording ends up.
module Ledger {
  import opened Recurrence
  import opened Schedule
  import opened Booking

  // The schedule with its history: everything ever given a sequence number, in
  // that order; what was ever begun; and where recordings leave the schedule.
  // `dropped` are single recordings given to a full queue.
  datatype World = World(st: State, issued: seq<Entry>, begun: multiset<Entry>, finished: multiset<Entry>,
                         cancelled: multiset<Entry>, deleted: multiset<Entry>, dropped: multiset<Entry>)

  // How often an entry stands in the queues, or among the ongoing recordings.
  function Pending(queues: seq<seq<Entry>>, e: Entry): nat {
    if queues == [] then 0 else Pending(queues[..|queues| - 1], e) + multiset(queues[|queues| - 1])[e]
  }

  function Held(o: Option<Entry>, e: Entry): nat {
    if o == Some(e) then 1 else 0
  }

  function Ongoing(os: seq<Option<Entry>>, e: Entry): nat {
    if os == [] then 0 else Ongoing(os[..|os| - 1], e) + Held(os[|os| - 1], e)
  }

  // The entry is in as many places as it was issued times.
  predicate Accounted(w: World, e: Entry) {
    && Pending(w.st.queues, e) + Ongoing(w.st.ongoing, e) + w.finished[e] + w.cancelled[e] + w.deleted[e] + w.dropped[e]
       == multiset(w.issued)[e]
    && w.begun[e] == Ongoing(w.st.ongoing, e) + w.finished[e]
  }

  // Every entry is accounted for, and sequence numbers were given out in order.
  ghost predicate Balanced(w: World) {
    && WellFormed(w.st)
    && (forall k :: 0 <= k < |w.issued| ==> w.issued[k].seqnbr == k + 1)
    && w.st.nextSeq == |w.issued| + 1
    && (forall e :: Accounted(w, e))
  }

  // ---------------------------------------------------------------------
  // Steps with their history

  // The heads of the first n queues on which the tick takes the given action.
  function Heads(st: State, n: nat, action: Action, now: int, resolution: int): multiset<Entry>
    requires WellFormed(st) && n <= |st.queues|
  {
    if n == 0 then multiset{}
    else
      Heads(st, n - 1, action, now, resolution) +
      if st.queues[n - 1] != [] && ActionFor(st.queues[n - 1], st.ongoing[n - 1], now, resolution) == action
      then multiset{st.queues[n - 1][0]} else multiset{}
  }

  function Freed(o: Option<Entry>): multiset<Entry> {
    if o.Some? then multiset{o.value} else multiset{}
  }

  function InsertInWorld(w: World, v: nat, r: Entry, excluded: seq<int>, now: int): World
    requires WellFormed(w.st) && v < |w.st.queues|
  {
    var (st, outcome) := Insert(w.st, v, r, excluded, now);
    if outcome.Refused? then w
    else
      var es := NewEntries(r, now, w.st.nextSeq, w.st.nextId, excluded);
      w.(st := st,
         issued := w.issued + es,
         dropped := w.dropped +
                    if !r.recurrence && |w.st.queues[v]| == w.st.maxEntries then multiset(es) else multiset{})
  }

  function StepWorld(w: World, op: Op, resolution: int): (r: World)
    requires WellFormed(w.st)
    ensures WellFormed(r.st)
  {
    match op
    case Add(r, wanted, excluded, now) =>
      var v := if wanted.Some? then wanted.value else CardFor(w.st, r, 0);
      if v < |w.st.queues| then InsertInWorld(w, v, r, excluded, now) else w
    case Remove(seqnbr, allRecurrences) =>
      var st := Delete(w.st, seqnbr, allRecurrences).0;
      var v := CardOf(w.st.queues, seqnbr, 0);
      if v < |w.st.queues| then
        w.(st := st, deleted := w.deleted + (multiset(w.st.queues[v]) - multiset(st.queues[v])))
      else w
    case TickAt(now) =>
      var n := |w.st.queues|;
      w.(st := Tick(w.st, now, resolution),
         begun := w.begun + Heads(w.st, n, Begin, now, resolution),
         cancelled := w.cancelled + Heads(w.st, n, Cancel, now, resolution))
    case Finish(card) =>
      if card < |w.st.queues| then
        w.(st := Release(w.st, card), finished := w.finished + Freed(w.st.ongoing[card]))
      else w
  }

  // The history does not change what the schedule does.
  lemma StepWorldIsStep(w: World, op: Op, resolution: int)
    requires WellFormed(w.st)
    ensures StepWorld(w, op, resolution).st == Step(w.st, op, resolution)
  {
    hide Refuses, DeleteAt, Others, SortByStart, AddExcluded, Tick, Release;
    if op.Add? {
      LowestCard(w.st, 0, op.request, op.excluded, op.now);
    }
  }

  // ---------------------------------------------------------------------
  // Sums over the cards

  lemma {:induction false} PendingUpdate(queues: seq<seq<Entry>>, v: nat, q: seq<Entry>, e: Entry)
    requires v < |queues|
    ensures Pending(queues[v := q], e) == Pending(queues, e) - multiset(queues[v])[e] + multiset(q)[e]
    decreases |queues|
  {
    var n, updated := |queues| - 1, queues[v := q];
    if v < n {
      PendingUpdate(queues[..n], v, q, e);
      assert updated[..n] == queues[..n][v := q];
    } else {
      assert updated[..n] == queues[..n];
    }
  }

  lemma {:induction false} OngoingUpdate(os: seq<Option<Entry>>, v: nat, e: Entry)
    requires v < |os|
    ensures Ongoing(os[v := None], e) == Ongoing(os, e) - Held(os[v], e)
    decreases |os|
  {
    var n, updated := |os| - 1, os[v := None];
    if v < n {
      OngoingUpdate(os[..n], v, e);
      assert updated[..n] == os[..n][v := None];
    } else {
      assert updated[..n] == os[..n];
    }
  }

  lemma {:induction false} AppendAllPermutes(q: seq<Entry>, es: seq<Entry>, maxEntries: nat)
    requires |q| + |es| <= maxEntries
    ensures multiset(AppendAll(q, es, maxEntries)) == multiset(q) + multiset(es)
    decreases |es|
  {
    hide SortByStart;
    if es != [] {
      SortCorrect(q + [es[0]]);
      AppendAllPermutes(Append(q, es[0], maxEntries), es[1..], maxEntries);
      assert es == [es[0]] + es[1..];
    }
  }

  lemma DeleteAtTakesOne(q: seq<Entry>, i: nat)
    requires i < |q|
    ensures multiset(DeleteAt(q, i)) + multiset{q[i]} == multiset(q)
  {
    hide SortByStart;
    MovedLast(q, i);
    SortCorrect(q[i := q[|q| - 1]][..|q| - 1]);
    assert q == q[..i] + [q[i]] + q[i + 1..];
  }

  lemma {:induction false} OthersWithin(q: seq<Entry>, id: int)
    ensures multiset(Others(q, id)) <= multiset(q)
    decreases |q|
  {
    if q != [] {
      OthersWithin(q[1..], id);
      assert q == [q[0]] + q[1..];
    }
  }

  // ---------------------------------------------------------------------
  // Each step keeps the books balanced

  lemma {:induction false} UnrollCount(r: Entry, x: Span, i: nat, seqnbr: int, id: int, excluded: seq<int>)
    requires i <= r.num
    ensures var es := Unroll(r, x, i, seqnbr, id, excluded);
            && |es| <= r.num - i
            && forall k :: 0 <= k < |es| ==> es[k].seqnbr == seqnbr + k
    decreases r.num - i
  {
    hide Next;
    if i < r.num {
      if r.number + i in excluded {
        UnrollCount(r, x, i + 1, seqnbr, id, excluded);
      } else {
        UnrollCount(r, Next(r.rtype, x), i + 1, seqnbr + 1, id, excluded);
      }
    }
  }

  lemma NewEntriesCount(r: Entry, now: int, seqnbr: int, id: int, excluded: seq<int>)
    ensures var es := NewEntries(r, now, seqnbr, id, excluded);
            && |es| <= Count(r)
            && forall k :: 0 <= k < |es| ==> es[k].seqnbr == seqnbr + k
  {
    hide Unroll, Adjusted;
    if r.recurrence {
      UnrollCount(r, Adjusted(r.rtype, r.Time(), now), 0, seqnbr, id, excluded);
    }
  }

  lemma InsertBalances(w: World, v: nat, r: Entry, excluded: seq<int>, now: int)
    requires Balanced(w) && v < |w.st.queues|
    ensures Balanced(InsertInWorld(w, v, r, excluded, now))
  {
    hide Overlapping, NewEntries, AppendAll, Pending, Ongoing;
    if !Refuses(w.st, v, r) {
      var q := w.st.queues[v];
      var es := NewEntries(r, now, w.st.nextSeq, w.st.nextId, excluded);
      NewEntriesCount(r, now, w.st.nextSeq, w.st.nextId, excluded);
      var p := AppendAll(q, es, w.st.maxEntries);
      if |q| + |es| <= w.st.maxEntries {
        AppendAllPermutes(q, es, w.st.maxEntries);
      } else {
        SingleIntoFull(q, r, now, w.st, excluded);
      }
      assert multiset(w.issued + es) == multiset(w.issued) + multiset(es);
      forall e
        ensures Accounted(InsertInWorld(w, v, r, excluded, now), e)
      {
        assert Accounted(w, e);
        PendingUpdate(w.st.queues, v, p, e);
      }
    }
  }

  lemma SingleIntoFull(q: seq<Entry>, r: Entry, now: int, st: State, excluded: seq<int>)
    requires !r.recurrence && |q| >= st.maxEntries
    ensures AppendAll(q, NewEntries(r, now, st.nextSeq, st.nextId, excluded), st.maxEntries) == q
  {
  }

  lemma DeleteTakesFrom(st: State, seqnbr: int, allRecurrences: bool)
    requires WellFormed(st)
    ensures var v, t := CardOf(st.queues, seqnbr, 0), Delete(st, seqnbr, allRecurrences).0;
            if v < |st.queues| then
              t.queues == st.queues[v := t.queues[v]] && multiset(t.queues[v]) <= multiset(st.queues[v])
            else t == st
    ensures Delete(st, seqnbr, allRecurrences).0.ongoing == st.ongoing
    ensures Delete(st, seqnbr, allRecurrences).0.nextSeq == st.nextSeq
  {
    hide DeleteAt, Others, SortByStart, AddExcluded;
    var v := CardOf(st.queues, seqnbr, 0);
    if v < |st.queues| {
      var q := st.queues[v];
      var i := IndexOf(q, seqnbr);
      OthersWithin(q, q[i].id);
      SortCorrect(Others(q, q[i].id));
      DeleteAtTakesOne(q, i);
    }
  }

  lemma DeleteBalances(w: World, seqnbr: int, allRecurrences: bool, resolution: int)
    requires Balanced(w)
    ensures Balanced(StepWorld(w, Remove(seqnbr, allRecurrences), resolution))
  {
    hide Delete, Pending, Ongoing;
    DeleteTakesFrom(w.st, seqnbr, allRecurrences);
    var v, t := CardOf(w.st.queues, seqnbr, 0), Delete(w.st, seqnbr, allRecurrences).0;
    if v < |w.st.queues| {
      forall e
        ensures Accounted(StepWorld(w, Remove(seqnbr, allRecurrences), resolution), e)
      {
        assert Accounted(w, e);
        PendingUpdate(w.st.queues, v, t.queues[v], e);
      }
    }
  }

  lemma TickTakesHead(q: seq<Entry>, o: Option<Entry>, now: int, resolution: int, e: Entry)
    ensures multiset(TickQueue(q, o, now, resolution))[e]
         == multiset(q)[e] - if !ActionFor(q, o, now, resolution).Nothing? && e == q[0] then 1 else 0
    ensures Held(TickOngoing(q, o, now, resolution), e)
         == Held(o, e) + if ActionFor(q, o, now, resolution).Begin? && e == q[0] then 1 else 0
  {
    hide DeleteAt;
    if q != [] {
      DeleteAtTakesOne(q, 0);
      assert multiset(DeleteAt(q, 0))[e] + multiset{q[0]}[e] == multiset(q)[e];
    }
  }

  lemma PrefixSums(queues: seq<seq<Entry>>, os: seq<Option<Entry>>, n: nat, e: Entry)
    requires 0 < n <= |queues| && |os| == |queues|
    ensures Pending(queues[..n], e) == Pending(queues[..n - 1], e) + multiset(queues[n - 1])[e]
    ensures Ongoing(os[..n], e) == Ongoing(os[..n - 1], e) + Held(os[n - 1], e)
  {
    assert queues[..n][..n - 1] == queues[..n - 1];
    assert os[..n][..n - 1] == os[..n - 1];
  }

  lemma {:induction false} TickMovesHeads(st: State, n: nat, now: int, resolution: int, e: Entry)
    requires WellFormed(st) && n <= |st.queues|
    ensures var t := Tick(st, now, resolution);
            && Pending(t.queues[..n], e)
               == Pending(st.queues[..n], e) - Heads(st, n, Begin, now, resolution)[e]
                  - Heads(st, n, Cancel, now, resolution)[e]
            && Ongoing(t.ongoing[..n], e) == Ongoing(st.ongoing[..n], e) + Heads(st, n, Begin, now, resolution)[e]
    decreases n
  {
    hide TickQueue, TickOngoing, Held, ActionFor, Pending, Ongoing;
    var t := Tick(st, now, resolution);
    if n == 0 {
      NothingInNone(t.queues, t.ongoing, e);
      NothingInNone(st.queues, st.ongoing, e);
    } else {
      var m := n - 1;
      TickMovesHeads(st, m, now, resolution, e);
      PrefixSums(t.queues, t.ongoing, n, e);
      PrefixSums(st.queues, st.ongoing, n, e);
      TickTakesHead(st.queues[m], st.ongoing[m], now, resolution, e);
      NoActionOnEmpty(st.queues[m], st.ongoing[m], now, resolution);
    }
  }

  lemma NothingInNone(queues: seq<seq<Entry>>, os: seq<Option<Entry>>, e: Entry)
    ensures Pending(queues[..0], e) == 0 && Ongoing(os[..0], e) == 0
  {
  }

  lemma NoActionOnEmpty(q: seq<Entry>, o: Option<Entry>, now: int, resolution: int)
    ensures q == [] ==> ActionFor(q, o, now, resolution).Nothing?
  {
  }

  lemma TickBalances(w: World, now: int, resolution: int)
    requires Balanced(w)
    ensures Balanced(StepWorld(w, TickAt(now), resolution))
  {
    hide Heads, Pending, Ongoing, TickQueue, TickOngoing;
    var n, t := |w.st.queues|, Tick(w.st, now, resolution);
    assert t.queues[..n] == t.queues && t.ongoing[..n] == t.ongoing;
    assert w.st.queues[..n] == w.st.queues && w.st.ongoing[..n] == w.st.ongoing;
    forall e
      ensures Accounted(StepWorld(w, TickAt(now), resolution), e)
    {
      assert Accounted(w, e);
      TickMovesHeads(w.st, n, now, resolution, e);
    }
  }

  lemma FinishBalances(w: World, card: nat, resolution: int)
    requires Balanced(w) && card < |w.st.queues|
    ensures Balanced(StepWorld(w, Finish(card), resolution))
  {
    hide Pending, Ongoing;
    forall e
      ensures Accounted(StepWorld(w, Finish(card), resolution), e)
    {
      assert Accounted(w, e);
      OngoingUpdate(w.st.ongoing, card, e);
    }
  }

  lemma StepBalances(w: World, op: Op, resolution: int)
    requires Balanced(w)
    ensures Balanced(StepWorld(w, op, resolution))
  {
    hide InsertInWorld, Refuses, Delete, Tick, Accounted;
    match op
    case Add(r, wanted, excluded, now) =>
      var v := if wanted.Some? then wanted.value else CardFor(w.st, r, 0);
      if v < |w.st.queues| {
        InsertBalances(w, v, r, excluded, now);
      }
    case Remove(seqnbr, allRecurrences) => DeleteBalances(w, seqnbr, allRecurrences, resolution);
    case TickAt(now) => TickBalances(w, now, resolution);
    case Finish(card) =>
      if card < |w.st.queues| {
        FinishBalances(w, card, resolution);
      }
  }

  function NewWorld(cards: nat, maxEntries: nat): World {
    World(Empty(cards, maxEntries), [], multiset{}, multiset{}, multiset{}, multiset{}, multiset{})
  }

  function RunWorld(w: World, ops: seq<Op>, resolution: int): (r: World)
    requires WellFormed(w.st)
    ensures WellFormed(r.st)
    decreases |ops|
  {
    if ops == [] then w else RunWorld(StepWorld(w, ops[0], resolution), ops[1..], resolution)
  }

  lemma {:induction false} EmptyHoldsNothing(cards: nat, maxEntries: nat, e: Entry)
    ensures Pending(Empty(cards, maxEntries).queues, e) == 0
    ensures Ongoing(Empty(cards, maxEntries).ongoing, e) == 0
    decreases cards
  {
    if cards > 0 {
      EmptyHoldsNothing(cards - 1, maxEntries, e);
      assert Empty(cards, maxEntries).queues[..cards - 1] == Empty(cards - 1, maxEntries).queues;
      assert Empty(cards, maxEntries).ongoing[..cards - 1] == Empty(cards - 1, maxEntries).ongoing;
    }
  }

  lemma {:induction false} RunBalances(w: World, ops: seq<Op>, resolution: int)
    requires Balanced(w)
    ensures Balanced(RunWorld(w, ops, resolution))
    decreases |ops|
  {
    hide Accounted, StepWorld;
    if ops != [] {
      StepBalances(w, ops[0], resolution);
      RunBalances(StepWorld(w, ops[0], resolution), ops[1..], resolution);
    }
  }

  lemma {:induction false} OnceEach(es: seq<Entry>, e: Entry)
    requires forall i, j :: 0 <= i < j < |es| ==> es[i].seqnbr < es[j].seqnbr
    ensures multiset(es)[e] == if e in es then 1 else 0
    decreases |es|
  {
    if es != [] {
      var n := |es| - 1;
      assert es == es[..n] + [es[n]];
      OnceEach(es[..n], e);
    }
  }

  // Of any run, whatever its requests: an entry that was given a sequence
  // number is in exactly one of the six places, once; nothing else is in any;
  // and no entry is begun twice.
  lemma Conservation(cards: nat, maxEntries: nat, ops: seq<Op>, resolution: int, e: Entry)
    ensures var w := RunWorld(NewWorld(cards, maxEntries), ops, resolution);
            && Pending(w.st.queues, e) + Ongoing(w.st.ongoing, e) + w.finished[e]
               + w.cancelled[e] + w.deleted[e] + w.dropped[e] == (if e in w.issued then 1 else 0)
            && (forall i, j :: 0 <= i < j < |w.issued| ==> w.issued[i].seqnbr < w.issued[j].seqnbr)
            && w.begun[e] == Ongoing(w.st.ongoing, e) + w.finished[e] <= 1
  {
    hide RunWorld, Pending, Ongoing;
    var start := NewWorld(cards, maxEntries);
    forall x
      ensures Accounted(start, x)
    {
      EmptyHoldsNothing(cards, maxEntries, x);
    }
    RunBalances(start, ops, resolution);
    var w := RunWorld(start, ops, resolution);
    assert Accounted(w, e);
    OnceEach(w.issued, e);
  }
}
