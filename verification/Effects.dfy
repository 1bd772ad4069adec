// What the operations do and answer, told by times and sequence numbers alone.
module Effects {
  import opened Recurrence
  import opened Series
  import opened Schedule
  import opened Booking
  import opened Ledger
  import opened Episodes

  // ---------------------------------------------------------------------
  // The tick

  lemma TickOnCard(q: seq<Entry>, o: Option<Entry>, now: int, resolution: int)
    requires StrictlySorted(q)
    ensures TickQueue(q, o, now, resolution)
         == if q != [] && (q[0].start + 600 < now || (o.None? && q[0].start <= now + resolution)) then q[1..] else q
    ensures TickOngoing(q, o, now, resolution)
         == if q != [] && o.None? && q[0].start <= now + resolution && now <= q[0].start + 600 then Some(q[0]) else o
  {
    hide DeleteAt;
    if q != [] {
      DeleteAtRemoves(q, 0);
      assert q[..0] + q[1..] == q[1..];
    }
  }

  lemma TickAtCard(st: State, v: nat, now: int, resolution: int)
    requires Booked(st) && v < |st.queues|
    ensures var q, o, t := st.queues[v], st.ongoing[v], Tick(st, now, resolution);
            && StrictlySorted(q)
            && (forall e :: e in q ==> o != Some(e))
            && t.queues[v]
               == (if q != [] && (q[0].start + 600 < now || (o.None? && q[0].start <= now + resolution)) then q[1..]
                   else q)
            && t.ongoing[v]
               == (if q != [] && o.None? && q[0].start <= now + resolution && now <= q[0].start + 600 then Some(q[0])
                   else o)
  {
    hide TickQueue, TickOngoing, Separated;
    assert CardOk(st.queues[v], st.ongoing[v]);
    SeparatedIsStrict(st.queues[v]);
    TickOnCard(st.queues[v], st.ongoing[v], now, resolution);
  }

  // A card that is free after a tick has nothing pending that is due, unless it
  // was busy giving up an overdue one.
  lemma NothingDueIsLeft(st: State, v: nat, now: int, resolution: int)
    requires Booked(st) && v < |st.queues| && 0 <= resolution
    requires st.queues[v] != [] ==> now <= st.queues[v][0].start + 600
    ensures var t := Tick(st, now, resolution);
            t.ongoing[v].None? ==> forall e :: e in t.queues[v] ==> now + resolution < e.start
  {
    hide Tick;
    TickAtCard(st, v, now, resolution);
  }

  // A recording is given up exactly when it is the head of its queue and more
  // than ten minutes late.
  lemma GivenUpExactly(st: State, v: nat, now: int, resolution: int, e: Entry)
    requires Booked(st) && v < |st.queues| && e in st.queues[v]
    ensures var q, t := st.queues[v], Tick(st, now, resolution);
            e !in t.queues[v] && t.ongoing[v] != Some(e) <==> e == q[0] && e.start + 600 < now
  {
    hide Tick;
    TickAtCard(st, v, now, resolution);
    TailMembers(st.queues[v], e);
  }

  lemma TailMembers(q: seq<Entry>, e: Entry)
    requires StrictlySorted(q) && q != []
    ensures e in q[1..] <==> e in q && e != q[0]
  {
    assert q == [q[0]] + q[1..];
  }

  // It is begun exactly when it is the head of the queue of a free card, due
  // within the resolution and not more than ten minutes late.  A card that is
  // busy stays so, and nothing else comes or goes.
  lemma BegunExactly(st: State, v: nat, now: int, resolution: int, e: Entry)
    requires Booked(st) && v < |st.queues|
    ensures var q, o, t := st.queues[v], st.ongoing[v], Tick(st, now, resolution);
            && (e in q ==>
                 (t.ongoing[v] == Some(e)
                  <==> o.None? && e == q[0] && e.start <= now + resolution && now <= e.start + 600))
            && (t.ongoing[v] == o || (o.None? && q != [] && t.ongoing[v] == Some(q[0])))
            && (e in t.queues[v] ==> e in q && t.ongoing[v] != Some(e))
  {
    hide Tick;
    TickAtCard(st, v, now, resolution);
    if st.queues[v] != [] {
      TailMembers(st.queues[v], e);
    }
  }

  // ---------------------------------------------------------------------
  // The answer of insertrec

  // Sequence numbers yet to be given out are higher than any in the queues.
  ghost predicate Issued(st: State) {
    forall v, e :: 0 <= v < |st.queues| && e in st.queues[v] ==> e.seqnbr < st.nextSeq
  }

  // Whatever is accepted, the answer is the number given out last.
  lemma AnswerIsLastNumber(st: State, v: nat, r: Entry, excluded: seq<int>, now: int)
    requires WellFormed(st) && v < |st.queues|
    ensures var (t, outcome) := Insert(st, v, r, excluded, now); outcome.Inserted? ==> outcome.last == t.nextSeq - 1
  {
    hide Refuses, NewEntries, AppendAll;
  }

  // The answer to a regular request accepted with room is the number of its last
  // recording, which is pending on the card; none pending has a higher one.
  lemma AnswerIsLastRecording(st: State, v: nat, r: Entry, now: int)
    requires Booked(st) && Issued(st) && v < |st.queues| && Regular(r, now)
    requires !Refuses(st, v, r) && |st.queues[v]| + Count(r) <= st.maxEntries
    ensures var (t, outcome) := Insert(st, v, r, [], now);
            && outcome.Inserted?
            && (exists e :: e in t.queues[v] && e.seqnbr == outcome.last && e.Time() == Time(r, Count(r) - 1))
            && (forall w, e :: 0 <= w < |t.queues| && e in t.queues[w] ==> e.seqnbr <= outcome.last)
  {
    hide CardOk, Regular, Refuses, NewEntries, AppendAll, Time;
    var es := NewEntries(r, now, st.nextSeq, st.nextId, []);
    var t := Insert(st, v, r, [], now).0;
    AllAreMade(r, now, st.nextSeq, st.nextId);
    RegularIsNotEmpty(r, now);
    JoinedByAppendAll(st.queues[v], es, st.maxEntries);
    AcceptedAnswer(st, v, r, now);
    var last := es[|es| - 1];
    assert last in t.queues[v] && last.seqnbr == st.nextSeq + |es| - 1 && last.Time() == Time(r, Count(r) - 1);
    forall w, e | 0 <= w < |t.queues| && e in t.queues[w]
      ensures e.seqnbr <= st.nextSeq + |es| - 1
    {
      if w != v {
        assert e in st.queues[w];
      }
    }
  }

  lemma RegularIsNotEmpty(r: Entry, now: int)
    requires Regular(r, now)
    ensures 0 < Count(r) && (r.recurrence ==> Known(r.rtype))
  {
  }

  lemma AcceptedAnswer(st: State, v: nat, r: Entry, now: int)
    requires WellFormed(st) && v < |st.queues| && !Refuses(st, v, r) && (r.recurrence ==> Known(r.rtype))
    ensures var es := NewEntries(r, now, st.nextSeq, st.nextId, []);
            var (t, outcome) := Insert(st, v, r, [], now);
            && outcome == Inserted(st.nextSeq + |es| - 1)
            && t.queues == st.queues[v := AppendAll(st.queues[v], es, st.maxEntries)]
  {
    hide Refuses, NewEntries, AppendAll;
  }

  // A request without excluded numbers makes all that it asks for.
  lemma AllAreMade(r: Entry, now: int, seqnbr: int, id: int)
    requires Regular(r, now)
    ensures var es := NewEntries(r, now, seqnbr, id, []);
            && |es| == Count(r)
            && forall k :: 0 <= k < |es| ==> es[k].Time() == Time(r, k) && es[k].seqnbr == seqnbr + k
  {
    hide Unroll, Nth, Adjusted, Steady, Admissible;
    NewEntriesTimes(r, now, seqnbr, id, []);
    if r.recurrence {
      UnrollPlain(r, Adjusted(r.rtype, r.Time(), now), 0, seqnbr, id, []);
    }
  }

  // A series of a type that the step does not know is answered so exactly when
  // it has a number that is not excluded; its first entry is stored then, and
  // its id is given to the next series again.
  lemma UnknownTypeIsTold(st: State, v: nat, r: Entry, excluded: seq<int>, now: int)
    requires WellFormed(st) && v < |st.queues|
    ensures var (t, outcome) := Insert(st, v, r, excluded, now);
            && (outcome.UnknownRepeat? <==>
                 && !Refuses(st, v, r) && r.recurrence && !(0 <= r.rtype <= 9)
                 && exists n :: r.number <= n < r.number + r.num && n !in excluded)
            && (outcome.UnknownRepeat? ==> t.nextId == st.nextId && t.nextSeq == st.nextSeq + 1)
  {
    hide Refuses, AppendAll, Adjusted, Unroll;
    if r.recurrence {
      SomeUnrolled(r, Adjusted(r.rtype, r.Time(), now), 0, st.nextSeq, st.nextId, excluded);
    }
  }

  lemma {:induction false} SomeUnrolled(r: Entry, x: Span, i: nat, seqnbr: int, id: int, excluded: seq<int>)
    requires i <= r.num
    ensures Unroll(r, x, i, seqnbr, id, excluded) != []
       <==> exists n :: r.number + i <= n < r.number + r.num && n !in excluded
    ensures !Known(r.rtype) ==> |Unroll(r, x, i, seqnbr, id, excluded)| <= 1
    decreases r.num - i
  {
    hide Next;
    if i < r.num && r.number + i in excluded {
      SomeUnrolled(r, x, i + 1, seqnbr, id, excluded);
    }
  }

  // ---------------------------------------------------------------------
  // Numbers in any run

  lemma {:induction false} RunWorldIsRun(w: World, ops: seq<Op>, resolution: int)
    requires WellFormed(w.st)
    ensures RunWorld(w, ops, resolution).st == Run(w.st, ops, resolution)
    decreases |ops|
  {
    hide StepWorld, Step;
    if ops != [] {
      StepWorldIsStep(w, ops[0], resolution);
      RunWorldIsRun(StepWorld(w, ops[0], resolution), ops[1..], resolution);
    }
  }

  lemma {:induction false} OnACard(queues: seq<seq<Entry>>, v: nat, e: Entry)
    requires v < |queues| && e in queues[v]
    ensures 0 < Pending(queues, e)
    decreases |queues|
  {
    var n := |queues| - 1;
    if v < n {
      OnACard(queues[..n], v, e);
    } else {
      assert e in multiset(queues[n]);
    }
  }

  lemma NumbersInRun(cards: nat, maxEntries: nat, ops: seq<Op>, resolution: int)
    ensures Issued(Run(Empty(cards, maxEntries), ops, resolution))
  {
    hide RunWorld, Run, Pending, Ongoing, Accounted;
    var start := NewWorld(cards, maxEntries);
    forall x
      ensures Accounted(start, x)
    {
      NothingYet(cards, maxEntries, x);
    }
    RunBalances(start, ops, resolution);
    RunWorldIsRun(start, ops, resolution);
    var w := RunWorld(start, ops, resolution);
    forall v, e | 0 <= v < |w.st.queues| && e in w.st.queues[v]
      ensures e.seqnbr < w.st.nextSeq
    {
      OnACard(w.st.queues, v, e);
      IsIssued(w, e);
      var k :| 0 <= k < |w.issued| && w.issued[k] == e;
    }
  }

  lemma NothingYet(cards: nat, maxEntries: nat, e: Entry)
    ensures Accounted(NewWorld(cards, maxEntries), e)
  {
    EmptyHoldsNothing(cards, maxEntries, e);
  }

  lemma IsIssued(w: World, e: Entry)
    requires Accounted(w, e) && 0 < Pending(w.st.queues, e)
    ensures e in w.issued
  {
    assert e in multiset(w.issued);
  }

  // So after any run of regular requests, ticks, deletions and endings the
  // answer to a further one is the number of its last recording.
  lemma AnswerAfterRun(cards: nat, maxEntries: nat, ops: seq<Op>, resolution: int, v: nat, r: Entry, now: int)
    requires forall k :: 0 <= k < |ops| ==> RegularOp(ops[k])
    requires v < cards && Regular(r, now)
    ensures var st := Run(Empty(cards, maxEntries), ops, resolution);
            var (t, outcome) := Insert(st, v, r, [], now);
            !Refuses(st, v, r) && |st.queues[v]| + Count(r) <= maxEntries ==>
              && outcome.Inserted?
              && (exists e :: e in t.queues[v] && e.seqnbr == outcome.last && e.Time() == Time(r, Count(r) - 1))
              && (forall w, e :: 0 <= w < |t.queues| && e in t.queues[w] ==> e.seqnbr <= outcome.last)
  {
    hide Run, RegularOp, Regular, Insert, Refuses, Time, Issued;
    NumbersInRun(cards, maxEntries, ops, resolution);
    RunKeepsBooked(Empty(cards, maxEntries), ops, resolution);
    var st := Run(Empty(cards, maxEntries), ops, resolution);
    if !Refuses(st, v, r) && |st.queues[v]| + Count(r) <= maxEntries {
      AnswerIsLastRecording(st, v, r, now);
    }
  }

  // ---------------------------------------------------------------------
  // The answer of delete_recid

  // It is true exactly when some card has the number; otherwise nothing is
  // changed.
  lemma DeletedExactly(st: State, seqnbr: int, allRecurrences: bool)
    requires WellFormed(st)
    ensures Delete(st, seqnbr, allRecurrences).1
       <==> exists v, i :: 0 <= v < |st.queues| && 0 <= i < |st.queues[v]| && st.queues[v][i].seqnbr == seqnbr
    ensures !Delete(st, seqnbr, allRecurrences).1 ==> Delete(st, seqnbr, allRecurrences).0 == st
  {
    hide DeleteAt, Others, SortByStart, AddExcluded;
    var v := CardOf(st.queues, seqnbr, 0);
    if v < |st.queues| {
      assert st.queues[v][IndexOf(st.queues[v], seqnbr)].seqnbr == seqnbr;
    }
  }

  // ---------------------------------------------------------------------
  // The end of the program

  // A series with a next date before the epoch ends the program exactly when
  // its first date is free on the card.
  lemma EarlyDateEnds(st: State, v: nat, r: Entry, excluded: seq<int>, now: int)
    requires Booked(st) && v < |st.queues| && r.recurrence && 0 < r.num && 0 <= r.rtype <= 9 && r.start <= r.end
    requires Next(r.rtype, r.Time()).start < 0 || Next(r.rtype, r.Time()).end < 0
    ensures InsertEnds(st, v, r, excluded, now) <==> Free(r.Time(), st.queues[v], st.ongoing[v])
  {
    hide Next, Refuses, CardOk, Free, CollidesWithAny;
    assert CardOk(st.queues[v], st.ongoing[v]);
    CollisionTest(r.Time(), st.queues[v], st.ongoing[v]);
  }
}
