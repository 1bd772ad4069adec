// When the daemon keeps up, no recording is given up as missed.
module Punctual {
  import opened Calendar
  import opened Recurrence
  import opened Series
  import opened Schedule
  import opened Booking
  import opened Ledger

  // The schedule with its clock: the present time, the time of the last tick,
  // and per card when its latest recording was begun.
  datatype Timed = Timed(st: State, now: int, tick: int, since: seq<int>)

  // An operation and when it happens.
  datatype Event = Event(at: int, op: Op)

  // How well the daemon keeps up: ticks at most `gap` apart, a recording let go
  // at most `delay` after the later of its begin and its end.
  datatype Pace = Pace(gap: int, delay: int, resolution: int)

  predicate Brisk(p: Pace) {
    0 <= p.resolution <= p.gap && 0 <= p.delay && p.delay + p.gap <= 600
  }

  function Later(a: int, b: int): int {
    if a < b then b else a
  }

  // Requests are for the future and last at least as long as the daemon may lag.
  predicate Timely(r: Entry, now: int, p: Pace) {
    Regular(r, now) && now <= r.start && p.delay + p.gap <= r.end - r.start
  }

  predicate Keeps(t: Timed, e: Event, p: Pace)
    requires WellFormed(t.st) && |t.since| == |t.st.queues|
  {
    && t.now <= e.at <= t.tick + p.gap
    && (forall v :: 0 <= v < |t.since| && t.st.ongoing[v].Some? ==>
          e.at <= Later(t.since[v], t.st.ongoing[v].value.end) + p.delay)
    && (e.op.Add? ==> e.op.now == e.at && Timely(e.op.request, e.at, p))
    && (e.op.TickAt? ==> e.op.now == e.at)
  }

  function Advance(t: Timed, e: Event, p: Pace): (r: Timed)
    requires WellFormed(t.st) && |t.since| == |t.st.queues|
    ensures WellFormed(r.st) && |r.since| == |r.st.queues|
  {
    Timed(Step(t.st, e.op, p.resolution), e.at, if e.op.TickAt? then e.at else t.tick,
          if e.op.TickAt? then
            seq(|t.since|, v requires 0 <= v < |t.since| =>
              if ActionFor(t.st.queues[v], t.st.ongoing[v], e.at, p.resolution).Begin? then e.at else t.since[v])
          else t.since)
  }

  // Every tick of the run finds the head of every queue overdue by no more than
  // the delay and the gap, and gives none up.
  predicate NothingMissed(t: Timed, es: seq<Event>, p: Pace)
    requires WellFormed(t.st) && |t.since| == |t.st.queues|
    decreases |es|
  {
    es != [] ==>
      && (es[0].op.TickAt? ==> forall v :: 0 <= v < |t.st.queues| ==>
            HeadInTime(t.st.queues[v], t.st.ongoing[v], es[0].op.now, p))
      && NothingMissed(Advance(t, es[0], p), es[1..], p)
  }

  predicate HeadInTime(q: seq<Entry>, o: Option<Entry>, now: int, p: Pace) {
    && (q != [] ==> now - q[0].start <= p.delay + p.gap)
    && !ActionFor(q, o, now, p.resolution).Cancel?
  }

  predicate KeepsUp(t: Timed, es: seq<Event>, p: Pace)
    requires WellFormed(t.st) && |t.since| == |t.st.queues|
    decreases |es|
  {
    es != [] ==> Keeps(t, es[0], p) && KeepsUp(Advance(t, es[0], p), es[1..], p)
  }

  // ---------------------------------------------------------------------
  // The invariant of one card

  // On a free card nothing pending is older than the allowed delay at the last
  // tick; on a busy one everything pending starts after the ongoing end.
  predicate OnTime(q: seq<Entry>, o: Option<Entry>, tick: int, since: int, p: Pace) {
    && (forall i :: 0 <= i < |q| ==> p.delay + p.gap <= q[i].end - q[i].start)
    && (o.None? ==> forall i :: 0 <= i < |q| ==> tick <= q[i].start + p.delay)
    && (o.Some? ==>
      && o.value.start - p.resolution <= since <= tick
      && since <= o.value.end
      && forall i :: 0 <= i < |q| ==> o.value.end < q[i].start)
  }

  predicate AllOnTime(t: Timed, p: Pace) {
    && Booked(t.st)
    && |t.since| == |t.st.queues|
    && t.tick <= t.now
    && forall v :: 0 <= v < |t.since| ==> OnTime(t.st.queues[v], t.st.ongoing[v], t.tick, t.since[v], p)
  }

  lemma OnTimeSubset(q: seq<Entry>, r: seq<Entry>, o: Option<Entry>, tick: int, since: int, p: Pace)
    requires OnTime(q, o, tick, since, p)
    requires forall i :: 0 <= i < |r| ==> r[i] in q
    ensures OnTime(r, o, tick, since, p)
  {
  }

  lemma HeadIsNotMissed(q: seq<Entry>, o: Option<Entry>, tick: int, since: int, at: int, p: Pace)
    requires Brisk(p) && OnTime(q, o, tick, since, p) && q != []
    requires tick <= at <= tick + p.gap
    requires o.Some? ==> at <= Later(since, o.value.end) + p.delay
    ensures at - q[0].start <= p.delay + p.gap
  {
  }

  lemma TickIsInTime(q: seq<Entry>, o: Option<Entry>, tick: int, since: int, at: int, p: Pace)
    requires Brisk(p) && CardOk(q, o) && OnTime(q, o, tick, since, p)
    requires tick <= at <= tick + p.gap
    requires o.Some? ==> at <= Later(since, o.value.end) + p.delay
    ensures HeadInTime(q, o, at, p)
    ensures OnTime(TickQueue(q, o, at, p.resolution), TickOngoing(q, o, at, p.resolution), at,
                   if ActionFor(q, o, at, p.resolution).Begin? then at else since, p)
  {
    hide DeleteAt;
    if q != [] {
      HeadIsNotMissed(q, o, tick, since, at, p);
      if ActionFor(q, o, at, p.resolution).Begin? {
        BeginIsInTime(q, at, p);
      } else {
        SeparatedIsStrict(q);
        hide Separated;
      }
    }
  }

  lemma BeginIsInTime(q: seq<Entry>, at: int, p: Pace)
    requires q != [] && Separated(q) && -p.resolution <= at - q[0].start <= p.delay + p.gap
    requires forall i :: 0 <= i < |q| ==> p.delay + p.gap <= q[i].end - q[i].start
    ensures OnTime(DeleteAt(q, 0), Some(q[0]), at, at, p)
  {
    hide DeleteAt;
    SeparatedIsStrict(q);
    DeleteAtRemoves(q, 0);
    assert q[..0] + q[1..] == q[1..];
    forall i | 0 < i < |q|
      ensures q[0].end < q[i].start
    {
      assert Before(q[0].Time(), q[i].Time());
    }
  }

  lemma FinishIsInTime(q: seq<Entry>, o: Option<Entry>, tick: int, since: int, at: int, p: Pace)
    requires Brisk(p) && OnTime(q, o, tick, since, p) && tick <= at
    requires o.Some? ==> at <= Later(since, o.value.end) + p.delay
    ensures OnTime(q, None, tick, since, p)
  {
  }

  lemma TimelyTimes(r: Entry, now: int, p: Pace, n: nat)
    requires Timely(r, now, p) && n < Count(r)
    ensures var x := Time(r, n); now <= x.start && p.delay + p.gap <= x.end - x.start
  {
    hide Nth, Steady, Admissible, Weekday;
    if r.recurrence {
      SteadyLength(r.rtype, r.Time(), r.num, n);
      NthLater(r.rtype, r.Time(), n);
    }
  }

  lemma TimelyIsRegular(r: Entry, now: int, p: Pace)
    requires Timely(r, now, p)
    ensures Regular(r, now)
  {
  }

  lemma InsertIsInTime(st: State, v: nat, r: Entry, excluded: seq<int>, at: int, tick: int, since: int, p: Pace)
    requires Brisk(p) && Booked(st) && v < |st.queues| && tick <= at && Timely(r, at, p)
    requires OnTime(st.queues[v], st.ongoing[v], tick, since, p)
    ensures OnTime(Insert(st, v, r, excluded, at).0.queues[v], st.ongoing[v], tick, since, p)
  {
    hide CardOk, Timely, Regular, Overlapping, NewEntries, AppendAll, Proper, Time, Count;
    if !Refuses(st, v, r) {
      var q, o := st.queues[v], st.ongoing[v];
      var es := NewEntries(r, at, st.nextSeq, st.nextId, excluded);
      var q' := AppendAll(q, es, st.maxEntries);
      TimelyIsRegular(r, at, p);
      NewEntriesTimes(r, at, st.nextSeq, st.nextId, excluded);
      RegularIsEven(r, at);
      OverlapTestIsExact(r, q, o);
      AppendAllMembers(q, es, st.maxEntries);
      forall i | 0 <= i < |q'|
        ensures p.delay + p.gap <= q'[i].end - q'[i].start
        ensures if o.None? then tick <= q'[i].start + p.delay else o.value.end < q'[i].start
      {
        if q'[i] !in q {
          var k :| 0 <= k < |es| && es[k] == q'[i];
          TimelyTimes(r, at, p, k);
          assert Free(Time(r, k), q, o);
        }
      }
    }
  }

  // ---------------------------------------------------------------------
  // Runs

  lemma AddIsInTime(t: Timed, e: Event, p: Pace)
    requires Brisk(p) && AllOnTime(t, p) && Keeps(t, e, p) && e.op.Add?
    ensures AllOnTime(Advance(t, e, p), p)
  {
    hide CardOk, OnTime, Timely, Insert, InsertFirstFit, Refuses;
    var r, at := e.op.request, e.at;
    TimelyIsRegular(r, at, p);
    StepKeepsBooked(t.st, e.op, p.resolution);
    LowestCard(t.st, 0, r, e.op.excluded, at);
    var w := if e.op.wanted.Some? then e.op.wanted.value else CardFor(t.st, r, 0);
    if w < |t.st.queues| {
      var st := Insert(t.st, w, r, e.op.excluded, at).0;
      InsertTouchesOne(t.st, w, r, e.op.excluded, at);
      InsertIsInTime(t.st, w, r, e.op.excluded, at, t.tick, t.since[w], p);
      forall v | 0 <= v < |t.since|
        ensures OnTime(st.queues[v], st.ongoing[v], t.tick, t.since[v], p)
      {
        assert OnTime(t.st.queues[v], t.st.ongoing[v], t.tick, t.since[v], p);
      }
    }
  }

  lemma RemoveIsInTime(t: Timed, e: Event, p: Pace)
    requires Brisk(p) && AllOnTime(t, p) && Keeps(t, e, p) && e.op.Remove?
    ensures AllOnTime(Advance(t, e, p), p)
  {
    hide CardOk, OnTime, Delete;
    StepKeepsBooked(t.st, e.op, p.resolution);
    var st := Delete(t.st, e.op.seqnbr, e.op.allRecurrences).0;
    DeleteTakesFrom(t.st, e.op.seqnbr, e.op.allRecurrences);
    forall v | 0 <= v < |t.since|
      ensures OnTime(st.queues[v], st.ongoing[v], t.tick, t.since[v], p)
    {
      assert multiset(st.queues[v]) <= multiset(t.st.queues[v]);
      forall i | 0 <= i < |st.queues[v]|
        ensures st.queues[v][i] in t.st.queues[v]
      {
        assert st.queues[v][i] in multiset(st.queues[v]);
      }
      OnTimeSubset(t.st.queues[v], st.queues[v], t.st.ongoing[v], t.tick, t.since[v], p);
    }
  }

  lemma TickingIsInTime(t: Timed, e: Event, p: Pace)
    requires Brisk(p) && AllOnTime(t, p) && Keeps(t, e, p) && e.op.TickAt?
    ensures AllOnTime(Advance(t, e, p), p)
    ensures forall v :: 0 <= v < |t.since| ==> HeadInTime(t.st.queues[v], t.st.ongoing[v], e.op.now, p)
  {
    hide CardOk, OnTime, TickQueue, TickOngoing, ActionFor, HeadInTime;
    StepKeepsBooked(t.st, e.op, p.resolution);
    var u := Advance(t, e, p);
    forall v | 0 <= v < |t.since|
      ensures OnTime(u.st.queues[v], u.st.ongoing[v], u.tick, u.since[v], p)
      ensures HeadInTime(t.st.queues[v], t.st.ongoing[v], e.op.now, p)
    {
      assert CardOk(t.st.queues[v], t.st.ongoing[v]) && OnTime(t.st.queues[v], t.st.ongoing[v], t.tick, t.since[v], p);
      TickIsInTime(t.st.queues[v], t.st.ongoing[v], t.tick, t.since[v], e.at, p);
    }
  }

  lemma FinishingIsInTime(t: Timed, e: Event, p: Pace)
    requires Brisk(p) && AllOnTime(t, p) && Keeps(t, e, p) && e.op.Finish?
    ensures AllOnTime(Advance(t, e, p), p)
  {
    hide CardOk, OnTime;
    StepKeepsBooked(t.st, e.op, p.resolution);
    var v := e.op.card;
    if v < |t.since| {
      assert OnTime(t.st.queues[v], t.st.ongoing[v], t.tick, t.since[v], p);
      FinishIsInTime(t.st.queues[v], t.st.ongoing[v], t.tick, t.since[v], e.at, p);
    }
  }

  lemma {:induction false} RunIsPunctual(t: Timed, es: seq<Event>, p: Pace)
    requires WellFormed(t.st) && |t.since| == |t.st.queues|
    requires Brisk(p) && AllOnTime(t, p) && KeepsUp(t, es, p)
    ensures NothingMissed(t, es, p)
    decreases |es|
  {
    hide AllOnTime, Advance, Keeps, HeadInTime;
    if es != [] {
      var e := es[0];
      match e.op {
        case Add(_, _, _, _) => AddIsInTime(t, e, p);
        case Remove(_, _) => RemoveIsInTime(t, e, p);
        case TickAt(_) => TickingIsInTime(t, e, p);
        case Finish(_) => FinishingIsInTime(t, e, p);
      }
      RunIsPunctual(Advance(t, e, p), es[1..], p);
    }
  }

  // From an empty schedule: when the daemon keeps its pace and requests are
  // timely, no tick ever takes the branch that cancels a recording as missed.
  lemma NeverMissed(cards: nat, maxEntries: nat, started: int, es: seq<Event>, p: Pace)
    requires Brisk(p)
    requires KeepsUp(Timed(Empty(cards, maxEntries), started, started, seq(cards, v => started)), es, p)
    ensures NothingMissed(Timed(Empty(cards, maxEntries), started, started, seq(cards, v => started)), es, p)
  {
    hide KeepsUp, NothingMissed;
    RunIsPunctual(Timed(Empty(cards, maxEntries), started, started, seq(cards, v => started)), es, p);
  }
}
