// When the server may switch itself off, and when it must wake up again
// (src/tvshutdown.c, with get_nextsched_rec of src/recs.c).
module Shutdown {
  import opened Schedule
  import opened Scheduler
  import opened Booking

  // ---------------------------------------------------------------------
  // The next recording

  // What get_nextsched_rec reports: its card and start, and the record it
  // hands out with them.
  datatype Upcoming = Upcoming(card: nat, start: int, record: Entry)

  // The first card from v on with anything pending, or the number of cards.
  function FirstBusy(queues: seq<seq<Entry>>, v: nat): (w: nat)
    requires v <= |queues|
    ensures v <= w <= |queues|
    ensures w < |queues| ==> queues[w] != []
    ensures forall u :: v <= u < w ==> queues[u] == []
    decreases |queues| - v
  {
    if v == |queues| || queues[v] != [] then v else FirstBusy(queues, v + 1)
  }

  // Compare with the heads from card v on.  The record is that of the card
  // that was best before.
  function Earliest(queues: seq<seq<Entry>>, v: nat, best: Upcoming): (r: Upcoming)
    requires v <= |queues| && best.card < |queues| && queues[best.card] != []
    ensures r.card < |queues| && queues[r.card] != []
    decreases |queues| - v
  {
    if v == |queues| then best
    else if queues[v] != [] && queues[v][0].start < best.start then
      Earliest(queues, v + 1, Upcoming(v, queues[v][0].start, queues[best.card][0]))
    else Earliest(queues, v + 1, best)
  }

  function NextScheduled(queues: seq<seq<Entry>>): (r: Option<Upcoming>)
    ensures r.Some? ==> r.value.card < |queues| && queues[r.value.card] != []
  {
    var v := FirstBusy(queues, 0);
    if v == |queues| then None
    else Some(Earliest(queues, v + 1, Upcoming(v, queues[v][0].start, queues[v][0])))
  }

  // get_nextsched_rec; `beyond` is what stands in memory behind the counts,
  // which the first loop looks at when every queue is empty.
  method GetNextSched(t: Table, beyond: nat) returns (next: Option<Upcoming>)
    requires t.Valid()
    ensures next == NextScheduled(t.Queues())
  {
    hide Base, Laid, QueuesOf, Earliest;
    var first := FindFirstBusy(t, beyond);
    if first == t.maxVideo {
      return None;
    }
    var e := HeadOf(t, first);
    var best := CompareHeads(t, first + 1, Upcoming(first, e.start, e));
    next := Some(best);
  }

  method FindFirstBusy(t: Table, beyond: nat) returns (first: nat)
    requires t.Valid()
    ensures first == FirstBusy(t.Queues(), 0)
  {
    hide Base, Laid, QueuesOf, Table.Queues;
    first := 0;
    var count := CountAt(t, 0, beyond);
    while count == 0 && first < t.maxVideo
      invariant first <= t.maxVideo && FirstBusy(t.Queues(), 0) == FirstBusy(t.Queues(), first)
      invariant count == if first < t.maxVideo then t.numEntries[first] else beyond
      decreases t.maxVideo - first
    {
      first := first + 1;
      count := CountAt(t, first, beyond);
    }
  }

  method CountAt(t: Table, v: nat, beyond: nat) returns (count: nat)
    requires t.Valid() && v <= t.maxVideo
    ensures count == if v < t.maxVideo then t.numEntries[v] else beyond
  {
    count := if v < t.maxVideo then t.numEntries[v] else beyond;
  }

  method CompareHeads(t: Table, from: nat, start: Upcoming) returns (best: Upcoming)
    requires t.Valid() && from <= t.maxVideo && start.card < t.maxVideo && t.Queues()[start.card] != []
    ensures best == Earliest(t.Queues(), from, start)
  {
    hide Base, Laid, QueuesOf, Table.Queues;
    best := start;
    var v := from;
    while v < t.maxVideo
      invariant v <= t.maxVideo && best.card < t.maxVideo && t.Queues()[best.card] != []
      invariant Earliest(t.Queues(), v, best) == Earliest(t.Queues(), from, start)
    {
      if t.numEntries[v] > 0 {
        var e := HeadOf(t, v);
        if e.start < best.start {
          var record := HeadOf(t, best.card);
          best := Upcoming(v, e.start, record);
        }
      }
      v := v + 1;
    }
  }

  method HeadOf(t: Table, v: nat) returns (e: Entry)
    requires t.Valid() && v < t.maxVideo && 0 < t.numEntries[v]
    ensures e == t.Queues()[v][0]
  {
    hide Base, Laid, QueuesOf;
    t.Opened(v);
    assert t.recs[Base(v, t.maxEntries) + 0] == Some(t.Queues()[v][0]);
    e := t.recs[Base(v, t.maxEntries)].value;
  }

  lemma {:induction false} EarliestIsLeast(queues: seq<seq<Entry>>, v: nat, best: Upcoming)
    requires v <= |queues| && best.card < v && queues[best.card] != [] && best.start == queues[best.card][0].start
    ensures var r := Earliest(queues, v, best);
            && r.start == queues[r.card][0].start <= best.start
            && (forall w :: v <= w < |queues| && queues[w] != [] ==> r.start <= queues[w][0].start)
            && (r == best || (v <= r.card && r.start < best.start && r.record.start > r.start))
            && (r == best <==> forall w :: v <= w < |queues| && queues[w] != [] ==> best.start <= queues[w][0].start)
    decreases |queues| - v
  {
    if v < |queues| {
      if queues[v] != [] && queues[v][0].start < best.start {
        EarliestIsLeast(queues, v + 1, Upcoming(v, queues[v][0].start, queues[best.card][0]));
      } else {
        EarliestIsLeast(queues, v + 1, best);
      }
    }
  }

  // When every queue is in order, no pending recording starts before the one
  // reported; nothing is reported exactly when nothing is pending.
  lemma NextIsEarliest(queues: seq<seq<Entry>>)
    requires forall v :: 0 <= v < |queues| ==> Sorted(queues[v])
    ensures var next := NextScheduled(queues);
            && (next.None? <==> forall v :: 0 <= v < |queues| ==> queues[v] == [])
            && (next.Some? ==>
                  && next.value.start == queues[next.value.card][0].start
                  && forall v, i :: 0 <= v < |queues| && 0 <= i < |queues[v]| ==>
                       next.value.start <= queues[v][i].start)
  {
    var v := FirstBusy(queues, 0);
    if v < |queues| {
      EarliestIsLeast(queues, v + 1, Upcoming(v, queues[v][0].start, queues[v][0]));
      hide Earliest;
      var next := NextScheduled(queues).value;
      forall w, i | 0 <= w < |queues| && 0 <= i < |queues[w]|
        ensures next.start <= queues[w][i].start
      {
        assert Sorted(queues[w]) && next.start <= queues[w][0].start;
      }
    }
  }

  // The record handed out is the one reported exactly when no later card has
  // an earlier head than the first busy card: the card is taken over one step
  // after the record.
  lemma {:induction false} RecordIsReported(queues: seq<seq<Entry>>)
    requires NextScheduled(queues).Some?
    ensures var next, first := NextScheduled(queues).value, FirstBusy(queues, 0);
            next.record == queues[next.card][0]
            <==> forall w :: first < w < |queues| && queues[w] != [] ==> queues[first][0].start <= queues[w][0].start
  {
    hide Earliest;
    var v := FirstBusy(queues, 0);
    EarliestIsLeast(queues, v + 1, Upcoming(v, queues[v][0].start, queues[v][0]));
  }

  // Otherwise it is the head of the card that was best before: the earliest of
  // those on lower cards.
  lemma {:induction false} RecordIsRunnerUp(queues: seq<seq<Entry>>)
    requires NextScheduled(queues).Some?
    ensures var next, first := NextScheduled(queues).value, FirstBusy(queues, 0);
            next.card != first ==>
              exists w :: 0 <= w < next.card && queues[w] != [] && next.record == queues[w][0]
                && forall u :: 0 <= u < next.card && queues[u] != [] ==> queues[w][0].start <= queues[u][0].start
  {
    hide Earliest;
    var v := FirstBusy(queues, 0);
    RunnerUp(queues, v + 1, Upcoming(v, queues[v][0].start, queues[v][0]));
  }

  // So far the best card is the earliest of those before v.
  ghost predicate BestBefore(queues: seq<seq<Entry>>, v: nat, best: Upcoming) {
    && best.card < v <= |queues| && queues[best.card] != [] && best.start == queues[best.card][0].start
    && forall u :: 0 <= u < v && queues[u] != [] ==> best.start <= queues[u][0].start
  }

  lemma {:induction false} RunnerUp(queues: seq<seq<Entry>>, v: nat, best: Upcoming)
    requires BestBefore(queues, v, best)
    ensures var r := Earliest(queues, v, best);
            r == best ||
            (v <= r.card &&
             exists w :: 0 <= w < r.card && queues[w] != [] && r.record == queues[w][0]
               && forall u :: 0 <= u < r.card && queues[u] != [] ==> queues[w][0].start <= queues[u][0].start)
    decreases |queues| - v
  {
    if v < |queues| {
      if queues[v] != [] && queues[v][0].start < best.start {
        var next := Upcoming(v, queues[v][0].start, queues[best.card][0]);
        RunnerUp(queues, v + 1, next);
      } else {
        RunnerUp(queues, v + 1, best);
      }
    }
  }

  // ---------------------------------------------------------------------
  // The decision

  datatype Settings = Settings(enabled: bool, minUptime: int, ignoreUsers: bool, noRecordings: bool,
                               minTime: int, preStartup: int)

  // What check_for_shutdown finds out about the machine, and whether writing
  // the alarm to its clock will succeed.
  datatype Machine = Machine(asRoot: bool, uptime: int, users: nat, lowLoad: bool, transcodings: nat,
                             clockWorks: bool, now: int)

  // `alarm` is the wake-up time the clock is set to, if it is set.
  datatype Decision = Stay | SwitchOff(alarm: Option<int>)

  function Running(os: seq<Option<Entry>>): nat {
    if os == [] then 0 else Running(os[..|os| - 1]) + if os[|os| - 1].Some? then 1 else 0
  }

  // get_num_ongoing_recordings
  method NumOngoing(t: Table) returns (n: nat)
    requires t.Valid()
    ensures n == Running(t.Contents().ongoing)
  {
    hide Base, Laid, QueuesOf, Table.Queues;
    ghost var os := t.Contents().ongoing;
    n := 0;
    var v := 0;
    while v < t.maxVideo
      invariant v <= t.maxVideo && n == Running(os[..v])
    {
      assert os[..v + 1][..v] == os[..v];
      if t.ongoing[v].Some? {
        n := n + 1;
      }
      v := v + 1;
    }
    assert os[..v] == os;
  }

  // It is the number of cards that are recording.
  lemma {:induction false} RunningCards(os: seq<Option<Entry>>)
    ensures Running(os) == |set v | 0 <= v < |os| && os[v].Some?|
    decreases |os|
  {
    if os != [] {
      RunningCards(os[..|os| - 1]);
      OneMoreCard(os, |os| - 1);
    }
  }

  lemma OneMoreCard(os: seq<Option<Entry>>, n: nat)
    requires |os| == n + 1
    ensures |set v | 0 <= v < |os| && os[v].Some?|
         == |set v | 0 <= v < |os[..n]| && os[..n][v].Some?| + if os[n].Some? then 1 else 0
  {
    var busy, before := set v | 0 <= v < |os| && os[v].Some?, set v | 0 <= v < |os[..n]| && os[..n][v].Some?;
    forall v
      ensures v in busy <==> v in before || (v == n && os[n].Some?)
    {
      if 0 <= v < n {
        assert os[..n][v] == os[v];
      }
    }
    assert busy == if os[n].Some? then before + {n} else before;
  }

  lemma {:induction false} NoneRunning(os: seq<Option<Entry>>)
    ensures Running(os) == 0 <==> forall v :: 0 <= v < |os| ==> os[v].None?
    decreases |os|
  {
    if os != [] {
      NoneRunning(os[..|os| - 1]);
      assert forall v :: 0 <= v < |os| - 1 ==> os[..|os| - 1][v] == os[v];
    }
  }

  predicate NothingPending(st: State) {
    forall v :: 0 <= v < |st.queues| ==> st.queues[v] == []
  }

  // The machine is awake long enough, unused and idle.
  predicate Idle(s: Settings, m: Machine) {
    && s.enabled && m.asRoot && s.minUptime <= m.uptime && (s.ignoreUsers || m.users == 0)
    && m.lowLoad && m.transcodings == 0
  }

  // check_for_shutdown, from the queues to the decision.
  method CheckForShutdown(t: Table, s: Settings, m: Machine, beyond: nat) returns (d: Decision)
    requires t.Valid()
    ensures d == Decide(t.Contents(), s, m)
  {
    hide Base, Laid, QueuesOf, NextScheduled;
    if !s.enabled || !m.asRoot || m.uptime < s.minUptime || (!s.ignoreUsers && 0 < m.users) {
      return Stay;
    }
    var next := GetNextSched(t, beyond);
    var start := if next.Some? then next.value.start else 0;
    if !s.noRecordings && (next.None? || start == 0) {
      return Stay;
    }
    if !(start == 0 || start - m.now > s.minTime + s.preStartup) {
      return Stay;
    }
    var running := NumOngoing(t);
    NoneRunning(t.Contents().ongoing);
    if m.lowLoad && m.transcodings == 0 && running == 0 {
      if start > 0 {
        start := start - s.preStartup;
        d := SwitchOff(if m.clockWorks then Some(start) else None);
      } else {
        d := SwitchOff(None);
      }
    } else {
      d := Stay;
    }
  }

  // Is there a next recording, and is it far enough away?
  predicate WorthIt(next: Option<Upcoming>, s: Settings, now: int) {
    if next.None? || next.value.start == 0 then s.noRecordings
    else next.value.start - now > s.minTime + s.preStartup
  }

  function Decide(st: State, s: Settings, m: Machine): Decision {
    var next := NextScheduled(st.queues);
    if !Idle(s, m) || !NothingOngoing(st) || !WorthIt(next, s, m.now) then Stay
    else if next.Some? && next.value.start > 0 && m.clockWorks then SwitchOff(Some(next.value.start - s.preStartup))
    else SwitchOff(None)
  }

  // Every pending recording leaves the server at least the start-up time.
  predicate AwakeForAll(st: State, d: Decision, preStartup: int) {
    NothingPending(st) ||
    (d.SwitchOff? && d.alarm.Some? &&
     forall v, i :: 0 <= v < |st.queues| && 0 <= i < |st.queues[v]| ==>
       d.alarm.value + preStartup <= st.queues[v][i].start)
  }

  predicate AfterEpoch(st: State) {
    forall v, i :: 0 <= v < |st.queues| && 0 <= i < |st.queues[v]| ==> 0 < st.queues[v][i].start
  }

  // Switching off cuts no recording short and stays off for the minimum time.
  // The alarm, if it is set, is the start-up time before a recording; and the
  // server is up again for every pending one exactly when its clock could be set
  // or nothing is pending.
  lemma SwitchOffIsSafe(st: State, s: Settings, m: Machine)
    requires Booked(st) && AfterEpoch(st) && Decide(st, s, m).SwitchOff?
    ensures var d := Decide(st, s, m);
            && NothingOngoing(st)
            && (NothingPending(st) ==> s.noRecordings && d.alarm.None?)
            && (d.alarm.Some? ==> m.now + s.minTime < d.alarm.value)
            && (d.alarm.Some? ==>
                  exists v, i :: 0 <= v < |st.queues| && 0 <= i < |st.queues[v]| &&
                    d.alarm.value + s.preStartup == st.queues[v][i].start)
            && (AwakeForAll(st, d, s.preStartup) <==> NothingPending(st) || m.clockWorks)
  {
    hide NextScheduled, CardOk, NothingOngoing, Idle;
    forall v | 0 <= v < |st.queues|
      ensures Sorted(st.queues[v])
    {
      assert CardOk(st.queues[v], st.ongoing[v]);
      CardIsSorted(st.queues[v], st.ongoing[v]);
    }
    hide Sorted;
    NextIsEarliest(st.queues);
    var next := NextScheduled(st.queues);
    if next.Some? {
      assert st.queues[next.value.card][0].start == next.value.start;
    }
  }

  lemma CardIsSorted(q: seq<Entry>, o: Option<Entry>)
    requires CardOk(q, o)
    ensures Sorted(q)
  {
    SeparatedIsStrict(q);
  }

  // The server stays on exactly when it is in use, records, or has too little
  // time before the earliest recording (or none to wake up for).
  lemma StaysOnOtherwise(st: State, s: Settings, m: Machine)
    requires Booked(st) && AfterEpoch(st)
    ensures Decide(st, s, m).Stay? <==>
              || !s.enabled || !m.asRoot || m.uptime < s.minUptime || (0 < m.users && !s.ignoreUsers)
              || !m.lowLoad || 0 < m.transcodings
              || (exists v :: 0 <= v < |st.ongoing| && st.ongoing[v].Some?)
              || (if NothingPending(st) then !s.noRecordings
                  else exists v, i :: 0 <= v < |st.queues| && 0 <= i < |st.queues[v]|
                         && st.queues[v][i].start <= m.now + s.minTime + s.preStartup)
  {
    hide NextScheduled, CardOk;
    forall v | 0 <= v < |st.queues|
      ensures Sorted(st.queues[v])
    {
      assert CardOk(st.queues[v], st.ongoing[v]);
      CardIsSorted(st.queues[v], st.ongoing[v]);
    }
    hide Sorted;
    NextIsEarliest(st.queues);
    var next := NextScheduled(st.queues);
    if next.Some? {
      assert st.queues[next.value.card][0].start == next.value.start;
    }
  }

  // A recording that starts at the epoch is taken for none: the server switches
  // off without an alarm, if it does so without recordings.
  lemma EpochIsNone(st: State, s: Settings, m: Machine)
    requires NextScheduled(st.queues).Some? && NextScheduled(st.queues).value.start == 0
    ensures Decide(st, s, m)
         == if Decide(st.(queues := []), s, m).Stay? then Stay else SwitchOff(None)
  {
    hide Earliest;
  }
}
