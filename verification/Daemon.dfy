// The daemon as a whole: every critical section under recs_mutex is one
// operation on the tables, and a run is the order in which they come.
module Daemon {
  import opened Schedule
  import opened Scheduler
  import opened Booking
  import opened Storage
  import opened AddCommand

  // Does the operation, or one of the run, end the program?
  predicate OpEnds(st: State, op: Op)
    requires WellFormed(st)
  {
    && op.Add?
    && if op.wanted.None? then FirstFitEnds(st, 0, op.request, op.excluded, op.now)
       else op.wanted.value < |st.queues| && InsertEnds(st, op.wanted.value, op.request, op.excluded, op.now)
  }

  predicate RunEnds(st: State, ops: seq<Op>, resolution: int)
    requires WellFormed(st)
    decreases |ops|
  {
    ops != [] && (OpEnds(st, ops[0]) || RunEnds(Step(st, ops[0], resolution), ops[1..], resolution))
  }

  method Perform(t: Table, op: Op, resolution: int) returns (ended: bool)
    requires t.Valid()
    modifies t, t.recs, t.numEntries, t.ongoing
    ensures t.Valid() && ended == OpEnds(old(t.Contents()), op)
    ensures !ended ==> t.Contents() == Step(old(t.Contents()), op, resolution)
  {
    hide Laid, QueuesOf, Table.Queues, Insert, InsertFirstFit, Delete, Tick, Release, InsertEnds, FirstFitEnds;
    ended := false;
    match op {
      case Add(r, wanted, excludes, now) =>
        var outcome;
        if wanted.None? {
          ended, outcome := FirstCard(t, r, excludes, now);
        } else if wanted.value < t.maxVideo {
          ended, outcome := t.InsertRec(wanted.value, r, excludes, now);
        }
      case Remove(seqnbr, allRecurrences) =>
        var ok := t.DeleteRecId(seqnbr, allRecurrences);
      case TickAt(now) =>
        t.TickCards(now, resolution);
      case Finish(card) =>
        if card < t.maxVideo {
          t.ReleaseCard(card);
        }
    }
  }

  // Unless an operation ends the program, the tables after a run are what the
  // run makes of the value they stood for; with regular requests no card is
  // ever booked twice in them.
  method Serve(t: Table, ops: seq<Op>, resolution: int) returns (ended: bool)
    requires t.Valid()
    modifies t, t.recs, t.numEntries, t.ongoing
    ensures t.Valid() && ended == RunEnds(old(t.Contents()), ops, resolution)
    ensures !ended ==> t.Contents() == Run(old(t.Contents()), ops, resolution)
    ensures !ended && Booked(old(t.Contents())) && (forall k :: 0 <= k < |ops| ==> RegularOp(ops[k])) ==>
              Booked(t.Contents())
  {
    hide Laid, QueuesOf, Table.Queues, Table.Contents, OpEnds, Step, Booked, RegularOp;
    ghost var st := t.Contents();
    if Booked(st) && forall k :: 0 <= k < |ops| ==> RegularOp(ops[k]) {
      RunKeepsBooked(st, ops, resolution);
    }
    var k := 0;
    ended := false;
    while k < |ops|
      invariant k <= |ops| && t.Valid() && !ended
      invariant Run(t.Contents(), ops[k..], resolution) == Run(st, ops, resolution)
      invariant RunEnds(t.Contents(), ops[k..], resolution) == RunEnds(st, ops, resolution)
    {
      assert ops[k..][1..] == ops[k + 1..];
      ended := Perform(t, ops[k], resolution);
      if ended {
        return;
      }
      k := k + 1;
    }
  }

  // Regular requests from the epoch on never end the program.
  lemma {:induction false} RegularRunGoesOn(st: State, ops: seq<Op>, resolution: int)
    requires WellFormed(st)
    requires forall k :: 0 <= k < |ops| ==> RegularOp(ops[k]) && (ops[k].Add? ==> 0 <= ops[k].request.start)
    ensures !RunEnds(st, ops, resolution)
    decreases |ops|
  {
    hide Step, InsertEnds, FirstFitEnds;
    if ops != [] {
      var op := ops[0];
      if op.Add? {
        RegularIsDated(op.request, op.now);
        hide RegularOp;
        FirstFitGoesOn(st, 0, op.request, op.excluded, op.now);
        if op.wanted.Some? && op.wanted.value < |st.queues| {
          DatedNeverEnds(st, op.wanted.value, op.request, op.excluded, op.now);
        }
      }
      RegularRunGoesOn(Step(st, op, resolution), ops[1..], resolution);
    }
  }

  lemma RegularIsDated(r: Entry, now: int)
    requires Regular(r, now) && 0 <= r.start
    ensures r.recurrence ==> 0 < r.num && Dated(r.Time())
  {
  }
}
