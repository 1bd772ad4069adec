// The add command (src/tvcmd.c): which requests are accepted, and on which card
// they are put.
module AddCommand {
  import opened Calendar
  import opened Recurrence
  import opened Series
  import opened Schedule
  import opened Scheduler
  import opened Booking
  import opened Effects
  import opened Storage

  // ---------------------------------------------------------------------
  // Acceptance

  // The errors 2 to 5 of the command, and success with the sequence number under
  // which the reply looks the recording up.
  datatype Answer = TooLong | EndBeforeStart | InThePast | NoFreeCard | Added(reply: int)

  const LONGEST := 4 * 60 * 60

  function Add(st: State, r: Entry, card: Option<nat>, now: int): (a: (State, Answer))
    requires WellFormed(st) && (card.Some? ==> card.value < |st.queues|)
    ensures SameCards(a.0, st)
  {
    if r.end - r.start > LONGEST then (st, TooLong)
    else if r.end < r.start then (st, EndBeforeStart)
    else if r.start < now then (st, InThePast)
    else
      var (t, outcome) :=
        if card.Some? then Insert(st, card.value, r, [], now) else InsertFirstFit(st, 0, r, [], now);
      (t, if outcome.Refused? then NoFreeCard else Added(if outcome.Inserted? then outcome.last else 0))
  }

  // Does the command not come back?
  predicate AddEnds(st: State, r: Entry, card: Option<nat>, now: int)
    requires WellFormed(st) && (card.Some? ==> card.value < |st.queues|)
  {
    && 0 <= r.end - r.start <= LONGEST && now <= r.start
    && if card.Some? then InsertEnds(st, card.value, r, [], now) else FirstFitEnds(st, 0, r, [], now)
  }

  // The end of _cmd_add, for a request whose fields have been made out.
  method AddRecording(t: Table, r: Entry, card: Option<nat>, now: int) returns (ended: bool, answer: Answer)
    requires t.Valid() && (card.Some? ==> card.value < t.maxVideo)
    modifies t, t.recs, t.numEntries
    ensures t.Valid() && ended == AddEnds(old(t.Contents()), r, card, now)
    ensures !ended ==> (t.Contents(), answer) == Add(old(t.Contents()), r, card, now)
  {
    hide Laid, QueuesOf, Table.Queues, Insert, InsertFirstFit, InsertEnds, FirstFitEnds;
    ended, answer := false, NoFreeCard;
    if r.end - r.start > 4 * 60 * 60 {
      answer := TooLong;
    } else if r.end < r.start {
      answer := EndBeforeStart;
    } else if r.start < now {
      answer := InThePast;
    } else {
      var outcome;
      if card.Some? {
        ended, outcome := t.InsertRec(card.value, r, [], now);
      } else {
        ended, outcome := FirstCard(t, r, [], now);
      }
      answer := if outcome.Refused? then NoFreeCard else Added(if outcome.Inserted? then outcome.last else 0);
    }
  }

  // The first card that will have the request.
  method FirstCard(t: Table, r: Entry, excludes: seq<int>, now: int) returns (ended: bool, outcome: Outcome)
    requires t.Valid()
    modifies t, t.recs, t.numEntries
    ensures t.Valid() && ended == FirstFitEnds(old(t.Contents()), 0, r, excludes, now)
    ensures !ended ==> (t.Contents(), outcome) == InsertFirstFit(old(t.Contents()), 0, r, excludes, now)
  {
    hide Laid, QueuesOf, Table.Queues, Insert, Refuses, InsertEnds;
    ghost var st := t.Contents();
    ghost var goal := InsertFirstFit(st, 0, r, excludes, now);
    ended, outcome := false, Refused;
    var v := 0;
    while v < t.maxVideo && outcome.Refused?
      invariant v <= t.maxVideo && t.Valid() && !ended
      invariant if outcome.Refused? then
                  && t.Contents() == st && InsertFirstFit(st, v, r, excludes, now) == goal
                  && FirstFitEnds(st, v, r, excludes, now) == FirstFitEnds(st, 0, r, excludes, now)
                else (t.Contents(), outcome) == goal && !FirstFitEnds(st, 0, r, excludes, now)
    {
      ended, outcome := t.InsertRec(v, r, excludes, now);
      if ended {
        return;
      }
      InsertRefusal(st, v, r, excludes, now);
      v := v + 1;
    }
  }

  // Every recording asked for is free on the card, and a series has room.
  ghost predicate FreeOn(st: State, v: nat, r: Entry)
    requires WellFormed(st) && v < |st.queues|
  {
    && (forall n: nat :: n < Count(r) ==> Free(Time(r, n), st.queues[v], st.ongoing[v]))
    && (r.recurrence ==> |st.queues[v]| + r.num <= st.maxEntries)
  }

  lemma RefusalIsExact(st: State, v: nat, r: Entry, now: int)
    requires Booked(st) && v < |st.queues| && Regular(r, now)
    ensures Refuses(st, v, r) <==> !FreeOn(st, v, r)
  {
    hide Regular, CardOk, Overlapping, Free;
    assert CardOk(st.queues[v], st.ongoing[v]);
    RegularIsEven(r, now);
    OverlapTestIsExact(r, st.queues[v], st.ongoing[v]);
  }

  // Without a named card a regular request of at most four hours goes to the
  // lowest-numbered card that is free for all of it; when there is none it is
  // refused, and the schedule is as before.
  lemma TakesLowestFree(st: State, r: Entry, now: int)
    requires Booked(st) && Regular(r, now) && r.end - r.start <= 4 * 3600 && now <= r.start
    ensures var (t, answer) := Add(st, r, None, now);
            if answer.Added? then
              exists v: nat :: v < |st.queues| && FreeOn(st, v, r) && (forall u: nat :: u < v ==> !FreeOn(st, u, r))
                               && t == Insert(st, v, r, [], now).0 && t.queues == st.queues[v := t.queues[v]]
            else answer.NoFreeCard? && t == st && forall v: nat :: v < |st.queues| ==> !FreeOn(st, v, r)
  {
    hide Regular, CardOk, Insert, Refuses, FreeOn;
    assert r.start <= r.end by { RegularIsProper(r, now); }
    forall v: nat | v < |st.queues|
      ensures Refuses(st, v, r) <==> !FreeOn(st, v, r)
    {
      RefusalIsExact(st, v, r, now);
    }
    LowestCard(st, 0, r, [], now);
    var w := CardFor(st, r, 0);
    if w < |st.queues| {
      InsertRefusal(st, w, r, [], now);
      InsertTouchesOne(st, w, r, [], now);
    }
  }

  // Which times are refused with which answer.  Whatever is refused leaves the
  // schedule as it was; whatever is accepted is on one card, the named one or
  // the first that does not refuse it, and touches no other.
  lemma TimesAreChecked(st: State, r: Entry, card: Option<nat>, now: int)
    requires WellFormed(st) && (card.Some? ==> card.value < |st.queues|)
    ensures var (t, answer) := Add(st, r, card, now);
            && (answer.TooLong? <==> r.start + 4 * 3600 < r.end)
            && (answer.EndBeforeStart? <==> r.end < r.start)
            && (answer.InThePast? <==> r.start < now && r.start <= r.end <= r.start + 4 * 3600)
            && (!answer.Added? ==> t == st)
            && (answer.Added? ==>
                exists w: nat :: w < |st.queues| && !Refuses(st, w, r)
                  && (if card.Some? then w == card.value else forall u: nat :: u < w ==> Refuses(st, u, r))
                  && t == Insert(st, w, r, [], now).0 && t.queues == st.queues[w := t.queues[w]]
                  && t.ongoing == st.ongoing && t.excluded == st.excluded)
  {
    hide Insert, Refuses;
    LowestCard(st, 0, r, [], now);
    var w := if card.Some? then card.value else CardFor(st, r, 0);
    if w < |st.queues| {
      InsertRefusal(st, w, r, [], now);
      InsertTouchesOne(st, w, r, [], now);
    }
  }

  // The reply to an accepted request is about its last recording, which is
  // pending then; but for a single recording accepted on a full card.
  lemma ReplyIsLast(st: State, r: Entry, card: Option<nat>, now: int)
    requires Booked(st) && Issued(st) && (card.Some? ==> card.value < |st.queues|) && Regular(r, now)
    ensures var (t, answer) := Add(st, r, card, now);
            answer.Added? ==>
              || (exists w, e :: 0 <= w < |t.queues| && e in t.queues[w]
                    && e.seqnbr == answer.reply && e.Time() == Time(r, Count(r) - 1))
              || (!r.recurrence && t.queues == st.queues)
  {
    hide Insert, Refuses, CardOk, Regular, Issued, Time;
    LowestCard(st, 0, r, [], now);
    var w := if card.Some? then card.value else CardFor(st, r, 0);
    if w < |st.queues| {
      InsertRefusal(st, w, r, [], now);
      if !Refuses(st, w, r) {
        if r.recurrence || |st.queues[w]| < st.maxEntries {
          RoomForAll(st, w, r);
          AnswerIsLastRecording(st, w, r, now);
        } else {
          AcceptedYetLost(st, w, r, [], now);
        }
      }
    }
  }

  lemma RoomForAll(st: State, v: nat, r: Entry)
    requires WellFormed(st) && v < |st.queues| && !Refuses(st, v, r)
    requires r.recurrence || |st.queues[v]| < st.maxEntries
    ensures |st.queues[v]| + Count(r) <= st.maxEntries
  {
    hide Overlapping;
  }

  // What the command lets through is regular, but for the weekday of the first
  // date and, of a monthly series, steps from months of different length, which
  // it does not look at.
  lemma AcceptedIsRegular(st: State, r: Entry, card: Option<nat>, now: int)
    requires WellFormed(st) && (card.Some? ==> card.value < |st.queues|) && Add(st, r, card, now).1.Added?
    requires r.recurrence ==> 1 <= r.rtype <= 9 && 0 < r.num
    ensures Regular(r, now) <==>
              (r.recurrence ==> Admissible(r.rtype, Weekday(r.start)) && Steady(r.rtype, r.Time(), r.num))
  {
    hide Insert, InsertFirstFit, Weekday, Steady, Admissible;
  }

  lemma RegularIsProper(r: Entry, now: int)
    requires Regular(r, now)
    ensures r.start <= r.end
  {
  }
}
