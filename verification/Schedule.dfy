// The schedule as a value: what the operations of src/recs.c do to the queues
// of pending recordings, the ongoing recordings and the exclusion table.  The
// class in Scheduler.dfy carries these operations out in place.
module Schedule {
  import opened Recurrence

  datatype Option<+T> = None | Some(value: T)

  // A recording.  `program` stands for the texts an entry carries along
  // unchanged; `num` and `number` are recurrence_num and recurrence_start_number.
  datatype Entry = Entry(seqnbr: int, program: string, start: int, end: int,
                         recurrence: bool, rtype: int, num: nat, id: int, number: int)
  {
    function Time(): Span {
      Span(start, end)
    }

    // The two numbers of an "nn-MM" title: this episode and the last one.
    function Label(): (int, int) {
      (number, num + number - 1)
    }
  }

  // One row of the exclusion table: deleted episodes of a series.
  datatype Excluded = Excluded(id: int, items: seq<int>)

  datatype State = State(maxEntries: nat, queues: seq<seq<Entry>>, ongoing: seq<Option<Entry>>,
                         nextSeq: int, nextId: int, excluded: seq<Excluded>)

  // A state of the same cards, each queue within its bound.
  predicate SameCards(st: State, was: State) {
    WellFormed(st) && st.maxEntries == was.maxEntries && |st.queues| == |was.queues|
  }

  predicate WellFormed(st: State) {
    && |st.ongoing| == |st.queues|
    && forall v :: 0 <= v < |st.queues| ==> |st.queues[v]| <= st.maxEntries
  }

  predicate NothingOngoing(st: State) {
    forall v :: 0 <= v < |st.ongoing| ==> st.ongoing[v].None?
  }

  function Empty(cards: nat, maxEntries: nat): (st: State)
    ensures WellFormed(st)
  {
    State(maxEntries, seq(cards, v => []), seq(cards, v => None), 1, 1, [])
  }

  // ---------------------------------------------------------------------
  // Sorting by start time

  predicate Sorted(q: seq<Entry>) {
    forall i, j :: 0 <= i < j < |q| ==> q[i].start <= q[j].start
  }

  predicate StrictlySorted(q: seq<Entry>) {
    forall i, j :: 0 <= i < j < |q| ==> q[i].start < q[j].start
  }

  // Insert e after the last entry that does not start later.
  function InsertByStart(q: seq<Entry>, e: Entry): (r: seq<Entry>)
    ensures |r| == |q| + 1
  {
    if q == [] || q[|q| - 1].start <= e.start then q + [e]
    else InsertByStart(q[..|q| - 1], e) + [q[|q| - 1]]
  }

  function SortByStart(q: seq<Entry>): (r: seq<Entry>)
    ensures |r| == |q|
  {
    if q == [] then [] else InsertByStart(SortByStart(q[..|q| - 1]), q[|q| - 1])
  }

  lemma {:induction false} InsertSplits(q: seq<Entry>, e: Entry) returns (k: nat)
    ensures k <= |q| && InsertByStart(q, e) == q[..k] + [e] + q[k..]
    ensures k > 0 ==> q[k - 1].start <= e.start
    ensures k < |q| ==> e.start < q[k].start
    decreases |q|
  {
    if q == [] || q[|q| - 1].start <= e.start {
      k := |q|;
    } else {
      k := InsertSplits(q[..|q| - 1], e);
      assert q == q[..|q| - 1] + [q[|q| - 1]];
    }
  }

  lemma InsertSorted(q: seq<Entry>, e: Entry)
    requires Sorted(q)
    ensures Sorted(InsertByStart(q, e))
  {
    var k := InsertSplits(q, e);
  }

  lemma InsertPermutes(q: seq<Entry>, e: Entry)
    ensures multiset(InsertByStart(q, e)) == multiset(q) + multiset{e}
  {
    var k := InsertSplits(q, e);
    assert q == q[..k] + q[k..];
  }

  // The result is sorted and holds the same entries.
  lemma {:induction false} SortCorrect(q: seq<Entry>)
    ensures Sorted(SortByStart(q)) && multiset(SortByStart(q)) == multiset(q)
    decreases |q|
  {
    if q != [] {
      SortCorrect(q[..|q| - 1]);
      InsertSorted(SortByStart(q[..|q| - 1]), q[|q| - 1]);
      InsertPermutes(SortByStart(q[..|q| - 1]), q[|q| - 1]);
      assert q == q[..|q| - 1] + [q[|q| - 1]];
    }
  }

  // With distinct starts there is one sorted order only, so it does not matter
  // which sorting algorithm qsort is.
  lemma {:induction false} SortIsUnique(p: seq<Entry>, q: seq<Entry>)
    requires Sorted(p) && StrictlySorted(q) && multiset(p) == multiset(q)
    ensures p == q
    decreases |p|
  {
    hide Sorted, StrictlySorted;
    assert |multiset(p)| == |p| && |multiset(q)| == |q|;
    if p != [] {
      SameLast(p, q);
      DropLast(p);
      DropLast(q);
      SortIsUnique(p[..|p| - 1], q[..|p| - 1]);
    }
  }

  lemma DropLast(p: seq<Entry>)
    requires p != []
    ensures var n := |p| - 1; p == p[..n] + [p[n]] && multiset(p[..n]) == multiset(p) - multiset{p[n]}
    ensures Sorted(p) ==> Sorted(p[..|p| - 1])
    ensures StrictlySorted(p) ==> StrictlySorted(p[..|p| - 1])
  {
    var n := |p| - 1;
    assert p == p[..n] + [p[n]];
  }

  lemma SameLast(p: seq<Entry>, q: seq<Entry>)
    requires Sorted(p) && StrictlySorted(q) && multiset(p) == multiset(q) && |p| == |q| > 0
    ensures p[|p| - 1] == q[|q| - 1]
  {
    var n := |p| - 1;
    assert p[n] in multiset(q) && q[n] in multiset(p);
    var j :| 0 <= j <= n && q[j] == p[n];
    var i :| 0 <= i <= n && p[i] == q[n];
  }

  lemma SortedIsFixed(q: seq<Entry>)
    requires StrictlySorted(q)
    ensures SortByStart(q) == q
  {
    SortCorrect(q);
    SortIsUnique(SortByStart(q), q);
  }

  // ---------------------------------------------------------------------
  // Collisions

  // The three-way test of isentryoverlapping.
  predicate Collides(x: Span, e: Span) {
    || (e.start <= x.start && x.start <= e.end)
    || (e.start <= x.end && x.end <= e.end)
    || (x.start < e.start && e.end < x.end)
  }

  predicate CollidesWithAny(x: Span, q: seq<Entry>, o: Option<Entry>) {
    || (exists i :: 0 <= i < |q| && Collides(x, q[i].Time()))
    || (o.Some? && Collides(x, o.value.Time()))
  }

  // isentryoverlapping: the single recording, or every occurrence of the series.
  predicate Overlapping(r: Entry, q: seq<Entry>, o: Option<Entry>) {
    if r.recurrence then exists j: nat :: j < r.num && CollidesWithAny(Nth(r.rtype, r.Time(), j), q, o)
    else CollidesWithAny(r.Time(), q, o)
  }

  // ---------------------------------------------------------------------
  // Inserting

  // The i-th entry that insertrec makes from the series r.
  function Occurrence(r: Entry, x: Span, i: nat, seqnbr: int, id: int): Entry
    requires i <= r.num
  {
    Entry(seqnbr, r.program, x.start, x.end, r.recurrence, r.rtype, r.num - i, id, r.number + i)
  }

  // The entries of a series from the i-th on, the next one at x.  An excluded
  // number is passed over without moving the date; a type that increcdays does
  // not know ends the loop after one entry.
  function Unroll(r: Entry, x: Span, i: nat, seqnbr: int, id: int, excluded: seq<int>): seq<Entry>
    requires i <= r.num
    decreases r.num - i
  {
    if i == r.num then []
    else if r.number + i in excluded then Unroll(r, x, i + 1, seqnbr, id, excluded)
    else
      [Occurrence(r, x, i, seqnbr, id)] +
      if Known(r.rtype) then Unroll(r, Next(r.rtype, x), i + 1, seqnbr + 1, id, excluded) else []
  }

  // _insertrec: a full queue silently drops the entry.
  function Append(q: seq<Entry>, e: Entry, maxEntries: nat): (r: seq<Entry>)
    ensures |q| <= maxEntries ==> |r| <= maxEntries
  {
    if |q| >= maxEntries then q else SortByStart(q + [e])
  }

  function AppendAll(q: seq<Entry>, es: seq<Entry>, maxEntries: nat): (r: seq<Entry>)
    ensures |q| <= maxEntries ==> |r| <= maxEntries
    decreases |es|
  {
    if es == [] then q else AppendAll(Append(q, es[0], maxEntries), es[1..], maxEntries)
  }

  // The answers of insertrec: -1, 0 and the last sequence number given out.
  datatype Outcome = Refused | UnknownRepeat | Inserted(last: int)

  // The entries insertrec stores for r, and the new values of its counters.
  function NewEntries(r: Entry, now: int, seqnbr: int, id: int, excluded: seq<int>): seq<Entry> {
    if r.recurrence then Unroll(r, Adjusted(r.rtype, r.Time(), now), 0, seqnbr, id, excluded)
    else [r.(seqnbr := seqnbr)]
  }

  predicate Refuses(st: State, v: nat, r: Entry)
    requires WellFormed(st) && v < |st.queues|
  {
    || Overlapping(r, st.queues[v], st.ongoing[v])
    || (r.recurrence && |st.queues[v]| + r.num > st.maxEntries)
  }

  // insertrec
  function Insert(st: State, v: nat, r: Entry, excluded: seq<int>, now: int): (r': (State, Outcome))
    requires WellFormed(st) && v < |st.queues|
    ensures SameCards(r'.0, st)
  {
    if Refuses(st, v, r) then (st, Refused)
    else
      var es := NewEntries(r, now, st.nextSeq, st.nextId, excluded);
      var stopped := r.recurrence && !Known(r.rtype) && es != [];
      (st.(queues := st.queues[v := AppendAll(st.queues[v], es, st.maxEntries)],
           nextSeq := st.nextSeq + |es|,
           nextId := if r.recurrence && !stopped then st.nextId + 1 else st.nextId),
       if stopped then UnknownRepeat else Inserted(st.nextSeq + |es| - 1))
  }

  // Try the cards from v on until one accepts.
  function InsertFirstFit(st: State, v: nat, r: Entry, excluded: seq<int>, now: int): (r': (State, Outcome))
    requires WellFormed(st) && v <= |st.queues|
    ensures SameCards(r'.0, st)
    decreases |st.queues| - v
  {
    if v == |st.queues| then (st, Refused)
    else if Refuses(st, v, r) then InsertFirstFit(st, v + 1, r, excluded, now)
    else Insert(st, v, r, excluded, now)
  }

  // ---------------------------------------------------------------------
  // Where the program ends

  predicate Dated(x: Span) {
    0 <= x.start && 0 <= x.end
  }

  // increcdays calls exit() when the next date is before the epoch.
  predicate NextEnds(rtype: int, x: Span) {
    Known(rtype) && !Dated(Next(rtype, x))
  }

  // The first n numbers of the series are all excluded.
  predicate AllExcluded(r: Entry, n: nat, excluded: seq<int>) {
    forall m :: r.number <= m < r.number + n ==> m in excluded
  }

  // The expansion loop steps on from its first date unless all are excluded.
  predicate ExpansionEnds(r: Entry, excluded: seq<int>, now: int) {
    NextEnds(r.rtype, Adjusted(r.rtype, r.Time(), now)) && !AllExcluded(r, r.num, excluded)
  }

  // insertrec does not come back: a series has no occurrences, which it asserts
  // against, or a date before the epoch to step to, in the test for collisions
  // or in the expansion.
  predicate InsertEnds(st: State, v: nat, r: Entry, excluded: seq<int>, now: int)
    requires WellFormed(st) && v < |st.queues|
  {
    && r.recurrence
    && if 0 < r.num && NextEnds(r.rtype, r.Time()) then !CollidesWithAny(r.Time(), st.queues[v], st.ongoing[v])
       else !Refuses(st, v, r) && (r.num == 0 || ExpansionEnds(r, excluded, now))
  }

  predicate FirstFitEnds(st: State, v: nat, r: Entry, excluded: seq<int>, now: int)
    requires WellFormed(st) && v <= |st.queues|
    decreases |st.queues| - v
  {
    v < |st.queues| &&
    (InsertEnds(st, v, r, excluded, now) || (Refuses(st, v, r) && FirstFitEnds(st, v + 1, r, excluded, now)))
  }

  lemma LaterIsDated(rtype: int, x: Span)
    requires Dated(x)
    ensures Dated(Next(rtype, x))
  {
    hide StepDays;
  }

  lemma AdjustedIsLater(rtype: int, x: Span, now: int)
    ensures x.start <= Adjusted(rtype, x, now).start && x.end <= Adjusted(rtype, x, now).end
  {
    hide DaysToAdmissible;
  }

  // A series with occurrences, all of them after the epoch, never ends it ...
  lemma DatedNeverEnds(st: State, v: nat, r: Entry, excluded: seq<int>, now: int)
    requires WellFormed(st) && v < |st.queues| && (r.recurrence ==> 0 < r.num && Dated(r.Time()))
    ensures !InsertEnds(st, v, r, excluded, now)
  {
    hide Refuses, Adjusted, Next;
    if r.recurrence {
      LaterIsDated(r.rtype, r.Time());
      AdjustedIsLater(r.rtype, r.Time(), now);
      LaterIsDated(r.rtype, Adjusted(r.rtype, r.Time(), now));
    }
  }

  // ... and one without occurrences always does.
  lemma NoOccurrencesEnd(st: State, v: nat, r: Entry, excluded: seq<int>, now: int)
    requires WellFormed(st) && v < |st.queues| && r.recurrence && r.num == 0
    ensures InsertEnds(st, v, r, excluded, now)
  {
    hide Nth;
  }

  // ---------------------------------------------------------------------
  // Deleting

  // Position of the first entry with this number in q, or |q|.
  function IndexOf(q: seq<Entry>, seqnbr: int): (i: nat)
    ensures i <= |q|
    ensures i < |q| ==> q[i].seqnbr == seqnbr
    ensures forall j :: 0 <= j < i ==> q[j].seqnbr != seqnbr
    decreases |q|
  {
    if q == [] then 0 else if q[0].seqnbr == seqnbr then 0 else IndexOf(q[1..], seqnbr) + 1
  }

  // The first card from v on whose queue has the number, or the number of cards.
  function CardOf(queues: seq<seq<Entry>>, seqnbr: int, v: nat): (w: nat)
    requires v <= |queues|
    ensures v <= w <= |queues|
    ensures w < |queues| ==> IndexOf(queues[w], seqnbr) < |queues[w]|
    ensures forall u :: v <= u < w ==> IndexOf(queues[u], seqnbr) == |queues[u]|
    decreases |queues| - v
  {
    if v == |queues| || IndexOf(queues[v], seqnbr) < |queues[v]| then v else CardOf(queues, seqnbr, v + 1)
  }

  // Move the last entry into slot i, then sort.
  function DeleteAt(q: seq<Entry>, i: nat): (r: seq<Entry>)
    requires i < |q|
    ensures |r| == |q| - 1
  {
    SortByStart(q[i := q[|q| - 1]][..|q| - 1])
  }

  // The entries of q that do not carry the series id.
  function Others(q: seq<Entry>, id: int): (r: seq<Entry>)
    ensures |r| <= |q|
    decreases |q|
  {
    if q == [] then [] else if q[0].id == id then Others(q[1..], id) else [q[0]] + Others(q[1..], id)
  }

  // add_excluded_from_repeated_recording
  function AddExcluded(table: seq<Excluded>, id: int, number: int): seq<Excluded>
    decreases |table|
  {
    if table == [] then [Excluded(id, [number])]
    else if table[0].id == id then [Excluded(id, table[0].items + [number])] + table[1..]
    else [table[0]] + AddExcluded(table[1..], id, number)
  }

  // The deleted numbers of a series, in the order they were deleted.
  function ExcludedItems(table: seq<Excluded>, id: int): seq<int>
    decreases |table|
  {
    if table == [] then [] else if table[0].id == id then table[0].items else ExcludedItems(table[1..], id)
  }

  // delete_recid
  function Delete(st: State, seqnbr: int, allRecurrences: bool): (r: (State, bool))
    requires WellFormed(st)
    ensures SameCards(r.0, st)
  {
    var v := CardOf(st.queues, seqnbr, 0);
    if v == |st.queues| then (st, false)
    else
      var q := st.queues[v];
      var i := IndexOf(q, seqnbr);
      if q[i].recurrence && allRecurrences then
        (st.(queues := st.queues[v := SortByStart(Others(q, q[i].id))]), true)
      else
        (st.(queues := st.queues[v := DeleteAt(q, i)],
             excluded := if q[i].recurrence then AddExcluded(st.excluded, q[i].id, q[i].number) else st.excluded),
         true)
  }

  // ---------------------------------------------------------------------
  // The tick and the end of a recording

  const MISSED := 60 * 10

  // What chkrec does about the head of one queue.
  datatype Action = Nothing | Cancel | Begin

  function ActionFor(q: seq<Entry>, o: Option<Entry>, now: int, resolution: int): Action {
    if q == [] then Nothing
    else if now - q[0].start > MISSED then Cancel
    else if now - q[0].start >= -resolution && o.None? then Begin
    else Nothing
  }

  function TickQueue(q: seq<Entry>, o: Option<Entry>, now: int, resolution: int): seq<Entry> {
    if ActionFor(q, o, now, resolution).Nothing? then q else DeleteAt(q, 0)
  }

  function TickOngoing(q: seq<Entry>, o: Option<Entry>, now: int, resolution: int): Option<Entry> {
    if ActionFor(q, o, now, resolution).Begin? then Some(q[0]) else o
  }

  // One round of chkrec over all cards.
  function Tick(st: State, now: int, resolution: int): (r: State)
    requires WellFormed(st)
    ensures SameCards(r, st)
  {
    st.(queues := seq(|st.queues|, v requires 0 <= v < |st.queues| =>
                    TickQueue(st.queues[v], st.ongoing[v], now, resolution)),
        ongoing := seq(|st.queues|, v requires 0 <= v < |st.queues| =>
                    TickOngoing(st.queues[v], st.ongoing[v], now, resolution)))
  }

  // startrec, at its end: the card is free again.
  function Release(st: State, v: nat): (r: State)
    requires WellFormed(st) && v < |st.queues|
    ensures SameCards(r, st)
  {
    st.(ongoing := st.ongoing[v := None])
  }
}
