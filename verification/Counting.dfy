// How often a recording stands in the queues, whatever its sequence number and
// series id: what a reload is to leave as it was.
module Counting {
  import opened Schedule
  import opened Database

  function CountIn(q: seq<Entry>, c: Entry): nat
    decreases |q|
  {
    if q == [] then 0 else (if Content(q[0]) == c then 1 else 0) + CountIn(q[1..], c)
  }

  function CountAll(queues: seq<seq<Entry>>, v: nat, c: Entry): nat
    requires v <= |queues|
    decreases |queues| - v
  {
    if v == |queues| then 0 else CountIn(queues[v], c) + CountAll(queues, v + 1, c)
  }

  function SizeFrom(queues: seq<seq<Entry>>, v: nat): nat
    requires v <= |queues|
    decreases |queues| - v
  {
    if v == |queues| then 0 else |queues[v]| + SizeFrom(queues, v + 1)
  }

  lemma {:induction false} CountConcat(a: seq<Entry>, b: seq<Entry>, c: Entry)
    ensures CountIn(a + b, c) == CountIn(a, c) + CountIn(b, c)
    decreases |a|
  {
    hide Content;
    if a == [] {
      assert a + b == b;
    } else {
      assert (a + b)[1..] == a[1..] + b;
      CountConcat(a[1..], b, c);
    }
  }

  lemma {:induction false} CountInsert(q: seq<Entry>, e: Entry, c: Entry)
    ensures CountIn(InsertByStart(q, e), c) == CountIn(q, c) + CountIn([e], c)
  {
    hide CountIn;
    var k := InsertSplits(q, e);
    CountConcat(q[..k], q[k..], c);
    CountConcat(q[..k], [e], c);
    CountConcat(q[..k] + [e], q[k..], c);
    assert q == q[..k] + q[k..];
  }

  lemma {:induction false} CountSort(q: seq<Entry>, c: Entry)
    ensures CountIn(SortByStart(q), c) == CountIn(q, c)
    decreases |q|
  {
    hide CountIn, InsertByStart;
    if q != [] {
      var n := |q| - 1;
      CountSort(q[..n], c);
      CountInsert(SortByStart(q[..n]), q[n], c);
      CountConcat(q[..n], [q[n]], c);
      assert q == q[..n] + [q[n]];
    }
  }

  lemma {:induction false} CountAppendAll(q: seq<Entry>, es: seq<Entry>, maxEntries: nat, c: Entry)
    requires |q| + |es| <= maxEntries
    ensures CountIn(AppendAll(q, es, maxEntries), c) == CountIn(q, c) + CountIn(es, c)
    ensures |AppendAll(q, es, maxEntries)| == |q| + |es|
    decreases |es|
  {
    hide SortByStart;
    if es != [] {
      var p := Append(q, es[0], maxEntries);
      CountSort(q + [es[0]], c);
      CountConcat(q, [es[0]], c);
      CountAppendAll(p, es[1..], maxEntries, c);
      assert es == [es[0]] + es[1..];
      CountConcat([es[0]], es[1..], c);
    }
  }

  lemma {:induction false} SameContents(a: seq<Entry>, b: seq<Entry>, c: Entry)
    requires |a| == |b| && forall k :: 0 <= k < |a| ==> Content(a[k]) == Content(b[k])
    ensures CountIn(a, c) == CountIn(b, c)
    decreases |a|
  {
    hide Content;
    if a != [] {
      SameContents(a[1..], b[1..], c);
    }
  }

  lemma {:induction false} SumsUpdate(queues: seq<seq<Entry>>, u: nat, v: nat, p: seq<Entry>, c: Entry)
    requires u <= v < |queues|
    ensures CountAll(queues[v := p], u, c) == CountAll(queues, u, c) - CountIn(queues[v], c) + CountIn(p, c)
    ensures SizeFrom(queues[v := p], u) == SizeFrom(queues, u) - |queues[v]| + |p|
    decreases v - u
  {
    hide CountIn;
    if u < v {
      SumsUpdate(queues, u + 1, v, p, c);
    } else {
      SumsAgree(queues, queues[v := p], u + 1, c);
    }
  }

  lemma {:induction false} SumsAgree(a: seq<seq<Entry>>, b: seq<seq<Entry>>, v: nat, c: Entry)
    requires v <= |a| == |b| && forall w :: v <= w < |a| ==> a[w] == b[w]
    ensures CountAll(a, v, c) == CountAll(b, v, c) && SizeFrom(a, v) == SizeFrom(b, v)
    decreases |a| - v
  {
    hide CountIn;
    if v < |a| {
      SumsAgree(a, b, v + 1, c);
    }
  }

  lemma {:induction false} PartOfSize(queues: seq<seq<Entry>>, u: nat, v: nat)
    requires u <= v < |queues|
    ensures |queues[v]| <= SizeFrom(queues, u)
    decreases v - u
  {
    if u < v {
      PartOfSize(queues, u + 1, v);
    }
  }

  // All queues from card v on, one after the other.
  function Joint(queues: seq<seq<Entry>>, v: nat): seq<Entry>
    requires v <= |queues|
    decreases |queues| - v
  {
    if v == |queues| then [] else queues[v] + Joint(queues, v + 1)
  }

  lemma {:induction false} JointCounts(queues: seq<seq<Entry>>, v: nat, c: Entry)
    requires v <= |queues|
    ensures CountIn(Joint(queues, v), c) == CountAll(queues, v, c) && |Joint(queues, v)| == SizeFrom(queues, v)
    decreases |queues| - v
  {
    if v < |queues| {
      JointCounts(queues, v + 1, c);
      CountConcat(queues[v], Joint(queues, v + 1), c);
    }
  }

  // Entries of rising numbers are all different.
  predicate NumbersRise(q: seq<Entry>) {
    && (forall i :: 0 <= i < |q| ==> q[i].recurrence)
    && (forall i, j :: 0 <= i < j < |q| ==> q[i].number < q[j].number)
  }

  ghost predicate HasContent(q: seq<Entry>, c: Entry) {
    exists e :: e in q && Content(e) == c
  }

  lemma {:induction false} CountRising(q: seq<Entry>, c: Entry)
    requires NumbersRise(q)
    ensures CountIn(q, c) == if HasContent(q, c) then 1 else 0
    decreases |q|
  {
    if q != [] {
      CountRising(q[1..], c);
      assert q == [q[0]] + q[1..];
      if Content(q[0]) == c {
        assert q[0] in q;
        assert !HasContent(q[1..], c);
      } else if HasContent(q, c) {
        var e :| e in q && Content(e) == c;
        assert e in q[1..];
      }
    }
  }

  ghost predicate HasNumber(q: seq<Entry>, n: int) {
    exists i :: 0 <= i < |q| && q[i].number == n
  }

  lemma NumbersOfTail(q: seq<Entry>)
    requires q != [] && NumbersRise(q)
    ensures NumbersRise(q[1..]) && HasNumber(q, q[0].number)
    ensures forall n :: HasNumber(q[1..], n) <==> HasNumber(q, n) && q[0].number < n
    ensures forall n :: HasNumber(q, n) ==> q[0].number <= n
  {
    forall n | HasNumber(q, n) && q[0].number < n
      ensures HasNumber(q[1..], n)
    {
      var i :| 0 <= i < |q| && q[i].number == n;
      assert q[1..][i - 1] == q[i];
    }
  }

  // And there is one way only to list them.
  lemma {:induction false} SameNumbers(p: seq<Entry>, q: seq<Entry>)
    requires NumbersRise(p) && NumbersRise(q) && forall n :: HasNumber(p, n) <==> HasNumber(q, n)
    ensures |p| == |q| && forall k :: 0 <= k < |p| ==> p[k].number == q[k].number
    decreases |p|
  {
    hide NumbersRise;
    if p == [] {
      assert q != [] ==> HasNumber(q, q[0].number);
    } else {
      NumbersOfTail(p);
      assert q != [];
      NumbersOfTail(q);
      hide HasNumber;
      SameNumbers(p[1..], q[1..]);
    }
  }

  // ---------------------------------------------------------------------
  // The sum of the starts: what tells that dates have moved

  function StartSum(q: seq<Entry>): int
    decreases |q|
  {
    if q == [] then 0 else q[0].start + StartSum(q[1..])
  }

  lemma {:induction false} SumConcat(a: seq<Entry>, b: seq<Entry>)
    ensures StartSum(a + b) == StartSum(a) + StartSum(b)
    decreases |a|
  {
    if a == [] {
      assert a + b == b;
    } else {
      assert (a + b)[1..] == a[1..] + b;
      SumConcat(a[1..], b);
    }
  }

  lemma {:induction false} NoneLater(a: seq<Entry>, b: seq<Entry>)
    requires |a| == |b| && forall k :: 0 <= k < |a| ==> a[k].start <= b[k].start
    ensures StartSum(a) <= StartSum(b)
    ensures StartSum(a) == StartSum(b) <==> forall k :: 0 <= k < |a| ==> a[k].start == b[k].start
    decreases |a|
  {
    if a != [] {
      NoneLater(a[1..], b[1..]);
      if forall k :: 0 <= k < |a| ==> a[k].start == b[k].start {
        assert forall k :: 0 <= k < |a| - 1 ==> a[1..][k].start == b[1..][k].start;
      } else {
        var k :| 0 <= k < |a| && a[k].start != b[k].start;
        assert k > 0 ==> a[1..][k - 1].start != b[1..][k - 1].start;
      }
    }
  }

  lemma {:induction false} Counted(q: seq<Entry>, c: Entry) returns (i: nat)
    requires CountIn(q, c) > 0
    ensures i < |q| && Content(q[i]) == c
    decreases |q|
  {
    hide Content;
    if Content(q[0]) == c {
      i := 0;
    } else {
      i := Counted(q[1..], c);
      i := i + 1;
    }
  }

  // Lists with the same contents have the same sum.
  lemma {:induction false} SameSum(a: seq<Entry>, b: seq<Entry>)
    requires forall c :: CountIn(a, c) == CountIn(b, c)
    ensures StartSum(a) == StartSum(b)
    decreases |a|
  {
    hide Content;
    if a == [] {
      if b != [] {
        assert CountIn(b, Content(b[0])) > 0;
        assert false;
      }
    } else {
      var e := a[0];
      assert CountIn(a, Content(e)) > 0;
      var i := Counted(b, Content(e));
      var p, r := b[..i], b[i + 1..];
      assert b == p + [b[i]] + r;
      SumConcat(p + [b[i]], r);
      SumConcat(p, [b[i]]);
      SumConcat(p, r);
      assert StartSum([b[i]]) == b[i].start;
      forall c
        ensures CountIn(a[1..], c) == CountIn(p + r, c)
      {
        CountConcat(p + [b[i]], r, c);
        CountConcat(p, [b[i]], c);
        CountConcat(p, r, c);
        assert CountIn([b[i]], c) == if Content(b[i]) == c then 1 else 0;
      }
      SameSum(a[1..], p + r);
      SameStart(e, b[i]);
    }
  }

  lemma SameStart(a: Entry, b: Entry)
    requires Content(a) == Content(b)
    ensures a.start == b.start
  {
  }
}
