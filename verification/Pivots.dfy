/** Pivots: runs of two or more feature elements of a segment that overlap one price range. */
module Pivots {
  import opened Search
  import opened Bars

  /** One leg against the direction of the surrounding segment. */
  datatype Feature = Feature(start: nat, end: nat, low: real, high: real)

  /** What a finished pivot says. */
  datatype Range = Range(start: nat, end: nat, zg: real, zd: real, gg: real, dd: real, sequenceCount: nat)

  // ----- feature elements -----

  /** The feature elements in [start, end): each runs from a signal v to the next signal -v,
      and starts before position last. */
  function Features(duan: seq<int>, low: seq<real>, high: seq<real>, v: int, start: nat, end: nat,
      last: int): (r: seq<Feature>)
    requires end <= |duan| == |low| == |high|
    requires v == 1 || v == -1
    decreases end - start
  {
    var f := NextEq(duan, v, start, end);
    if f == -1 || f >= last then []
    else
      var t := NextEq(duan, -v, f, end);
      if t == -1 then []
      else
        var d, g := if v == -1 then f else t, if v == -1 then t else f;
        [Feature(f, t, low[d], high[g])] + Features(duan, low, high, v, t, end, last)
  }

  /** Elements are in order, apart from each other, and bounded by [from, last]. */
  ghost predicate Ordered(fs: seq<Feature>, from: nat, last: int)
  {
    && (forall k :: 0 <= k < |fs| ==> from <= fs[k].start < fs[k].end <= last)
    && (forall j, k :: 0 <= j < k < |fs| ==> fs[j].end < fs[k].start)
  }

  /** Every element runs from a signal v to a signal -v and ends before position end. */
  ghost predicate Signalled(fs: seq<Feature>, duan: seq<int>, v: int, end: nat)
    requires end <= |duan|
  {
    forall k :: 0 <= k < |fs| ==>
      fs[k].start < end && fs[k].end < end && duan[fs[k].start] == v && duan[fs[k].end] == -v
  }

  /** The first element, and the rest from where it ends. */
  lemma FeaturesUnfold(duan: seq<int>, low: seq<real>, high: seq<real>, v: int, start: nat, end: nat, last: int)
    returns (f: int, t: int)
    requires end <= |duan| == |low| == |high| && (v == 1 || v == -1)
    ensures f == NextEq(duan, v, start, end)
    ensures f == -1 || f >= last ==> Features(duan, low, high, v, start, end, last) == []
    ensures f != -1 && f < last ==> t == NextEq(duan, -v, f, end)
    ensures f != -1 && f < last && t == -1 ==> Features(duan, low, high, v, start, end, last) == []
    ensures f != -1 && f < last && t != -1 ==>
              && f < t && duan[f] == v && duan[t] == -v
              && var d, g := if v == -1 then f else t, if v == -1 then t else f;
              Features(duan, low, high, v, start, end, last) ==
              [Feature(f, t, low[d], high[g])] + Features(duan, low, high, v, t, end, last)
  {
    f := NextEq(duan, v, start, end);
    t := -1;
    if f != -1 && f < last {
      t := NextEq(duan, -v, f, end);
    }
  }

  lemma OrderedCons(x: Feature, rest: seq<Feature>, duan: seq<int>, v: int, start: nat, end: nat, last: int)
    requires end <= |duan| && end <= last + 1 && v != 0
    requires start <= x.start < x.end < end && duan[x.start] == v && duan[x.end] == -v
    requires Ordered(rest, x.end, last) && Signalled(rest, duan, v, end)
    ensures Ordered([x] + rest, start, last) && Signalled([x] + rest, duan, v, end)
  {
    var fs := [x] + rest;
    forall k | 0 <= k < |rest| ensures x.end < rest[k].start {
      assert duan[rest[k].start] == v;
    }
    forall j, k | 0 <= j < k < |fs| ensures fs[j].end < fs[k].start {
      assert fs[k] == rest[k - 1];
      assert j > 0 ==> fs[j] == rest[j - 1];
    }
  }

  /** Elements lie between two positions in order. */
  lemma {:induction false} FeaturesOrdered(duan: seq<int>, low: seq<real>, high: seq<real>, v: int, start: nat,
                                           end: nat, last: int, fs: seq<Feature>)
    requires end <= |duan| == |low| == |high| && (v == 1 || v == -1) && end <= last + 1
    requires fs == Features(duan, low, high, v, start, end, last)
    ensures Ordered(fs, start, last) && Signalled(fs, duan, v, end)
    decreases end - start
  {
    var f, t := FeaturesUnfold(duan, low, high, v, start, end, last);
    if f != -1 && f < last && t != -1 {
      var rest := Features(duan, low, high, v, t, end, last);
      FeaturesOrdered(duan, low, high, v, t, end, last, rest);
      OrderedCons(fs[0], rest, duan, v, start, end, last);
    }
  }

  // ----- pivots, stated from the whole list of elements -----

  predicate Overlaps(f: Feature, p: Range) { f.high >= p.zd && f.low <= p.zg }

  /** The range two consecutive elements span together. */
  function Start(f: Feature, g: Feature): Range
  {
    Range(f.start, g.end, Min(g.high, f.high), Max(g.low, f.low), Max(g.high, f.high), Min(g.low, f.low), 2)
  }

  predicate Joins(f: Feature, g: Feature) { Start(f, g).zg >= Start(f, g).zd }

  /** How many elements from i on, one after another, overlap the pivot. */
  function RunLength(fs: seq<Feature>, i: nat, p: Range): (n: nat)
    requires i <= |fs|
    ensures i + n <= |fs|
    ensures forall k :: i <= k < i + n ==> Overlaps(fs[k], p)
    ensures i + n < |fs| ==> !Overlaps(fs[i + n], p)
    decreases |fs| - i
  {
    if i == |fs| || !Overlaps(fs[i], p) then 0 else 1 + RunLength(fs, i + 1, p)
  }

  /** The pivot that starts with elements i and i+1 and takes in every overlapping element after them. */
  function PivotAt(fs: seq<Feature>, i: nat): Range
    requires i + 2 <= |fs|
  {
    var p := Start(fs[i], fs[i + 1]);
    var n := RunLength(fs, i + 2, p);
    p.(end := fs[i + 1 + n].end, sequenceCount := 2 + n)
  }

  /** The pivots among elements i, i+1, ...: two elements that join start a pivot, which ends before the first
      element that does not overlap it; that element is dropped, as are two elements that do not join. */
  function PivotsFrom(fs: seq<Feature>, i: nat): (r: seq<Range>)
    decreases |fs| - i
  {
    if i + 2 > |fs| then []
    else if !Joins(fs[i], fs[i + 1]) then PivotsFrom(fs, i + 2)
    else [PivotAt(fs, i)] + PivotsFrom(fs, i + 1 + PivotAt(fs, i).sequenceCount)
  }

  /** What a pivot promises about the elements it was built from. */
  ghost predicate Covers(p: Range, fs: seq<Feature>, i: nat)
  {
    && p.sequenceCount >= 2 && i + p.sequenceCount <= |fs|
    && p.dd <= p.zd <= p.zg <= p.gg
    && p.start == fs[i].start && p.end == fs[i + p.sequenceCount - 1].end
    && p.zd == Max(fs[i + 1].low, fs[i].low) && p.zg == Min(fs[i + 1].high, fs[i].high)
    && p.dd == Min(fs[i + 1].low, fs[i].low) && p.gg == Max(fs[i + 1].high, fs[i].high)
    && (forall k :: i <= k < i + p.sequenceCount ==> Overlaps(fs[k], p))
    && (i + p.sequenceCount < |fs| ==> !Overlaps(fs[i + p.sequenceCount], p))
  }

  /** The element a pivot starts with. */
  ghost predicate CoversSome(p: Range, fs: seq<Feature>, from: nat)
  {
    exists i :: from <= i < |fs| && Covers(p, fs, i)
  }

  lemma PivotAtCovers(fs: seq<Feature>, i: nat)
    requires i + 2 <= |fs| && Joins(fs[i], fs[i + 1])
    ensures Covers(PivotAt(fs, i), fs, i)
  {
    var p := Start(fs[i], fs[i + 1]);
    var q := PivotAt(fs, i);
    assert Overlaps(fs[i], p) && Overlaps(fs[i + 1], p);
    forall k | i <= k < i + q.sequenceCount ensures Overlaps(fs[k], q) {
      assert Overlaps(fs[k], p);
    }
  }

  /** Each pivot covers elements from i on, starts no earlier than element i and ends by last;
      pivots are disjoint and in increasing order. */
  ghost predicate InOrder(ps: seq<Range>, fs: seq<Feature>, i: nat, last: int)
  {
    && (forall k :: 0 <= k < |ps| ==> CoversSome(ps[k], fs, i))
    && (forall k :: 0 <= k < |ps| ==> i < |fs| && fs[i].start <= ps[k].start < ps[k].end <= last)
    && (forall j, k :: 0 <= j < k < |ps| ==> ps[j].end < ps[k].start)
  }

  lemma LaterInOrder(ps: seq<Range>, fs: seq<Feature>, i: nat, j: nat, from: nat, last: int)
    requires Ordered(fs, from, last) && i < j && InOrder(ps, fs, j, last)
    ensures InOrder(ps, fs, i, last)
  {
    forall k | 0 <= k < |ps| ensures CoversSome(ps[k], fs, i) && fs[i].start <= ps[k].start {
      assert CoversSome(ps[k], fs, j);
      assert fs[i].start < fs[i].end < fs[j].start;
    }
  }

  lemma PrependInOrder(p: Range, ps: seq<Range>, fs: seq<Feature>, i: nat, from: nat, last: int, r: seq<Range>)
    requires Ordered(fs, from, last) && i + 2 <= |fs| && Covers(p, fs, i)
    requires InOrder(ps, fs, i + p.sequenceCount + 1, last) && r == [p] + ps
    ensures InOrder(r, fs, i, last)
  {
    hide InOrder;
    var e := i + p.sequenceCount;
    assert CoversSome(p, fs, i);
    assert fs[i].start < fs[i].end && fs[i].end < fs[e - 1].start && fs[e - 1].start < fs[e - 1].end;
    hide Covers, CoversSome;
    AllAfter(p, ps, fs, e, from, last);
    LaterInOrder(ps, fs, i, e + 1, from, last);
    ConsInOrder(p, ps, fs, i, last, r);
  }

  /** What starts behind element e comes after a pivot that ends with the element before it. */
  lemma AllAfter(p: Range, ps: seq<Range>, fs: seq<Feature>, e: nat, from: nat, last: int)
    requires Ordered(fs, from, last) && 0 < e <= |fs| && p.end == fs[e - 1].end && InOrder(ps, fs, e + 1, last)
    ensures forall k :: 0 <= k < |ps| ==> p.end < ps[k].start
  {
    hide CoversSome;
    forall k | 0 <= k < |ps| ensures p.end < ps[k].start {
      assert ps[k].start < ps[k].end;
      assert e + 1 < |fs| && fs[e + 1].start <= ps[k].start;
      assert fs[e - 1].end < fs[e + 1].start;
    }
  }

  lemma ConsInOrder(p: Range, ps: seq<Range>, fs: seq<Feature>, i: nat, last: int, r: seq<Range>)
    requires InOrder(ps, fs, i, last) && CoversSome(p, fs, i) && i < |fs| && fs[i].start <= p.start < p.end <= last
    requires forall k :: 0 <= k < |ps| ==> p.end < ps[k].start
    requires r == [p] + ps
    ensures InOrder(r, fs, i, last)
  {
    forall k | 0 < k < |r| ensures CoversSome(r[k], fs, i) {
      assert r[k] == ps[k - 1];
    }
  }

  /** Every pivot covers a run of at least two elements that overlap it and could not be longer,
      and pivots are disjoint and in increasing order. */
  lemma {:induction false} PivotsSound(fs: seq<Feature>, i: nat, from: nat, last: int, ps: seq<Range>)
    requires Ordered(fs, from, last) && ps == PivotsFrom(fs, i)
    ensures InOrder(ps, fs, i, last)
    decreases |fs| - i
  {
    if i + 2 > |fs| {
    } else if !Joins(fs[i], fs[i + 1]) {
      PivotsSound(fs, i + 2, from, last, ps);
      LaterInOrder(ps, fs, i, i + 2, from, last);
    } else {
      var q := PivotAt(fs, i);
      var rest := PivotsFrom(fs, i + 1 + q.sequenceCount);
      PivotAtCovers(fs, i);
      PivotsSound(fs, i + 1 + q.sequenceCount, from, last, rest);
      PrependInOrder(q, rest, fs, i, from, last, ps);
    }
  }

  lemma PivotsFromJoined(fs: seq<Feature>, i: nat)
    requires i + 2 <= |fs| && Joins(fs[i], fs[i + 1])
    ensures PivotsFrom(fs, i) == [PivotAt(fs, i)] + PivotsFrom(fs, i + 1 + PivotAt(fs, i).sequenceCount)
  {
  }

  // ----- the pass itself -----

  /** A pivot under construction. Once it counts two elements it is also the last entry of the result. */
  class Pivot {
    var start: nat
    var end: nat
    var zg: real
    var zd: real
    var gg: real
    var dd: real
    var sequenceCount: nat

    constructor ()
      ensures sequenceCount == 0
    {
      start, end, zg, zd, gg, dd, sequenceCount := 0, 0, 0.0, 0.0, 0.0, 0.0, 0;
    }

    ghost function Value(): Range
      reads this
    {
      Range(start, end, zg, zd, gg, dd, sequenceCount)
    }

    method Begin(f: Feature)
      modifies this
      ensures Value() == Range(f.start, f.end, f.high, f.low, f.high, f.low, 1)
    {
      zg := f.high;
      gg := f.high;
      zd := f.low;
      dd := f.low;
      start := f.start;
      end := f.end;
      sequenceCount := 1;
    }
  }

  ghost predicate Distinct(ps: seq<Pivot>)
  {
    forall j, k :: 0 <= j < k < |ps| ==> ps[j] != ps[k]
  }

  /** What the entries of the result say. */
  ghost function Values(ps: seq<Pivot>): (r: seq<Range>)
    reads ps
    ensures |r| == |ps|
    ensures forall k :: 0 <= k < |ps| ==> r[k] == ps[k].Value()
  {
    seq(|ps|, k requires 0 <= k < |ps| reads ps => ps[k].Value())
  }

  /** What the pass has done after idx elements: `done` are the entries of the result, `cur` is the pivot under
      construction, and `first` is the element it starts with. */
  ghost predicate Progress(fs: seq<Feature>, done: seq<Range>, cur: Range, first: nat, idx: nat)
  {
    && idx <= |fs|
    && match cur.sequenceCount
       case 0 => done + PivotsFrom(fs, idx) == PivotsFrom(fs, 0)
       case 1 =>
         && idx == first + 1
         && var f := fs[first];
         && cur == Range(f.start, f.end, f.high, f.low, f.high, f.low, 1)
         && done + PivotsFrom(fs, first) == PivotsFrom(fs, 0)
       case n =>
         && idx == first + n
         && Joins(fs[first], fs[first + 1])
         && cur == Start(fs[first], fs[first + 1]).(end := fs[idx - 1].end, sequenceCount := n)
         && (forall k :: first + 2 <= k < idx ==> Overlaps(fs[k], cur))
         && |done| > 0 && done[|done| - 1] == cur
         && done[..|done| - 1] + PivotsFrom(fs, first) == PivotsFrom(fs, 0)
  }

  lemma {:induction false} RunLengthIs(fs: seq<Feature>, i: nat, p: Range, n: nat)
    requires i + n <= |fs| && (i + n < |fs| ==> !Overlaps(fs[i + n], p))
    requires forall k :: i <= k < i + n ==> Overlaps(fs[k], p)
    ensures RunLength(fs, i, p) == n
    decreases n
  {
    if n > 0 {
      RunLengthIs(fs, i + 1, p, n - 1);
    }
  }

  /** A second element that joins the first makes the pivot an entry of the result. */
  lemma Joined(fs: seq<Feature>, done: seq<Range>, cur: Range, first: nat, idx: nat)
    requires Progress(fs, done, cur, first, idx) && cur.sequenceCount == 1 && idx < |fs|
    requires Joins(fs[first], fs[idx])
    ensures Progress(fs, done + [Start(fs[first], fs[idx])], Start(fs[first], fs[idx]), first, idx + 1)
  {
    var d := done + [Start(fs[first], fs[idx])];
    assert d[..|d| - 1] == done;
  }

  /** An overlapping element extends the last entry of the result. */
  lemma Extended(fs: seq<Feature>, done: seq<Range>, cur: Range, first: nat, idx: nat)
    requires Progress(fs, done, cur, first, idx) && cur.sequenceCount >= 2 && idx < |fs|
    requires Overlaps(fs[idx], cur)
    ensures var c := cur.(end := fs[idx].end, sequenceCount := cur.sequenceCount + 1);
            Progress(fs, done[|done| - 1 := c], c, first, idx + 1)
  {
    var c := cur.(end := fs[idx].end, sequenceCount := cur.sequenceCount + 1);
    var d := done[|done| - 1 := c];
    assert d[..|d| - 1] == done[..|done| - 1];
    forall k | first + 2 <= k < idx + 1 ensures Overlaps(fs[k], c) {
      assert k < idx ==> Overlaps(fs[k], cur);
    }
  }

  /** A pivot that cannot be extended further is the one the whole list gives. */
  lemma Finished(fs: seq<Feature>, done: seq<Range>, cur: Range, first: nat, idx: nat)
    requires Progress(fs, done, cur, first, idx) && cur.sequenceCount >= 2
    requires idx < |fs| ==> !Overlaps(fs[idx], cur)
    ensures done + PivotsFrom(fs, idx + 1) == PivotsFrom(fs, 0)
  {
    var p := Start(fs[first], fs[first + 1]);
    forall k | first + 2 <= k < idx ensures Overlaps(fs[k], p) {
      assert Overlaps(fs[k], cur);
    }
    RunLengthIs(fs, first + 2, p, idx - first - 2);
    assert PivotAt(fs, first) == cur;
    PivotsFromJoined(fs, first);
    LastMoved(done, PivotsFrom(fs, idx + 1));
  }

  lemma AppendShift<T>(a: seq<T>, x: T, b: seq<T>)
    ensures a + ([x] + b) == (a + [x]) + b
  {
  }

  lemma LastMoved<T>(a: seq<T>, b: seq<T>)
    requires |a| > 0
    ensures a[..|a| - 1] + ([a[|a| - 1]] + b) == a + b
  {
  }

  /** Two elements that do not join leave nothing behind. */
  lemma Dropped(fs: seq<Feature>, done: seq<Range>, cur: Range, first: nat, idx: nat)
    requires Progress(fs, done, cur, first, idx) && cur.sequenceCount == 1 && idx < |fs|
    requires !Joins(fs[first], fs[idx])
    ensures done + PivotsFrom(fs, idx + 1) == PivotsFrom(fs, 0)
  {
  }

  lemma AllDone(fs: seq<Feature>, done: seq<Range>, cur: Range, first: nat)
    requires Progress(fs, done, cur, first, |fs|)
    ensures done == PivotsFrom(fs, 0)
  {
    if cur.sequenceCount >= 2 {
      Finished(fs, done, cur, first, |fs|);
    }
  }

  /** A pivot of two or more elements is the last entry of the result; a shorter one is no entry yet. */
  ghost predicate Holds(pivots: seq<Pivot>, pivot: Pivot)
    reads pivot
  {
    && Distinct(pivots)
    && (pivot.sequenceCount < 2 ==> pivot !in pivots)
    && (pivot.sequenceCount >= 2 ==> |pivots| > 0 && pivot == pivots[|pivots| - 1])
  }

  /** The second element: it makes the pivot an entry of the result, or the pivot is given up. */
  method Second(fs: seq<Feature>, idx: nat, pivots: seq<Pivot>, pivot: Pivot, ghost first: nat)
    returns (pivots': seq<Pivot>, pivot': Pivot)
    requires idx < |fs| && Holds(pivots, pivot) && pivot.sequenceCount == 1
    requires Progress(fs, Values(pivots), pivot.Value(), first, idx)
    modifies pivot
    ensures (pivots' == pivots && fresh(pivot')) || (pivots' == pivots + [pivot] && pivot' == pivot)
    ensures Holds(pivots', pivot')
    ensures Progress(fs, Values(pivots'), pivot'.Value(), first, idx + 1)
  {
    var f := fs[idx];
    ghost var done, cur := Values(pivots), pivot.Value();
    var zg := Min(f.high, pivot.zg);
    var zd := Max(f.low, pivot.zd);
    var gg := Max(f.high, pivot.gg);
    var dd := Min(f.low, pivot.dd);
    if zg >= zd {
      Joined(fs, done, cur, first, idx);
      pivot.zg := zg;
      pivot.zd := zd;
      pivot.gg := gg;
      pivot.dd := dd;
      pivot.end := f.end;
      pivot.sequenceCount := pivot.sequenceCount + 1;
      pivots' := pivots + [pivot];
      pivot' := pivot;
      assert Values(pivots') == done + [pivot.Value()];
      assert pivot.Value() == Start(fs[first], fs[idx]);
    } else {
      Dropped(fs, done, cur, first, idx);
      pivots' := pivots;
      pivot' := new Pivot();
      assert Values(pivots') == done;
    }
  }

  /** A further element: it extends the entry the pass still refers to, or ends it. */
  method Further(fs: seq<Feature>, idx: nat, pivots: seq<Pivot>, pivot: Pivot, ghost first: nat)
    returns (pivot': Pivot)
    requires idx < |fs| && Holds(pivots, pivot) && pivot.sequenceCount >= 2
    requires Progress(fs, Values(pivots), pivot.Value(), first, idx)
    modifies pivot
    ensures pivot' == pivot || fresh(pivot')
    ensures Holds(pivots, pivot')
    ensures Progress(fs, Values(pivots), pivot'.Value(), first, idx + 1)
  {
    var f := fs[idx];
    ghost var done, cur := Values(pivots), pivot.Value();
    if f.high >= pivot.zd && f.low <= pivot.zg {
      Extended(fs, done, cur, first, idx);
      pivot.end := f.end;
      pivot.sequenceCount := pivot.sequenceCount + 1;
      pivot' := pivot;
      assert Values(pivots) == done[|done| - 1 := pivot.Value()];
    } else {
      Finished(fs, done, cur, first, idx);
      pivot' := new Pivot();
      assert Values(pivots) == done;
    }
  }

  /** One pass over the elements. Entries already in the result keep what they say, but for the last one,
      which is extended through the reference the pass still holds. */
  method CollectPivots(fs: seq<Feature>) returns (pivots: seq<Pivot>)
    ensures fresh(pivots) && Distinct(pivots)
    ensures Values(pivots) == PivotsFrom(fs, 0)
  {
    pivots := [];
    if |fs| < 2 {
      return;
    }
    var pivot := new Pivot();
    ghost var first := 0;
    var idx := 0;
    while idx < |fs|
      invariant 0 <= idx <= |fs|
      invariant fresh(pivots) && fresh(pivot) && Holds(pivots, pivot)
      invariant Progress(fs, Values(pivots), pivot.Value(), first, idx)
    {
      if pivot.sequenceCount == 0 {
        ghost var done := Values(pivots);
        pivot.Begin(fs[idx]);
        first := idx;
        assert Values(pivots) == done;
      } else if pivot.sequenceCount == 1 {
        pivots, pivot := Second(fs, idx, pivots, pivot, first);
      } else {
        pivot := Further(fs, idx, pivots, pivot, first);
      }
      idx := idx + 1;
    }
    AllDone(fs, Values(pivots), pivot.Value(), first);
  }

  method CollectFeatures(duan: seq<int>, low: seq<real>, high: seq<real>, v: int, from: nat, last: int)
    returns (sequence: seq<Feature>)
    requires (v == 1 || v == -1) && |duan| == |low| == |high|
    ensures sequence == FeaturesTo(duan, low, high, v, from, last)
  {
    sequence := [];
    if last < 0 {
      return;
    }
    var start, end := from, EndOf(last, |duan|);
    ghost var rest := Features(duan, low, high, v, start, end, last);
    ghost var all := rest;
    while true
      invariant rest == Features(duan, low, high, v, start, end, last)
      invariant sequence + rest == all
      decreases end - start
    {
      ghost var f', t' := FeaturesUnfold(duan, low, high, v, start, end, last);
      var f := IndexOf(duan, v, start, end);
      if f == -1 || f >= last {
        break;
      }
      var t := IndexOf(duan, -v, f, end);
      if t == -1 {
        break;
      }
      var d, g := if v == -1 then f else t, if v == -1 then t else f;
      var next := Feature(f, t, low[d], high[g]);
      rest := Features(duan, low, high, v, t, end, last);
      AppendShift(sequence, next, rest);
      sequence := sequence + [next];
      start := t;
    }
    assert rest == [];
  }

  /** Where a slice up to and including position last ends. */
  function EndOf(last: nat, n: nat): nat { if last < n then last + 1 else n }

  /** The feature elements between two positions; the second may lie past the end of the series. */
  function FeaturesTo(duan: seq<int>, low: seq<real>, high: seq<real>, v: int, from: nat, last: int): seq<Feature>
    requires (v == 1 || v == -1) && |duan| == |low| == |high|
  {
    if last < 0 then [] else Features(duan, low, high, v, from, EndOf(last, |duan|), last)
  }

  method IndexOf(a: seq<int>, v: int, i: nat, end: nat) returns (r: int)
    requires end <= |a|
    ensures r == NextEq(a, v, i, end)
  {
    r := -1;
    var x := i;
    while x < end
      invariant i <= x
      invariant NextEq(a, v, i, end) == NextEq(a, v, x, end)
    {
      if a[x] == v {
        return x;
      }
      x := x + 1;
    }
  }

  /** What the pivots of a segment between two positions promise: they lie between them, and in the series. */
  lemma PivotsWithin(duan: seq<int>, low: seq<real>, high: seq<real>, v: int, from: nat, last: int,
                     fs: seq<Feature>, ps: seq<Range>)
    requires (v == 1 || v == -1) && |duan| == |low| == |high|
    requires fs == FeaturesTo(duan, low, high, v, from, last) && ps == PivotsFrom(fs, 0)
    ensures InOrder(ps, fs, 0, last)
    ensures forall k :: 0 <= k < |ps| ==> from <= ps[k].start < ps[k].end <= last && ps[k].end < |duan|
  {
    if last >= 0 {
      FeaturesOrdered(duan, low, high, v, from, EndOf(last, |duan|), last, fs);
      PivotsSound(fs, 0, from, last, ps);
    }
  }

  /** The pivots of a segment between two positions. Any other direction gives none. */
  method FindPivots(from: nat, last: int, duan: seq<int>, high: seq<real>, low: seq<real>, direction: int)
    returns (pivots: seq<Pivot>)
    requires |duan| == |low| == |high|
    ensures fresh(pivots) && Distinct(pivots)
    ensures Values(pivots) == if direction == 1 || direction == -1
                              then PivotsFrom(FeaturesTo(duan, low, high, direction, from, last), 0) else []
  {
    pivots := [];
    if direction == 1 || direction == -1 {
      var fs := CollectFeatures(duan, low, high, direction, from, last);
      pivots := CollectPivots(fs);
    }
  }
}
