/** Pen signals: a series over {-1, 0, 1} in which 1 marks the top and -1 the bottom of a pen.
    The functions say what one step of the pen recogniser does to a series; the lemmas say what it keeps. */
module Pens {
  import opened Search
  import opened Bars

  ghost predicate IsSignal(v: int) { v == -1 || v == 0 || v == 1 }

  ghost predicate Signals(b: seq<int>) { forall k :: 0 <= k < |b| ==> IsSignal(b[k]) }

  ghost predicate ZeroBetween(b: seq<int>, from: int, to: int)
  {
    forall k :: from < k < to && 0 <= k < |b| ==> b[k] == 0
  }

  /** p and q are neighbouring nonzero positions. */
  ghost predicate Neighbours(b: seq<int>, p: int, q: int)
  {
    0 <= p < q < |b| && b[p] != 0 && b[q] != 0 && ZeroBetween(b, p, q)
  }

  /** Both ends of the stretch [p, q] are extreme over it, each in the direction of its own signal. */
  ghost predicate Extreme(b: seq<int>, bars: Bars, p: int, q: int)
    requires 0 <= p <= q < |b| && bars.Covers(|b|)
  {
    forall k :: p <= k <= q ==>
      bars.Reach(b[p], k) <= bars.Reach(b[p], p) && bars.Reach(b[q], k) <= bars.Reach(b[q], q)
  }

  /** The pens that end at or before `last` alternate and are extreme. */
  ghost predicate PensUpTo(b: seq<int>, bars: Bars, last: int)
    requires bars.Covers(|b|)
  {
    forall p, q :: Neighbours(b, p, q) && q <= last ==> b[p] == -b[q] && Extreme(b, bars, p, q)
  }

  /** The invariant of the recogniser: signals alternate and every pen is extreme at both ends. */
  ghost predicate PensInOrder(b: seq<int>, bars: Bars)
    requires bars.Covers(|b|)
  {
    Signals(b) && PensUpTo(b, bars, |b|)
  }

  // ----- what the code does to a series -----

  function Zeros(n: nat): (r: seq<int>)
    ensures |r| == n && forall k :: 0 <= k < n ==> r[k] == 0
  {
    seq(n, _ => 0)
  }

  /** Overwrite the positions strictly between from and to with zero. */
  function Cleared(b: seq<int>, from: int, to: int): (r: seq<int>)
    ensures |r| == |b|
    ensures forall k :: 0 <= k < |b| ==> r[k] == if from < k < to then 0 else b[k]
  {
    seq(|b|, k requires 0 <= k < |b| => if from < k < to then 0 else b[k])
  }

  function Count(b: seq<int>): nat
  {
    if b == [] then 0 else Count(b[..|b| - 1]) + if b[|b| - 1] != 0 then 1 else 0
  }

  lemma {:induction false} CountUpdate(b: seq<int>, k: nat, v: int)
    requires k < |b|
    ensures Count(b[k := v]) == Count(b) - (if b[k] != 0 then 1 else 0) + (if v != 0 then 1 else 0)
  {
    var n := |b| - 1;
    var c := b[k := v];
    if k == n {
      assert c[..n] == b[..n];
    } else {
      assert c[..n] == b[..n][k := v];
      CountUpdate(b[..n], k, v);
    }
  }

  /** The series after one correction: the pen from x to y starts at xx instead and loses its end. */
  function Moved(b: seq<int>, x: nat, y: nat, xx: nat): (r: seq<int>)
    requires x < xx <= y < |b| && b[x] != 0 && b[y] != 0
    ensures |r| == |b| && Count(r) < Count(b)
    ensures forall k :: 0 <= k < |b| ==> r[k] == if k == xx then b[x] else if k == x || k == y then 0 else b[k]
  {
    CountUpdate(b, x, 0);
    CountUpdate(b[x := 0], y, 0);
    CountUpdate(b[x := 0][y := 0], xx, b[x]);
    b[x := 0][y := 0][xx := b[x]]
  }

  /** Repair of the pen from x to y: when a bar inside it reaches further than its start,
      the start moves there, and the pen before it is repaired in turn. */
  function Adjusted(b: seq<int>, bars: Bars, x: nat, y: nat): (r: seq<int>)
    requires x < |b| && y < |b| && bars.Covers(|b|)
    ensures |r| == |b|
    decreases Count(b)
  {
    if (b[x] == 1 && b[y] == -1) || (b[x] == -1 && b[y] == 1) then
      if x < y && bars.FirstPeak(b[x], x, y) > x then
        var xx := bars.FirstPeak(b[x], x, y);
        var c := Moved(b, x, y, xx);
        var j := LastEq(c, -b[x], xx);
        if j >= 0 then Adjusted(c, bars, j, xx) else c
      else b
    else b
  }

  /** The position the repair reports: the last end point it left in place. */
  function AdjustedEnd(b: seq<int>, bars: Bars, x: nat, y: nat): (r: nat)
    requires x < |b| && y < |b| && bars.Covers(|b|)
    ensures r < |b|
    decreases Count(b)
  {
    if (b[x] == 1 && b[y] == -1) || (b[x] == -1 && b[y] == 1) then
      if x < y && bars.FirstPeak(b[x], x, y) > x then
        var xx := bars.FirstPeak(b[x], x, y);
        var c := Moved(b, x, y, xx);
        var j := LastEq(c, -b[x], xx);
        if j >= 0 then AdjustedEnd(c, bars, j, xx) else xx
      else y
    else y
  }

  /** Start of the range a breakout in direction s is measured over: the last opposite signal, or bar 0. */
  function Origin(b: seq<int>, s: int, i: nat): (r: nat)
    requires 0 < i <= |b|
    ensures r < i
  {
    var x := LastEq(b, -s, i);
    if x < 0 then 0 else x
  }

  /** Bar i becomes a signal of direction s, the pen starting at x; everything between is dropped. */
  function Drawn(b: seq<int>, bars: Bars, s: int, x: nat, i: nat): (r: seq<int>)
    requires x < i < |b| && bars.Covers(|b|)
    ensures |r| == |b|
  {
    Adjusted(Cleared(b[x := -s][i := s], x, i), bars, x, i)
  }

  /** Signal m is not beaten by bar i, so a bar breaking out both ways attaches to it. */
  predicate Outreaches(b: seq<int>, bars: Bars, m: nat, i: nat)
    requires m < |b| && i < |b| && bars.Covers(|b|)
  {
    (b[m] == 1 || b[m] == -1) && bars.Reach(b[m], m) > bars.Reach(b[m], i)
  }

  /** The last signal below n that bar i does not beat, or -1. */
  function LastUnbeaten(b: seq<int>, bars: Bars, n: nat, i: nat): (r: int)
    requires n <= i < |b| && bars.Covers(|b|)
    ensures -1 <= r < n
    ensures r >= 0 ==> Outreaches(b, bars, r, i)
    ensures forall m :: r < m < n && 0 <= m ==> !Outreaches(b, bars, m, i)
  {
    if n == 0 then -1
    else if Outreaches(b, bars, n - 1, i) then n - 1
    else LastUnbeaten(b, bars, n - 1, i)
  }

  /** A bar that breaks out both ways. */
  function DoubleBreakout(b: seq<int>, bars: Bars, i: nat): (r: seq<int>)
    requires 0 < i < |b| && bars.Covers(|b|)
    ensures |r| == |b|
  {
    var m := LastUnbeaten(b, bars, i, i);
    if m < 0 then b else Cleared(b[i := -b[m]], m, i)
  }

  // ----- what it keeps -----

  /** Neighbours do not see changes outside the stretch between them. */
  lemma PensUpToFrame(b: seq<int>, c: seq<int>, bars: Bars, last: int)
    requires |b| == |c| && bars.Covers(|b|) && last < |b|
    requires PensUpTo(b, bars, last)
    requires forall k :: 0 <= k <= last ==> c[k] == b[k]
    ensures PensUpTo(c, bars, last)
  {
    forall p, q | Neighbours(c, p, q) && q <= last
      ensures c[p] == -c[q] && Extreme(c, bars, p, q)
    {
      assert Neighbours(b, p, q);
      assert Extreme(b, bars, p, q);
    }
  }

  /** Appending one extreme pen to a series whose last signal is p. */
  lemma AppendPen(c: seq<int>, bars: Bars, p: int, q: int)
    requires bars.Covers(|c|) && 0 <= p < q < |c| && Signals(c)
    requires PensUpTo(c, bars, p)
    requires c[p] != 0 && c[p] == -c[q] && ZeroBetween(c, p, q) && ZeroBetween(c, q, |c|)
    requires Extreme(c, bars, p, q)
    ensures PensInOrder(c, bars)
  {
    forall p', q' | Neighbours(c, p', q')
      ensures c[p'] == -c[q'] && Extreme(c, bars, p', q')
    {
      if q' > p {
        assert q' == q;
        assert p' == p;
      }
    }
  }

  /** What holds whenever the repair is entered: the pen from x to y is the last one,
      everything before x is in order, and y is extreme over the pen. */
  ghost predicate Repairable(b: seq<int>, bars: Bars, x: int, y: int)
    requires bars.Covers(|b|)
  {
    && 0 <= x < y < |b|
    && Signals(b)
    && PensUpTo(b, bars, x)
    && b[x] != 0 && b[x] == -b[y]
    && ZeroBetween(b, x, y) && ZeroBetween(b, y, |b|)
    && forall k :: x <= k <= y ==> bars.Reach(b[y], k) <= bars.Reach(b[y], y)
  }

  /** One correction either ends the cascade with a single signal left of which nothing remains,
      or hands an equally repairable pen to the next round. */
  lemma MoveKeeps(b: seq<int>, bars: Bars, x: nat, y: nat)
    requires bars.Covers(|b|) && Repairable(b, bars, x, y)
    requires bars.FirstPeak(b[x], x, y) > x
    ensures var xx := bars.FirstPeak(b[x], x, y);
            var c := Moved(b, x, y, xx);
            var j := LastEq(c, -b[x], xx);
            && Signals(c) && c[xx] == b[x] && ZeroBetween(c, xx, |c|)
            && (j >= 0 ==> j < x && Repairable(c, bars, j, xx))
            && (j < 0 ==> ZeroBetween(c, -1, xx))
  {
    var xx := bars.FirstPeak(b[x], x, y);
    var c := Moved(b, x, y, xx);
    var j := LastEq(c, -b[x], xx);
    var m := LastSignal(b, x);
    if m < 0 {
      assert ZeroBetween(c, -1, xx);
    } else {
      assert Neighbours(b, m, x);
      assert b[m] == -b[x] && Extreme(b, bars, m, x);
      assert c[m] == b[m];
      assert j == m;
      assert PensUpTo(b, bars, j);
      PensUpToFrame(b, c, bars, j);
      forall k | j <= k <= xx
        ensures bars.Reach(c[xx], k) <= bars.Reach(c[xx], xx)
      {
        if k <= x {
          assert bars.Reach(b[x], k) <= bars.Reach(b[x], x);
        }
      }
    }
  }

  /** The last nonzero position below i, or -1. */
  function LastSignal(b: seq<int>, i: nat): (r: int)
    requires i <= |b|
    ensures -1 <= r < i
    ensures r >= 0 ==> b[r] != 0
    ensures ZeroBetween(b, r, i)
  {
    if i == 0 then -1 else if b[i - 1] != 0 then i - 1 else LastSignal(b, i - 1)
  }

  /** The first nonzero position in [i, end), or end. */
  function NextSignal(b: seq<int>, i: nat, end: nat): (r: nat)
    requires i <= end <= |b|
    ensures i <= r <= end
    ensures r < end ==> b[r] != 0
    ensures ZeroBetween(b, i - 1, r)
    decreases end - i
  {
    if i == end then end else if b[i] != 0 then i else NextSignal(b, i + 1, end)
  }

  /** The repair cascade restores the invariant, and reports the last signal it left. */
  lemma {:induction false} AdjustedKeeps(b: seq<int>, bars: Bars, x: nat, y: nat)
    requires bars.Covers(|b|) && Repairable(b, bars, x, y)
    ensures PensInOrder(Adjusted(b, bars, x, y), bars)
    ensures var r := Adjusted(b, bars, x, y);
            var e := AdjustedEnd(b, bars, x, y);
            e <= y && r[e] != 0 && ZeroBetween(r, e, |r|)
    decreases x
  {
    if bars.FirstPeak(b[x], x, y) > x {
      MoveKeeps(b, bars, x, y);
      var xx := bars.FirstPeak(b[x], x, y);
      var c := Moved(b, x, y, xx);
      var j := LastEq(c, -b[x], xx);
      if j >= 0 {
        AdjustedKeeps(c, bars, j, xx);
      } else {
        forall p, q | Neighbours(c, p, q) ensures false {
        }
      }
    } else {
      AppendPen(b, bars, x, y);
    }
  }

  /** Drawing a pen to a bar that breaks out over [x, i) keeps the invariant: no other condition is used. */
  lemma DrawnKeeps(b: seq<int>, bars: Bars, s: int, i: nat)
    requires 0 < i < |b| && bars.Covers(|b|) && PensInOrder(b, bars) && ZeroBetween(b, i - 1, |b|)
    requires s == 1 || s == -1
    requires bars.BreaksOut(s, Origin(b, s, i), i)
    ensures PensInOrder(Drawn(b, bars, s, Origin(b, s, i), i), bars)
    ensures ZeroBetween(Drawn(b, bars, s, Origin(b, s, i), i), i, |b|)
  {
    var x := Origin(b, s, i);
    var c := Cleared(b[x := -s][i := s], x, i);
    if LastEq(b, -s, i) >= 0 {
      PensUpToFrame(b, c, bars, x);
    } else {
      assert forall p, q :: Neighbours(c, p, q) ==> q > 0;
    }
    AdjustedKeeps(c, bars, x, i);
  }

  /** Every bar between an unbeaten signal m and a bar i that beats all signals in between
      stays within what m and i reach. */
  lemma BetweenUnbeaten(b: seq<int>, bars: Bars, m: nat, i: nat, k: nat)
    requires m <= k < i < |b| && bars.Covers(|b|) && PensInOrder(b, bars)
    requires m == LastUnbeaten(b, bars, i, i)
    requires bars.BreaksOut(1, Origin(b, 1, i), i) && bars.BreaksOut(-1, Origin(b, -1, i), i)
    ensures bars.Reach(b[m], k) <= bars.Reach(b[m], m)
    ensures bars.Reach(-b[m], k) <= bars.Reach(-b[m], i)
  {
    var p := LastSignal(b, k + 1);
    var q := NextSignal(b, k + 1, i);
    assert m <= p <= k;
    assert p == m || !Outreaches(b, bars, p, i);
    if q < i {
      assert Neighbours(b, p, q);
      assert b[p] == -b[q] && Extreme(b, bars, p, q);
      assert !Outreaches(b, bars, q, i);
    } else {
      assert Origin(b, 1, i) <= p && Origin(b, -1, i) <= p;
      assert bars.Reach(1, k) < bars.Reach(1, i) && bars.Reach(-1, k) < bars.Reach(-1, i);
    }
  }

  /** A double breakout keeps the invariant. */
  lemma DoubleBreakoutKeeps(b: seq<int>, bars: Bars, i: nat)
    requires 0 < i < |b| && bars.Covers(|b|) && PensInOrder(b, bars) && ZeroBetween(b, i - 1, |b|)
    requires bars.BreaksOut(1, Origin(b, 1, i), i) && bars.BreaksOut(-1, Origin(b, -1, i), i)
    ensures PensInOrder(DoubleBreakout(b, bars, i), bars)
    ensures ZeroBetween(DoubleBreakout(b, bars, i), i, |b|)
  {
    var m := LastUnbeaten(b, bars, i, i);
    if m >= 0 {
      var c := DoubleBreakout(b, bars, i);
      PensUpToFrame(b, c, bars, m);
      forall k | m <= k <= i
        ensures bars.Reach(c[m], k) <= bars.Reach(c[m], m) && bars.Reach(c[i], k) <= bars.Reach(c[i], i)
      {
        if k < i {
          BetweenUnbeaten(b, bars, m, i, k);
        }
      }
      AppendPen(c, bars, m, i);
    }
  }
}
