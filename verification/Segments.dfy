/** Segments: a coarser series of alternating signals built from the pen signals of a finer one. */
module Segments {
  import opened Search
  import opened Bars
  import opened Pens

  ghost predicate Alternating(b: seq<int>)
  {
    Signals(b) && forall p, q :: Neighbours(b, p, q) ==> b[p] == -b[q]
  }

  /** The two first signals of the finer series, and both must exist for anything to be built. */
  function FirstOf(bi: seq<int>, v: int): int { NextEq(bi, v, 0, |bi|) }

  /** Both signals occur. */
  predicate HasBoth(bi: seq<int>) { FirstOf(bi, -1) >= 0 && FirstOf(bi, 1) >= 0 }

  /** The direction of the last confirmed segment. */
  function Heading(duan: seq<int>, i: nat): (s: int)
    requires i <= |duan|
    ensures s == 1 || s == -1
  {
    if LastEq(duan, 1, i) > LastEq(duan, -1, i) then 1 else -1
  }

  /** The last two pens before signal i, counted back from it: the latest two ends of each kind. */
  datatype Legs = Legs(g1: int, d2: int, g2: int)

  function LastLegs(bi: seq<int>, t: int, i: nat): Legs
    requires i <= |bi|
  {
    var g1 := LastEq(bi, -t, i);
    var d2 := LastEq(bi, t, g1);
    Legs(g1, d2, LastEq(bi, -t, d2))
  }

  /** The last two pens before bar i make a segment in direction t: a further end, and no further start. */
  predicate LegsAgree(bi: seq<int>, bars: Bars, t: int, i: nat)
    requires i < |bi| && bars.Covers(|bi|)
  {
    var l := LastLegs(bi, t, i);
    && l.g1 >= 0 && l.d2 >= 0 && l.g2 >= 0
    && bars.Reach(t, i) > bars.Reach(t, l.d2)
    && bars.Reach(-t, l.g1) <= bars.Reach(-t, l.g2)
  }

  /** What one signal does to the segments: nothing, move the last end, or confirm a new end. */
  datatype Move = Stay | Shift(from: nat, till: nat) | Confirm(at: nat)

  /** What signal i of the finer series does when the last confirmed segment ends in `last` with sign s
      and starts in `before`. */
  function MoveFor(bi: seq<int>, bars: Bars, i: nat, s: int, last: nat, before: nat): (m: Move)
    requires last < i < |bi| && before < i && bars.Covers(|bi|)
    ensures m.Shift? ==> m == Shift(last, i)
    ensures m.Confirm? ==> last < m.at <= i
  {
    if bi[i] == s then
      if bars.Reach(s, i) > bars.Reach(s, last) then Shift(last, i) else Stay
    else if bi[i] != -s then Stay
    else if bars.Reach(-s, i) > bars.Reach(-s, before) then Confirm(i)
    else
      var i1 := NextEq(bi, -s, last + 1, i);
      if i1 < 0 then Stay
      else if bars.Reach(-s, i) > bars.Reach(-s, i1) then Confirm(i)
      else if LegsAgree(bi, bars, -s, i) then Confirm(bars.FirstPeak(-s, i1, i))
      else Stay
  }

  function Applied(duan: seq<int>, m: Move, s: int): (r: seq<int>)
    requires m.Shift? ==> m.from < |duan| && m.till < |duan|
    requires m.Confirm? ==> m.at < |duan|
    ensures |r| == |duan|
  {
    match m
    case Stay => duan
    case Shift(from, till) => duan[from := 0][till := s]
    case Confirm(at) => duan[at := -s]
  }

  /** The segments after signal i of the finer series. */
  function SegmentStep(duan: seq<int>, bi: seq<int>, bars: Bars, i: nat): (r: seq<int>)
    requires i < |bi| && |duan| == |bi| && bars.Covers(|bi|)
    ensures |r| == |duan|
  {
    var s := Heading(duan, i);
    var last, before := LastEq(duan, s, i), LastEq(duan, -s, i);
    if last < 0 || before < 0 then duan else Applied(duan, MoveFor(bi, bars, i, s, last, before), s)
  }

  /** What holds between two bars of the pass: the segments so far alternate, end before bar i,
      hold both signals, and start no earlier than the first signal of their kind in the finer series. */
  ghost predicate Underway(duan: seq<int>, bi: seq<int>, i: nat)
    requires i <= |bi| && |duan| == |bi|
  {
    && HasBoth(bi)
    && Alternating(duan) && ZeroBetween(duan, i - 1, |duan|)
    && LastEq(duan, 1, i) >= 0 && LastEq(duan, -1, i) >= 0
    && (forall k :: 0 <= k < |duan| && duan[k] == 1 ==> FirstOf(bi, 1) <= k)
    && (forall k :: 0 <= k < |duan| && duan[k] == -1 ==> FirstOf(bi, -1) <= k)
  }

  /** The two signals the pass starts from. */
  function Seeded(duan: seq<int>, bi: seq<int>): (r: seq<int>)
    requires HasBoth(bi) && |duan| == |bi|
    ensures |r| == |duan|
  {
    duan[FirstOf(bi, -1) := -1][FirstOf(bi, 1) := 1]
  }

  function SeedEnd(bi: seq<int>): (r: nat)
    requires HasBoth(bi)
    ensures r <= |bi|
  {
    (if FirstOf(bi, -1) > FirstOf(bi, 1) then FirstOf(bi, -1) else FirstOf(bi, 1)) + 1
  }

  /** The last signal before i in an alternating series with both signs is the later of the two last ones. */
  lemma HeadingIsLast(duan: seq<int>, bi: seq<int>, i: nat)
    requires i <= |bi| && |duan| == |bi| && Underway(duan, bi, i)
    ensures var s := Heading(duan, i);
            var last, before := LastEq(duan, s, i), LastEq(duan, -s, i);
            0 <= before < last < i && ZeroBetween(duan, last, |duan|) && Neighbours(duan, before, last)
  {
    var s := Heading(duan, i);
    var last, before := LastEq(duan, s, i), LastEq(duan, -s, i);
    var p := LastSignal(duan, last);
    assert before <= p;
    assert Neighbours(duan, p, last);
  }

  /** Between two equal signals of an alternating series lies an opposite one. */
  lemma OppositeBetween(b: seq<int>, p: nat, q: nat)
    requires p < q < |b| && Alternating(b) && b[p] == b[q] && b[p] != 0
    ensures p < LastEq(b, -b[q], q)
  {
    var m := LastSignal(b, q);
    assert Neighbours(b, m, q);
  }

  /** Counting back from signal i over an earlier equal signal i1 and an opposite one before that. */
  lemma LegsFrom(bi: seq<int>, t: int, i: nat, i1: nat, f: nat)
    requires f < i1 < i < |bi| && Alternating(bi) && t != 0
    requires bi[f] == -t && bi[i1] == t && bi[i] == t
    ensures var l := LastLegs(bi, t, i);
            0 <= l.g2 < l.d2 < l.g1 < i
  {
    OppositeBetween(bi, i1, i);
    var g1 := LastEq(bi, -t, i);
    var d2 := LastEq(bi, t, g1);
    assert i1 <= d2;
  }

  /** The chained back-searches from signal i succeed whenever they are made. */
  ghost predicate LegsReady(bi: seq<int>, i: nat, t: int, last: nat)
    requires last < i < |bi|
  {
    bi[i] == t && NextEq(bi, t, last + 1, i) >= 0 ==>
      var l := LastLegs(bi, t, i);
      0 <= l.g2 < l.d2 < l.g1
  }

  /** The chained back-searches of the pass always find something. */
  lemma LegsExist(duan: seq<int>, bi: seq<int>, i: nat, s: int)
    requires i < |bi| && |duan| == |bi| && Underway(duan, bi, i) && Alternating(bi)
    requires (s == 1 || s == -1) && s == Heading(duan, i)
    ensures LegsReady(bi, i, -s, LastEq(duan, s, i))
  {
    var last := LastEq(duan, s, i);
    if bi[i] == -s && NextEq(bi, -s, last + 1, i) >= 0 {
      assert duan[last] == s;
      LegsFrom(bi, -s, i, NextEq(bi, -s, last + 1, i), FirstOf(bi, s));
    }
  }

  /** Rewriting what follows the last neighbours keeps a series alternating. */
  lemma AlternatingTail(c: seq<int>, d: seq<int>, p: nat, q: nat)
    requires |c| == |d| && p < q < |d| && Alternating(c) && Signals(d)
    requires forall k :: 0 <= k <= p ==> d[k] == c[k]
    requires c[p] != 0 && d[q] == -c[p] && ZeroBetween(d, p, q) && ZeroBetween(d, q, |d|)
    ensures Alternating(d)
  {
    forall x, y | Neighbours(d, x, y) ensures d[x] == -d[y] {
      if y <= p {
        assert Neighbours(c, x, y);
      } else {
        assert y == q;
        assert x == p;
      }
    }
  }

  /** A series that keeps the old one up to signal p and ends in an opposite signal q stays in order. */
  lemma TailUnderway(duan: seq<int>, r: seq<int>, bi: seq<int>, i: nat, p: nat, q: nat)
    requires i < |bi| && |duan| == |bi| == |r| && Underway(duan, bi, i)
    requires p < q <= i && (duan[p] == 1 || duan[p] == -1) && r[q] == -duan[p] && FirstOf(bi, r[q]) <= q
    requires forall k :: 0 <= k < |r| ==> r[k] == if k <= p then duan[k] else if k == q then -duan[p] else 0
    ensures Underway(r, bi, i + 1)
  {
    AlternatingTail(duan, r, p, q);
    assert r[p] == -r[q];
  }

  lemma StayUnderway(duan: seq<int>, bi: seq<int>, i: nat)
    requires i < |bi| && |duan| == |bi| && Underway(duan, bi, i)
    ensures Underway(duan, bi, i + 1)
  {
    assert LastEq(duan, 1, i + 1) >= LastEq(duan, 1, i) && LastEq(duan, -1, i + 1) >= LastEq(duan, -1, i);
  }

  /** Where a confirmed end may lie: never before the first signal of its kind. */
  lemma ConfirmedAfterFirst(bi: seq<int>, bars: Bars, i: nat, s: int, last: nat, before: nat)
    requires last < i < |bi| && before < i && bars.Covers(|bi|) && (s == 1 || s == -1) && HasBoth(bi)
    ensures var m := MoveFor(bi, bars, i, s, last, before);
            && (m.Shift? ==> FirstOf(bi, s) <= i)
            && (m.Confirm? ==> FirstOf(bi, -s) <= m.at)
  {
  }

  lemma MoveKeeps(duan: seq<int>, bi: seq<int>, i: nat, m: Move, s: int, last: nat, before: nat)
    requires i < |bi| && |duan| == |bi| && Underway(duan, bi, i)
    requires before < last < i && ZeroBetween(duan, last, |duan|) && ZeroBetween(duan, before, last)
    requires (s == 1 || s == -1) && duan[last] == s && duan[before] == -s
    requires m.Shift? ==> m == Shift(last, i) && FirstOf(bi, s) <= i
    requires m.Confirm? ==> last < m.at <= i && FirstOf(bi, -s) <= m.at
    ensures Underway(Applied(duan, m, s), bi, i + 1)
  {
    match m
    case Stay => StayUnderway(duan, bi, i);
    case Shift(_, _) => TailUnderway(duan, Applied(duan, m, s), bi, i, before, i);
    case Confirm(at) => TailUnderway(duan, Applied(duan, m, s), bi, i, last, at);
  }

  /** One bar keeps the segments in order. */
  lemma SegmentStepKeeps(duan: seq<int>, bi: seq<int>, bars: Bars, i: nat, r: seq<int>)
    requires i < |bi| && |duan| == |bi| && bars.Covers(|bi|) && Underway(duan, bi, i)
    requires r == SegmentStep(duan, bi, bars, i)
    ensures Underway(r, bi, i + 1)
  {
    HeadingIsLast(duan, bi, i);
    var s := Heading(duan, i);
    var last, before := LastEq(duan, s, i), LastEq(duan, -s, i);
    ConfirmedAfterFirst(bi, bars, i, s, last, before);
    MoveKeeps(duan, bi, i, MoveFor(bi, bars, i, s, last, before), s, last, before);
  }

  lemma SeededUnderway(bi: seq<int>)
    requires HasBoth(bi)
    ensures Underway(Seeded(Zeros(|bi|), bi), bi, SeedEnd(bi))
  {
    var d := Seeded(Zeros(|bi|), bi);
    assert d[FirstOf(bi, -1)] == -1 && d[FirstOf(bi, 1)] == 1;
  }

  /** The segments after the bars below i. */
  ghost function SegmentRun(bi: seq<int>, bars: Bars, i: nat): (r: seq<int>)
    requires HasBoth(bi) && SeedEnd(bi) <= i <= |bi| && bars.Covers(|bi|)
    ensures |r| == |bi|
    decreases i
  {
    if i == SeedEnd(bi) then Seeded(Zeros(|bi|), bi)
    else SegmentStep(SegmentRun(bi, bars, i - 1), bi, bars, i - 1)
  }

  lemma RunNext(bi: seq<int>, bars: Bars, i: nat, c: seq<int>, d: seq<int>)
    requires HasBoth(bi) && SeedEnd(bi) <= i < |bi| && bars.Covers(|bi|)
    requires c == SegmentRun(bi, bars, i) && d == SegmentStep(c, bi, bars, i)
    ensures d == SegmentRun(bi, bars, i + 1)
  {
  }

  /** After every bar of the pass the segments are in order. */
  lemma {:induction false} SegmentsInOrder(bi: seq<int>, bars: Bars, i: nat, d: seq<int>)
    requires HasBoth(bi) && SeedEnd(bi) <= i <= |bi| && bars.Covers(|bi|)
    requires d == SegmentRun(bi, bars, i)
    ensures Underway(d, bi, i)
    decreases i
  {
    hide SegmentStep;
    if i == SeedEnd(bi) {
      SeededUnderway(bi);
    } else {
      var c := SegmentRun(bi, bars, i - 1);
      SegmentsInOrder(bi, bars, i - 1, c);
      SegmentStepKeeps(c, bi, bars, i - 1, d);
    }
  }

  /** The segments of a whole series. */
  ghost function SegmentsOf(bi: seq<int>, bars: Bars): (r: seq<int>)
    requires bars.Covers(|bi|)
    ensures |r| == |bi|
  {
    if HasBoth(bi) then SegmentRun(bi, bars, |bi|) else Zeros(|bi|)
  }

  /** The series n levels up. */
  ghost function Level(bi: seq<int>, bars: Bars, n: nat): (r: seq<int>)
    requires bars.Covers(|bi|)
    ensures |r| == |bi|
  {
    if n == 0 then bi else SegmentsOf(Level(bi, bars, n - 1), bars)
  }

  /** Every level alternates, so the segments of one level can serve as the pens of the next. */
  lemma {:induction false} EveryLevelAlternates(bi: seq<int>, bars: Bars, n: nat)
    requires bars.Covers(|bi|) && Alternating(bi)
    ensures Alternating(Level(bi, bars, n))
    ensures n > 0 ==> (HasBoth(Level(bi, bars, n)) <==> HasBoth(Level(bi, bars, n - 1)))
  {
    if n > 0 {
      EveryLevelAlternates(bi, bars, n - 1);
      var b := Level(bi, bars, n - 1);
      var d := Level(bi, bars, n);
      if HasBoth(b) {
        SegmentsInOrder(b, bars, |b|, d);
        SomeSignals(d, |d|);
      }
    }
  }

  /** A series in which both signs are found searching back has both searching forward. */
  lemma SomeSignals(d: seq<int>, i: nat)
    requires i <= |d| && LastEq(d, 1, i) >= 0 && LastEq(d, -1, i) >= 0
    ensures HasBoth(d)
  {
    assert d[LastEq(d, 1, i)] == 1 && d[LastEq(d, -1, i)] == -1;
  }

  // ----- the pass itself -----

  method CalcDuan(duan: array<int>, bi: array<int>, bars: Bars)
    requires duan != bi && duan.Length == bi.Length && bars.Covers(bi.Length)
    requires Alternating(bi[..]) && duan[..] == Zeros(duan.Length)
    modifies duan
    ensures duan[..] == SegmentsOf(bi[..], bars)
  {
    var count := bi.Length;
    var firstBiD := FindNextEq(bi, -1, 0, count);
    var firstBiG := FindNextEq(bi, 1, 0, count);
    if firstBiD == -1 || firstBiG == -1 {
      return;
    }
    duan[firstBiD] := -1;
    duan[firstBiG] := 1;
    var i := (if firstBiD > firstBiG then firstBiD else firstBiG) + 1;
    RunFromSeed(duan, bi, bars, i);
  }

  /** The loop over the signals after the two first ones. */
  method RunFromSeed(duan: array<int>, bi: array<int>, bars: Bars, from: nat)
    requires duan != bi && duan.Length == bi.Length && bars.Covers(bi.Length)
    requires Alternating(bi[..]) && HasBoth(bi[..]) && from == SeedEnd(bi[..])
    requires duan[..] == Seeded(Zeros(duan.Length), bi[..])
    modifies duan
    ensures duan[..] == SegmentRun(bi[..], bars, bi.Length)
  {
    hide SegmentStep;
    ghost var b := bi[..];
    var i := from;
    while i < bi.Length
      invariant SeedEnd(b) <= i <= bi.Length
      invariant bi[..] == b && duan[..] == SegmentRun(b, bars, i)
    {
      ghost var d := duan[..];
      SegmentsInOrder(b, bars, i, d);
      ProcessSignal(duan, bi, bars, i, b, d);
      RunNext(b, bars, i, d, duan[..]);
      i := i + 1;
    }
  }

  /** The body of the pass. The assignment to the loop variable at its end has no effect and is left out. */
  method ProcessSignal(duan: array<int>, bi: array<int>, bars: Bars, i: nat, ghost b: seq<int>, ghost d: seq<int>)
    requires duan != bi && duan.Length == bi.Length && bars.Covers(bi.Length) && i < bi.Length
    requires b == bi[..] && d == duan[..]
    requires Underway(d, b, i) && Alternating(b)
    modifies duan
    ensures duan[..] == SegmentStep(d, b, bars, i)
  {
    if bi[i] != 1 && bi[i] != -1 {
      assert SegmentStep(d, b, bars, i) == d;
      return;
    }
    var lastTop := FindPrevEq(duan, 1, i);
    var lastBottom := FindPrevEq(duan, -1, i);
    var m: Move;
    if lastTop > lastBottom {
      LegsExist(d, b, i, 1);
      m := UpwardSegment(bi, bars, i, lastTop, lastBottom);
    } else {
      LegsExist(d, b, i, -1);
      m := DownwardSegment(bi, bars, i, lastTop, lastBottom);
    }
    assert SegmentStep(d, b, bars, i) == Applied(d, m, if lastTop > lastBottom then 1 else -1);
    Apply(duan, m, if lastTop > lastBottom then 1 else -1);
  }

  method Apply(duan: array<int>, m: Move, s: int)
    requires m.Shift? ==> m.from < duan.Length && m.till < duan.Length
    requires m.Confirm? ==> m.at < duan.Length
    modifies duan
    ensures duan[..] == Applied(old(duan[..]), m, s)
  {
    match m
    case Stay =>
    case Shift(from, till) =>
      duan[from] := 0;
      duan[till] := s;
    case Confirm(at) =>
      duan[at] := -s;
  }

  /** The last confirmed segment runs up. */
  method UpwardSegment(bi: array<int>, bars: Bars, i: nat, lastTop: nat, lastBottom: nat) returns (m: Move)
    requires lastBottom < lastTop < i < bi.Length && bars.Covers(bi.Length) && (bi[i] == 1 || bi[i] == -1)
    requires LegsReady(bi[..], i, -1, lastTop)
    ensures m == MoveFor(bi[..], bars, i, 1, lastTop, lastBottom)
  {
    m := Stay;
    if bi[i] == 1 {
      if bars.high[i] > bars.high[lastTop] {
        m := Shift(lastTop, i);
      }
    } else if bi[i] == -1 {
      if bars.low[i] < bars.low[lastBottom] {
        m := Confirm(i);
      } else {
        var i1 := FindNextEq(bi, -1, lastTop + 1, i);
        if 0 <= i1 < i {
          if bars.low[i] < bars.low[i1] {
            m := Confirm(i);
          } else {
            var d1 := i;
            var g1 := FindPrevEq(bi, 1, d1);
            var d2 := FindPrevEq(bi, -1, g1);
            var g2 := FindPrevEq(bi, 1, d2);
            if bars.low[d1] < bars.low[d2] && bars.high[g1] <= bars.high[g2] {
              var i2 := FirstLowest(bars, i1, i);
              m := Confirm(i2);
            }
          }
        }
      }
    }
  }

  /** The last confirmed segment runs down. */
  method DownwardSegment(bi: array<int>, bars: Bars, i: nat, lastTop: nat, lastBottom: nat) returns (m: Move)
    requires lastTop < lastBottom < i < bi.Length && bars.Covers(bi.Length) && (bi[i] == 1 || bi[i] == -1)
    requires LegsReady(bi[..], i, 1, lastBottom)
    ensures m == MoveFor(bi[..], bars, i, -1, lastBottom, lastTop)
  {
    m := Stay;
    if bi[i] == -1 {
      if bars.low[i] < bars.low[lastBottom] {
        m := Shift(lastBottom, i);
      }
    } else if bi[i] == 1 {
      if bars.high[i] > bars.high[lastTop] {
        m := Confirm(i);
      } else {
        var i1 := FindNextEq(bi, 1, lastBottom + 1, i);
        if 0 <= i1 < i {
          if bars.high[i] > bars.high[i1] {
            m := Confirm(i);
          } else {
            var g1 := i;
            var d1 := FindPrevEq(bi, -1, g1);
            var g2 := FindPrevEq(bi, 1, d1);
            var d2 := FindPrevEq(bi, -1, g2);
            if bars.high[g1] > bars.high[g2] && bars.low[d1] >= bars.low[d2] {
              var i2 := FirstHighest(bars, i1, i);
              m := Confirm(i2);
            }
          }
        }
      }
    }
  }
}
