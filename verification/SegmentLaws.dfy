/** What the segment pass does, stated from the signals and prices: at each signal, and over whole series. */
module SegmentLaws {
  import opened Search
  import opened Bars
  import opened Pens
  import opened Segments

  /** Bar i is beyond bar k in direction t: above it in its high for a top, below it in its low for a bottom. */
  predicate Beyond(bars: Bars, t: int, i: nat, k: nat)
    requires i < |bars.high| && k < |bars.high| && |bars.low| == |bars.high|
  {
    if t == 1 then bars.high[i] > bars.high[k] else bars.low[i] < bars.low[k]
  }

  /** The last segment before bar i runs from `before` to `last`, and ends there with sign s. */
  ghost predicate LastSegment(duan: seq<int>, i: nat, s: int, last: nat, before: nat)
  {
    && before < last < i <= |duan| && (s == 1 || s == -1) && duan[last] == s && duan[before] == -s
    && ZeroBetween(duan, before, last) && ZeroBetween(duan, last, |duan|)
  }

  lemma LastSegmentIs(duan: seq<int>, i: nat, s: int, last: nat, before: nat)
    requires LastSegment(duan, i, s, last, before)
    ensures Heading(duan, i) == s && LastEq(duan, s, i) == last && LastEq(duan, -s, i) == before
  {
    var top, bottom := LastEq(duan, 1, i), LastEq(duan, -1, i);
    assert s == 1 ==> top == last && bottom == before;
    assert s == -1 ==> bottom == last && top == before;
  }

  // ----- one signal -----

  /** A signal of the last segment's sign moves its end when it is beyond that. A signal against it ends a new segment
      when it is beyond the start of the last one, and else does nothing if it is the first against it. No other bar
      does anything. */
  lemma SignalMoves(duan: seq<int>, bi: seq<int>, bars: Bars, i: nat, s: int, last: nat, before: nat, r: seq<int>)
    requires i < |bi| && |duan| == |bi| && bars.Covers(|bi|) && LastSegment(duan, i, s, last, before)
    requires r == SegmentStep(duan, bi, bars, i)
    ensures bi[i] != s && bi[i] != -s ==> r == duan
    ensures bi[i] == s ==> r == if Beyond(bars, s, i, last) then duan[last := 0][i := s] else duan
    ensures bi[i] == -s && Beyond(bars, -s, i, before) ==> r == duan[i := -s]
    ensures bi[i] == -s && !Beyond(bars, -s, i, before) && (forall k :: last < k < i ==> bi[k] != -s) ==> r == duan
  {
    LastSegmentIs(duan, i, s, last, before);
  }

  /** The first signal against the last segment since that ended. */
  ghost predicate FirstAgainst(bi: seq<int>, s: int, last: nat, f: nat, i: nat)
  {
    last < f < i < |bi| && bi[f] == -s && forall k :: last < k < f ==> bi[k] != -s
  }

  /** A later signal against the last segment, not beyond its start: it ends a new one when it is beyond the first
      signal against it, f. Otherwise the two pens before it decide, which end at d2, g1 and at the signal itself:
      when it is beyond d2 and g1 is not beyond the signal g2 before that, the new segment ends at the first extreme
      bar since f; and if not, nothing happens. */
  lemma SignalAgainst(duan: seq<int>, bi: seq<int>, bars: Bars, i: nat, s: int, last: nat, before: nat, f: nat, g2: nat,
                      d2: nat, g1: nat, x: nat, r: seq<int>)
    requires i < |bi| && |duan| == |bi| && bars.Covers(|bi|) && LastSegment(duan, i, s, last, before)
    requires Alternating(bi) && bi[i] == -s && !Beyond(bars, -s, i, before) && FirstAgainst(bi, s, last, f, i)
    requires Neighbours(bi, g2, d2) && Neighbours(bi, d2, g1) && Neighbours(bi, g1, i)
    requires FirstExtreme(bars, -s, f, i, x)
    requires r == SegmentStep(duan, bi, bars, i)
    ensures r == if Beyond(bars, -s, i, f) then duan[i := -s]
                 else if Beyond(bars, -s, i, d2) && !Beyond(bars, s, g1, g2) then duan[x := -s]
                 else duan
  {
    hide Alternating, Neighbours, FirstAgainst, FirstExtreme, LastEq, NextEq, LastSegment, Signals;
    LastSegmentIs(duan, i, s, last, before);
    AgainstIs(bi, s, last, f, i);
    LegsAre(bi, s, i, g2, d2, g1);
    PeakIs(bars, -s, f, i, x);
  }

  lemma AgainstIs(bi: seq<int>, s: int, last: nat, f: nat, i: nat)
    requires FirstAgainst(bi, s, last, f, i)
    ensures NextEq(bi, -s, last + 1, i) == f && last < f < i
  {
  }

  lemma LegsAre(bi: seq<int>, s: int, i: nat, g2: nat, d2: nat, g1: nat)
    requires i < |bi| && Alternating(bi) && bi[i] == -s && (s == 1 || s == -1)
    requires Neighbours(bi, g2, d2) && Neighbours(bi, d2, g1) && Neighbours(bi, g1, i)
    ensures LastLegs(bi, -s, i) == Legs(g1, d2, g2) && g2 < d2 < g1 < i
  {
    assert bi[g1] == s && bi[d2] == -s && bi[g2] == s;
  }

  lemma PeakIs(bars: Bars, t: int, f: nat, i: nat, x: nat)
    requires f <= i < |bars.high| && |bars.low| == |bars.high| && FirstExtreme(bars, t, f, i, x)
    ensures bars.FirstPeak(t, f, i) == x && f <= x <= i
  {
    var peak := bars.FirstPeak(t, f, i);
    assert bars.Reach(t, x) <= bars.Reach(t, peak);
    assert !Beyond(bars, t, peak, x) && (peak < x ==> Beyond(bars, t, x, peak));
  }

  /** The first of the bars from f to i that none of them is beyond. */
  ghost predicate FirstExtreme(bars: Bars, t: int, f: nat, i: nat, x: nat)
    requires f <= i < |bars.high| && |bars.low| == |bars.high|
  {
    && f <= x <= i
    && (forall k :: f <= k <= i ==> !Beyond(bars, t, k, x))
    && (forall k :: f <= k < x ==> Beyond(bars, t, x, k))
  }

  /** There is one. */
  lemma FirstExtremeExists(bars: Bars, t: int, f: nat, i: nat) returns (x: nat)
    requires f <= i < |bars.high| && |bars.low| == |bars.high|
    ensures FirstExtreme(bars, t, f, i, x)
  {
    x := bars.FirstPeak(t, f, i);
    forall k | f <= k <= i
      ensures !Beyond(bars, t, k, x) && (k < x ==> Beyond(bars, t, x, k))
    {
      assert bars.Reach(t, k) <= bars.Reach(t, x);
    }
  }

  // ----- whole series -----

  /** p is the signal of the same sign before q. */
  ghost predicate SameBefore(bi: seq<int>, p: nat, q: nat)
  {
    p < q < |bi| && bi[q] != 0 && bi[p] == bi[q] && forall k :: p < k < q ==> bi[k] != bi[q]
  }

  /** Each signal is beyond the one of its sign before it. */
  ghost predicate Expanding(bi: seq<int>, bars: Bars)
    requires bars.Covers(|bi|)
  {
    forall p: nat, q: nat :: SameBefore(bi, p, q) ==> Beyond(bars, bi[q], q, p)
  }

  /** The signals before bar i. */
  function Before(bi: seq<int>, i: nat): (r: seq<int>)
    requires i <= |bi|
    ensures |r| == |bi| && forall k :: 0 <= k < |bi| ==> r[k] == if k < i then bi[k] else 0
  {
    bi[..i] + Zeros(|bi| - i)
  }

  /** The neighbours that end before bar i. */
  lemma LastNeighbours(bi: seq<int>, i: nat)
    requires Alternating(bi) && HasBoth(bi) && SeedEnd(bi) <= i <= |bi|
    ensures var p, q := LastEq(bi, -1, i), LastEq(bi, 1, i);
            && 0 <= p && 0 <= q && p != q
            && (if p < q then Neighbours(bi, p, q) && ZeroBetween(bi, q, i)
                else Neighbours(bi, q, p) && ZeroBetween(bi, p, i))
  {
    var p, q := LastEq(bi, -1, i), LastEq(bi, 1, i);
    assert bi[FirstOf(bi, -1)] == -1 && bi[FirstOf(bi, 1)] == 1;
  }

  /** The last segment of the signals before bar i, and what a signal at bar i is to it. */
  lemma SegmentBefore(bi: seq<int>, i: nat) returns (s: int, last: nat, before: nat)
    requires Alternating(bi) && HasBoth(bi) && SeedEnd(bi) <= i < |bi|
    ensures LastSegment(Before(bi, i), i, s, last, before)
    ensures bi[i] != 0 ==> bi[i] == -s && SameBefore(bi, before, i)
  {
    LastNeighbours(bi, i);
    var p, q := LastEq(bi, -1, i), LastEq(bi, 1, i);
    s := if p < q then 1 else -1;
    last, before := if p < q then q else p, if p < q then p else q;
    if bi[i] != 0 {
      assert Neighbours(bi, last, i);
    }
  }

  lemma NextBefore(bi: seq<int>, i: nat)
    requires i < |bi|
    ensures Before(bi, i + 1) == if bi[i] != 0 then Before(bi, i)[i := bi[i]] else Before(bi, i)
  {
  }

  lemma ExpandingStep(bi: seq<int>, bars: Bars, i: nat)
    requires Alternating(bi) && HasBoth(bi) && SeedEnd(bi) <= i < |bi| && bars.Covers(|bi|) && Expanding(bi, bars)
    ensures SegmentStep(Before(bi, i), bi, bars, i) == Before(bi, i + 1)
  {
    hide SegmentStep, Beyond, LastSegment, Alternating, HasBoth, SameBefore, Before;
    var s, last, before := SegmentBefore(bi, i);
    NextBefore(bi, i);
    SegmentSigns(Before(bi, i), i, s, last, before);
    SignalMoves(Before(bi, i), bi, bars, i, s, last, before, SegmentStep(Before(bi, i), bi, bars, i));
  }

  lemma SegmentSigns(d: seq<int>, i: nat, s: int, last: nat, before: nat)
    requires LastSegment(d, i, s, last, before)
    ensures (s == 1 || s == -1) && before < last < i
  {
  }

  lemma SeedsOnly(bi: seq<int>)
    requires Alternating(bi) && HasBoth(bi)
    ensures Seeded(Zeros(|bi|), bi) == Before(bi, SeedEnd(bi))
  {
    var p, q := FirstOf(bi, -1), FirstOf(bi, 1);
    var x := if p < q then p else q;
    forall k | 0 <= k < SeedEnd(bi) && k != p && k != q ensures bi[k] == 0 {
      if bi[k] != 0 && x < k {
        var m := NextSignal(bi, x + 1, k);
        assert Neighbours(bi, x, if m < k then m else k);
      }
    }
  }

  /** An expanding series is its own segment series: every pen is a segment. */
  lemma ExpandingSeries(bi: seq<int>, bars: Bars)
    requires Alternating(bi) && HasBoth(bi) && bars.Covers(|bi|) && Expanding(bi, bars)
    ensures SegmentsOf(bi, bars) == bi
  {
    ExpandingRun(bi, bars, |bi|);
  }

  lemma {:induction false} ExpandingRun(bi: seq<int>, bars: Bars, i: nat)
    requires Alternating(bi) && HasBoth(bi) && SeedEnd(bi) <= i <= |bi| && bars.Covers(|bi|) && Expanding(bi, bars)
    ensures SegmentRun(bi, bars, i) == Before(bi, i)
    decreases i
  {
    hide SegmentStep;
    if i == SeedEnd(bi) {
      SeedsOnly(bi);
    } else {
      ExpandingRun(bi, bars, i - 1);
      ExpandingStep(bi, bars, i - 1);
    }
  }

  /** In direction s each signal is beyond the one of its sign before it, against it none is: tops and bottoms rise for
      s == 1, and fall for s == -1. */
  ghost predicate Trending(bi: seq<int>, bars: Bars, s: int)
    requires bars.Covers(|bi|)
  {
    forall p: nat, q: nat :: SameBefore(bi, p, q) ==> (Beyond(bars, bi[q], q, p) <==> bi[q] == s)
  }

  /** A single segment from the first signal against s to the last signal s before bar i, after the first signal s if
      that comes earlier. */
  function Single(bi: seq<int>, s: int, i: nat): (r: seq<int>)
    requires i <= |bi| && HasBoth(bi) && (s == 1 || s == -1)
    ensures |r| == |bi|
  {
    var a, z, x := FirstOf(bi, -s), LastEq(bi, s, i), FirstOf(bi, s);
    seq(|bi|, k => if k == a then -s else if k == z || (k == x && x < a) then s else 0)
  }

  /** A trending series is one segment, from the first signal against the trend to the last one with it. */
  lemma TrendingSeries(bi: seq<int>, bars: Bars, s: int)
    requires Alternating(bi) && HasBoth(bi) && bars.Covers(|bi|) && (s == 1 || s == -1) && Trending(bi, bars, s)
    ensures SegmentsOf(bi, bars) == Single(bi, s, |bi|)
  {
    TrendingRun(bi, bars, s, |bi|);
  }

  lemma {:induction false} TrendingRun(bi: seq<int>, bars: Bars, s: int, i: nat)
    requires Alternating(bi) && HasBoth(bi) && SeedEnd(bi) <= i <= |bi| && bars.Covers(|bi|)
    requires (s == 1 || s == -1) && Trending(bi, bars, s)
    ensures SegmentRun(bi, bars, i) == Single(bi, s, i)
    decreases i
  {
    hide SegmentStep;
    if i == SeedEnd(bi) {
      SeedsOnly(bi);
      SingleSeeds(bi, s);
    } else {
      TrendingRun(bi, bars, s, i - 1);
      TrendingStep(bi, bars, s, i - 1);
    }
  }

  lemma SingleSeeds(bi: seq<int>, s: int)
    requires Alternating(bi) && HasBoth(bi) && (s == 1 || s == -1)
    ensures Single(bi, s, SeedEnd(bi)) == Seeded(Zeros(|bi|), bi)
  {
    SeedsOnly(bi);
    var z := LastEq(bi, s, SeedEnd(bi));
    assert Seeded(Zeros(|bi|), bi)[z] == s;
  }

  /** No later signal against the trend is beyond the first. */
  lemma {:induction false} NeverBeyond(bi: seq<int>, bars: Bars, s: int, q: nat)
    requires Alternating(bi) && HasBoth(bi) && bars.Covers(|bi|) && (s == 1 || s == -1) && Trending(bi, bars, s)
    requires q < |bi| && bi[q] == -s
    ensures FirstOf(bi, -s) <= q && !Beyond(bars, -s, q, FirstOf(bi, -s))
    decreases q
  {
    if FirstOf(bi, -s) < q {
      var p := LastEq(bi, -s, q);
      assert SameBefore(bi, p, q);
      NeverBeyond(bi, bars, s, p);
    }
  }

  /** Where the first signals and the last ones stand before bar i. */
  lemma FirstBefore(bi: seq<int>, s: int, i: nat)
    requires Alternating(bi) && HasBoth(bi) && SeedEnd(bi) <= i < |bi| && (s == 1 || s == -1)
    ensures var a, z, y := FirstOf(bi, -s), LastEq(bi, s, i), LastEq(bi, -s, i);
            && 0 <= a <= y < i && 0 <= z && a != z
            && (z < a ==> FirstOf(bi, s) == z && y == a)
            && (bi[i] == s ==> z < y) && (bi[i] == -s ==> y < z && forall k :: z < k < i ==> bi[k] != -s)
  {
    var a, z, y := FirstOf(bi, -s), LastEq(bi, s, i), LastEq(bi, -s, i);
    LastNeighbours(bi, i);
    if bi[i] != 0 {
      assert Neighbours(bi, if y < z then z else y, i);
    }
    if z < a && FirstOf(bi, s) < z {
      OppositeBetween(bi, FirstOf(bi, s), z);
    }
  }

  lemma TrendingStep(bi: seq<int>, bars: Bars, s: int, i: nat)
    requires Alternating(bi) && HasBoth(bi) && SeedEnd(bi) <= i < |bi| && bars.Covers(|bi|)
    requires (s == 1 || s == -1) && Trending(bi, bars, s)
    ensures SegmentStep(Single(bi, s, i), bi, bars, i) == Single(bi, s, i + 1)
  {
    hide SegmentStep, Beyond, Alternating, HasBoth, Trending, LastSegment, LastEq, SameBefore;
    FirstBefore(bi, s, i);
    if FirstOf(bi, -s) < LastEq(bi, s, i) {
      TrendingOn(bi, bars, s, i);
    } else {
      TrendingFirst(bi, bars, s, i);
    }
  }

  lemma LastHere(bi: seq<int>, s: int, i: nat)
    requires i < |bi|
    ensures LastEq(bi, s, i + 1) == if bi[i] == s then i else LastEq(bi, s, i)
  {
  }

  /** The segment is under way in direction s. */
  lemma TrendingOn(bi: seq<int>, bars: Bars, s: int, i: nat)
    requires Alternating(bi) && HasBoth(bi) && SeedEnd(bi) <= i < |bi| && bars.Covers(|bi|)
    requires (s == 1 || s == -1) && Trending(bi, bars, s) && 0 <= FirstOf(bi, -s) < LastEq(bi, s, i)
    ensures SegmentStep(Single(bi, s, i), bi, bars, i) == Single(bi, s, i + 1)
  {
    hide SegmentStep, Beyond, Alternating, HasBoth, LastEq, FirstOf;
    var d, a, z := Single(bi, s, i), FirstOf(bi, -s), LastEq(bi, s, i);
    FirstBefore(bi, s, i);
    LastHere(bi, s, i);
    assert LastSegment(d, i, s, z, a);
    SignalMoves(d, bi, bars, i, s, z, a, SegmentStep(d, bi, bars, i));
    if bi[i] == -s {
      NeverBeyond(bi, bars, s, i);
    } else if bi[i] == s {
      SameAs(bi, s, z, i);
    }
  }

  lemma SameAs(bi: seq<int>, s: int, z: nat, i: nat)
    requires i < |bi| && bi[i] == s && s != 0 && LastEq(bi, s, i) == z
    ensures SameBefore(bi, z, i)
  {
  }

  /** Its first end is still to come: the only segment so far runs against it. */
  lemma TrendingFirst(bi: seq<int>, bars: Bars, s: int, i: nat)
    requires Alternating(bi) && HasBoth(bi) && SeedEnd(bi) <= i < |bi| && bars.Covers(|bi|)
    requires (s == 1 || s == -1) && Trending(bi, bars, s) && FirstOf(bi, -s) >= LastEq(bi, s, i)
    ensures SegmentStep(Single(bi, s, i), bi, bars, i) == Single(bi, s, i + 1)
  {
    hide SegmentStep, Beyond, Alternating, HasBoth, LastEq, FirstOf;
    var d, a, z := Single(bi, s, i), FirstOf(bi, -s), LastEq(bi, s, i);
    FirstBefore(bi, s, i);
    LastHere(bi, s, i);
    assert LastSegment(d, i, -s, a, z);
    SignalMoves(d, bi, bars, i, -s, a, z, SegmentStep(d, bi, bars, i));
    if bi[i] == s {
      SameAs(bi, s, z, i);
    }
  }
}
