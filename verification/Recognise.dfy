/** The recognisers chained: pens from bars, segments from pens, and higher segments from segments. */
module Recognise {
  import opened Bars
  import opened Search
  import opened Pens
  import PL = PenLoop
  import S = Segments

  /** Some pen end of sign t reaches exactly as far as bar k. */
  ghost predicate PenEndAt(b: seq<int>, bars: Bars, t: int, k: nat)
    requires bars.Covers(|b|) && k < |b|
  {
    exists m :: 0 <= m < |b| && b[m] == t && bars.Reach(t, m) == bars.Reach(t, k)
  }

  /** The furthest bar between two pen ends of one sign is matched by a pen end of that sign. */
  lemma PeakIsPenEnd(b: seq<int>, bars: Bars, t: int, x: nat, y: nat)
    requires bars.Covers(|b|) && PensInOrder(b, bars) && (t == 1 || t == -1)
    requires x < y < |b| && b[x] == t && b[y] == t
    ensures PenEndAt(b, bars, t, bars.FirstPeak(t, x, y))
  {
    var k := bars.FirstPeak(t, x, y);
    if k < y {
      var p := LastSignal(b, k + 1);
      var q := NextSignal(b, k + 1, y + 1);
      assert x <= p <= k < q <= y;
      assert Neighbours(b, p, q);
      assert b[p] == -b[q] && Extreme(b, bars, p, q);
    }
  }

  ghost predicate EndsAtPens(d: seq<int>, b: seq<int>, bars: Bars)
    requires bars.Covers(|b|) && |d| == |b|
  {
    forall k :: 0 <= k < |d| && d[k] != 0 ==> PenEndAt(b, bars, d[k], k)
  }

  lemma MoveToPenEnd(b: seq<int>, bars: Bars, i: nat, s: int, last: nat, before: nat)
    requires bars.Covers(|b|) && PensInOrder(b, bars) && (s == 1 || s == -1)
    requires last < i < |b| && before < i
    ensures var m := S.MoveFor(b, bars, i, s, last, before);
            && (m.Shift? ==> PenEndAt(b, bars, s, i))
            && (m.Confirm? ==> PenEndAt(b, bars, -s, m.at))
  {
    var i1 := NextEq(b, -s, last + 1, i);
    if b[i] == -s && i1 >= 0 {
      PeakIsPenEnd(b, bars, -s, i1, i);
    }
  }

  lemma StepEndsAtPens(d: seq<int>, b: seq<int>, bars: Bars, i: nat, r: seq<int>)
    requires bars.Covers(|b|) && |d| == |b| && PensInOrder(b, bars) && i < |b| && EndsAtPens(d, b, bars)
    requires r == S.SegmentStep(d, b, bars, i)
    ensures EndsAtPens(r, b, bars)
  {
    var s := S.Heading(d, i);
    var last, before := LastEq(d, s, i), LastEq(d, -s, i);
    if last >= 0 && before >= 0 {
      MoveToPenEnd(b, bars, i, s, last, before);
      forall k | 0 <= k < |r| && r[k] != 0 ensures PenEndAt(b, bars, r[k], k) {
        if r[k] == d[k] {
          assert PenEndAt(b, bars, d[k], k);
        }
      }
    }
  }

  lemma SeedEndsAtPens(b: seq<int>, bars: Bars, d: seq<int>)
    requires bars.Covers(|b|) && S.HasBoth(b) && d == S.Seeded(Zeros(|b|), b)
    ensures EndsAtPens(d, b, bars)
  {
    var x, y := S.FirstOf(b, -1), S.FirstOf(b, 1);
    assert d == Zeros(|b|)[x := -1][y := 1] && b[x] == -1 && b[y] == 1;
    assert PenEndAt(b, bars, -1, x) && PenEndAt(b, bars, 1, y);
  }

  /** Every segment end lies at the price of a pen end of the same kind. */
  lemma {:induction false} SegmentEndsArePenEnds(b: seq<int>, bars: Bars, i: nat, d: seq<int>)
    requires bars.Covers(|b|) && PensInOrder(b, bars) && S.HasBoth(b) && S.SeedEnd(b) <= i <= |b|
    requires d == S.SegmentRun(b, bars, i)
    ensures EndsAtPens(d, b, bars)
    decreases i
  {
    if i == S.SeedEnd(b) {
      SeedEndsAtPens(b, bars, d);
    } else {
      var c := S.SegmentRun(b, bars, i - 1);
      SegmentEndsArePenEnds(b, bars, i - 1, c);
      StepEndsAtPens(c, b, bars, i - 1, d);
    }
  }

  method Recognise(bars: Bars) returns (bi: array<int>, duan: array<int>, higher: array<int>)
    requires bars.Covers(|bars.high|)
    ensures fresh(bi) && fresh(duan) && fresh(higher)
    ensures var n := |bars.high|;
            && bi.Length == duan.Length == higher.Length == n
            && bi[..] == PL.PenRun(Zeros(n), bars, n) && PensInOrder(bi[..], bars)
            && duan[..] == S.SegmentsOf(bi[..], bars) && S.Alternating(duan[..])
            && higher[..] == S.SegmentsOf(duan[..], bars) && S.Alternating(higher[..])
  {
    var n := |bars.high|;
    bi := new int[n](_ => 0);
    assert bi[..] == Zeros(n);
    PL.CalcBi(bi, bars);
    PL.PensAfterEveryBar(bars, n, n);
    duan := new int[n](_ => 0);
    S.CalcDuan(duan, bi, bars);
    S.EveryLevelAlternates(bi[..], bars, 1);
    assert S.Level(bi[..], bars, 0) == bi[..];
    higher := new int[n](_ => 0);
    S.CalcDuan(higher, duan, bars);
    S.EveryLevelAlternates(bi[..], bars, 2);
    assert S.Level(bi[..], bars, 1) == duan[..];
  }
}
