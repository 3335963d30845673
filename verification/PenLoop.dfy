/** The pen recogniser: the test for a single pen, the repair of earlier pens, and the pass over all bars. */
module PenLoop {
  import opened Search
  import opened Bars
  import opened Candles
  import opened Pens

  // ----- the test for a single pen, stated for both directions at once -----

  /** Bar k reaches further in direction t than some bar of [e, k). */
  ghost predicate BeatsSome(bars: Bars, t: int, e: nat, k: nat)
    requires e < k < |bars.high| && k < |bars.low|
  {
    exists j :: e <= j < k && bars.Reach(t, k) > bars.Reach(t, j)
  }

  /** Bar k is a turn after the end e of a pen in direction s: it stays inside the end
      and recovers in the other direction past some bar since the end. */
  ghost predicate TurnsAt(bars: Bars, s: int, e: nat, k: nat)
    requires e < k < |bars.high| && k < |bars.low|
  {
    bars.Reach(s, k) < bars.Reach(s, e) && BeatsSome(bars, -s, e, k)
  }

  /** The first bar from k on that passes the end e or turns away from it, or the number of bars. */
  ghost function FirstStop(bars: Bars, s: int, e: nat, k: nat): (r: nat)
    requires e < k <= |bars.high| && |bars.low| == |bars.high|
    ensures k <= r <= |bars.high|
    ensures r < |bars.high| ==> bars.Reach(s, r) > bars.Reach(s, e) || TurnsAt(bars, s, e, r)
    ensures forall j :: k <= j < r ==> bars.Reach(s, j) <= bars.Reach(s, e) && !TurnsAt(bars, s, e, j)
    decreases |bars.high| - k
  {
    if k == |bars.high| || bars.Reach(s, k) > bars.Reach(s, e) || TurnsAt(bars, s, e, k) then k
    else FirstStop(bars, s, e, k + 1)
  }

  /** The merged candles of the pen that led to bar `from`, if there was one. */
  function LeadingCandles(b: seq<int>, bars: Bars, from: nat, s: int): seq<Candle>
    requires bars.Covers(|b|) && from < |b|
  {
    var g := LastEq(b, s, from);
    if g >= 0 then Merged(bars, g, from + 1, -s).candles else []
  }

  /** The candles that make up the fractal a pen starts from. */
  function StartCandles(prev: seq<Candle>, cs: seq<Candle>): set<Candle>
    requires |cs| >= 2
  {
    {cs[0], cs[1]} + if |prev| > 1 then {prev[|prev| - 2]} else {}
  }

  /** The candles that make up the fractal a pen ends in. */
  ghost function EndCandles(bars: Bars, s: int, e: nat, cs: seq<Candle>): set<Candle>
    requires e < |bars.high| && |bars.low| == |bars.high| && |cs| >= 2
  {
    var stop := FirstStop(bars, s, e, e + 1);
    {cs[|cs| - 2], cs[|cs| - 1]} + if stop < |bars.high| then {Candle(bars.high[stop], bars.low[stop])} else {}
  }

  /** The bars from..e form a pen in direction s: at least five merged candles, the last not behind the one
      before, no later bar passing the end before it turns, and start and end fractals apart from each other. */
  ghost predicate IsPen(b: seq<int>, bars: Bars, from: nat, e: nat, s: int)
    requires bars.Covers(|b|) && from < |b| && e < |b|
  {
    && e - from >= 4
    && var cs := Merged(bars, from, e + 1, s).candles;
    && |cs| >= 5
    && cs[|cs| - 1].Reach(s) >= cs[|cs| - 2].Reach(s)
    && Confirmed(bars, s, e, LeadingCandles(b, bars, from, s), cs)
  }

  /** No later bar passes the end before the market turns, and start and end fractals do not overlap. */
  ghost predicate Confirmed(bars: Bars, s: int, e: nat, prev: seq<Candle>, cs: seq<Candle>)
    requires e < |bars.high| && |bars.low| == |bars.high| && |cs| >= 2
  {
    && var stop := FirstStop(bars, s, e, e + 1);
    && (stop < |bars.high| ==> bars.Reach(s, stop) <= bars.Reach(s, e))
    && Apart(StartCandles(prev, cs), EndCandles(bars, s, e, cs), s, -s)
  }

  /** No candle of the start reaches, in direction s, past the near side of a candle of the end. */
  ghost predicate Apart(starts: set<Candle>, ends: set<Candle>, s: int, t: int)
  {
    forall c, d :: c in starts && d in ends ==> c.Reach(s) <= -d.Reach(t)
  }

  /** Apart is a comparison of the furthest reaches of the two sides. */
  lemma ApartByExtremes(starts: set<Candle>, ends: set<Candle>, s: int, t: int, m: real, w: real)
    requires (forall c :: c in starts ==> c.Reach(s) <= m) && exists c :: c in starts && c.Reach(s) == m
    requires (forall d :: d in ends ==> d.Reach(t) <= w) && exists d :: d in ends && d.Reach(t) == w
    ensures Apart(starts, ends, s, t) <==> m <= -w
  {
  }

  method IsBi(bi: array<int>, bars: Bars, from: nat, e: nat, direction: int) returns (r: bool)
    requires bars.Covers(bi.Length) && from < bi.Length && e < bi.Length
    requires direction == 1 || direction == -1
    ensures r <==> IsPen(bi[..], bars, from, e, direction)
  {
    ghost var b := bi[..];
    if e - from < 4 {
      return false;
    }
    var prev: seq<Candle> := [];
    if direction == 1 {
      var g1 := FindPrevEq(bi, 1, from);
      if g1 >= 0 {
        prev := MergeCandles(bars, g1, from, -1);
      }
    }
    if direction == -1 {
      var d1 := FindPrevEq(bi, -1, from);
      if d1 >= 0 {
        prev := MergeCandles(bars, d1, from, 1);
      }
    }
    var cs := MergeCandles(bars, from, e, direction);
    var n := |cs|;
    if n < 5 {
      return false;
    }
    if direction == 1 {
      if cs[n - 1].high < cs[n - 2].high {
        return false;
      }
    } else if direction == -1 {
      if cs[n - 1].low > cs[n - 2].low {
        return false;
      }
    }
    if direction == 1 {
      r := TopConfirmed(bars, e, prev, cs);
    } else {
      r := BottomConfirmed(bars, e, prev, cs);
    }
  }

  method TopConfirmed(bars: Bars, e: nat, prev: seq<Candle>, cs: seq<Candle>) returns (r: bool)
    requires e < |bars.high| && |bars.low| == |bars.high| && |cs| >= 2
    ensures r <==> Confirmed(bars, 1, e, prev, cs)
  {
    var n := |cs|;
    var bottomHigh := Max(cs[0].high, cs[1].high);
    if |prev| > 1 {
      bottomHigh := Max(bottomHigh, prev[|prev| - 2].high);
    }
    var passed, stop := FindTurnDown(bars, e);
    if passed {
      return false;
    }
    var topLow := Min(cs[n - 2].low, cs[n - 1].low);
    if stop < |bars.high| {
      topLow := Min(topLow, bars.low[stop]);
    }
    ApartByExtremes(StartCandles(prev, cs), EndCandles(bars, 1, e, cs), 1, -1, bottomHigh, -topLow);
    r := !(topLow < bottomHigh);
  }

  method BottomConfirmed(bars: Bars, e: nat, prev: seq<Candle>, cs: seq<Candle>) returns (r: bool)
    requires e < |bars.high| && |bars.low| == |bars.high| && |cs| >= 2
    ensures r <==> Confirmed(bars, -1, e, prev, cs)
  {
    var n := |cs|;
    var topLow := Min(cs[0].low, cs[1].low);
    if |prev| > 1 {
      topLow := Min(topLow, prev[|prev| - 2].low);
    }
    var passed, stop := FindTurnUp(bars, e);
    if passed {
      return false;
    }
    var bottomHigh := Max(cs[n - 2].high, cs[n - 1].high);
    if stop < |bars.high| {
      bottomHigh := Max(bottomHigh, bars.high[stop]);
    }
    ApartByExtremes(StartCandles(prev, cs), EndCandles(bars, -1, e, cs), -1, 1, -topLow, bottomHigh);
    r := !(bottomHigh > topLow);
  }

  /** The bars after a top: does one pass the top before the market turns down, and where does the search end? */
  method FindTurnDown(bars: Bars, e: nat) returns (passed: bool, stop: nat)
    requires e < |bars.high| && |bars.low| == |bars.high|
    ensures stop == FirstStop(bars, 1, e, e + 1)
    ensures passed <==> stop < |bars.high| && bars.Reach(1, stop) > bars.Reach(1, e)
  {
    stop := e + 1;
    var tempLow := bars.low[e];
    assert -bars.Reach(-1, e) == tempLow;
    while stop < |bars.high|
      invariant e < stop <= |bars.high|
      invariant FirstStop(bars, 1, e, e + 1) == FirstStop(bars, 1, e, stop)
      invariant forall j :: e <= j < stop ==> -bars.Reach(-1, j) <= tempLow
      invariant exists j :: e <= j < stop && -bars.Reach(-1, j) == tempLow
    {
      assert BeatsSome(bars, -1, e, stop) <==> bars.low[stop] < tempLow;
      if bars.high[stop] > bars.high[e] {
        return true, stop;
      } else if bars.high[stop] < bars.high[e] && bars.low[stop] < tempLow {
        return false, stop;
      } else {
        tempLow := Max(tempLow, bars.low[stop]);
        stop := stop + 1;
      }
    }
    passed := false;
  }

  /** The mirror image after a bottom. */
  method FindTurnUp(bars: Bars, e: nat) returns (passed: bool, stop: nat)
    requires e < |bars.high| && |bars.low| == |bars.high|
    ensures stop == FirstStop(bars, -1, e, e + 1)
    ensures passed <==> stop < |bars.high| && bars.Reach(-1, stop) > bars.Reach(-1, e)
  {
    stop := e + 1;
    var tempHigh := bars.high[e];
    assert bars.Reach(1, e) == tempHigh;
    while stop < |bars.high|
      invariant e < stop <= |bars.high|
      invariant FirstStop(bars, -1, e, e + 1) == FirstStop(bars, -1, e, stop)
      invariant forall j :: e <= j < stop ==> bars.Reach(1, j) >= tempHigh
      invariant exists j :: e <= j < stop && bars.Reach(1, j) == tempHigh
    {
      assert BeatsSome(bars, 1, e, stop) <==> bars.high[stop] > tempHigh;
      if bars.low[stop] < bars.low[e] {
        return true, stop;
      } else if bars.high[stop] > tempHigh && bars.low[stop] > bars.low[e] {
        return false, stop;
      } else {
        tempHigh := Min(tempHigh, bars.high[stop]);
        stop := stop + 1;
      }
    }
    passed := false;
  }

  // ----- the repair -----

  method AdjustBi(bi: array<int>, bars: Bars, x: nat, y: nat) returns (r: nat)
    requires x < bi.Length && y < bi.Length && bars.Covers(bi.Length)
    modifies bi
    ensures bi[..] == Adjusted(old(bi[..]), bars, x, y)
    ensures r == AdjustedEnd(old(bi[..]), bars, x, y)
    decreases Count(bi[..])
  {
    ghost var b := bi[..];
    if bi[x] == 1 && bi[y] == -1 {
      var xx := FirstHighest(bars, x, y);
      if xx > x {
        bi[x] := 0;
        bi[y] := 0;
        bi[xx] := 1;
        assert bi[..] == Moved(b, x, y, xx);
        var j := FindPrevEq(bi, -1, xx);
        if j >= 0 {
          r := AdjustBi(bi, bars, j, xx);
          return;
        }
        return xx;
      }
    } else if bi[x] == -1 && bi[y] == 1 {
      var xx := FirstLowest(bars, x, y);
      if xx > x {
        bi[x] := 0;
        bi[y] := 0;
        bi[xx] := -1;
        assert bi[..] == Moved(b, x, y, xx);
        var j := FindPrevEq(bi, 1, xx);
        if j >= 0 {
          r := AdjustBi(bi, bars, j, xx);
          return;
        }
        return xx;
      }
    }
    return y;
  }

  // ----- one bar -----

  /** A breakout in direction s alone: the pen is drawn when there is no signal at all yet, when the last
      signal already points this way, or when the bars since the last opposite signal form a pen. */
  ghost function SingleBreakout(b: seq<int>, bars: Bars, s: int, i: nat): (r: seq<int>)
    requires 0 < i < |b| && bars.Covers(|b|)
    ensures |r| == |b|
  {
    var o, o' := Origin(b, s, i), Origin(b, -s, i);
    if (o == 0 && o' == 0) || o' > o || IsPen(b, bars, o, i, s) then Drawn(b, bars, s, o, i) else b
  }

  /** What bar i does to the series. */
  ghost function PenStep(b: seq<int>, bars: Bars, i: nat): (r: seq<int>)
    requires 0 < i < |b| && bars.Covers(|b|)
    ensures |r| == |b|
  {
    var up := bars.BreaksOut(1, Origin(b, 1, i), i);
    var down := bars.BreaksOut(-1, Origin(b, -1, i), i);
    if up && down then DoubleBreakout(b, bars, i)
    else if up then SingleBreakout(b, bars, 1, i)
    else if down then SingleBreakout(b, bars, -1, i)
    else b
  }

  /** The series after the bars below i. */
  ghost function PenRun(b: seq<int>, bars: Bars, i: nat): (r: seq<int>)
    requires i <= |b| && bars.Covers(|b|)
    ensures |r| == |b|
    decreases i
  {
    if i <= 1 then b else PenStep(PenRun(b, bars, i - 1), bars, i - 1)
  }

  method HighestBefore(bars: Bars, x: nat, i: nat) returns (m: real)
    requires x < i <= |bars.high| && |bars.low| == |bars.high|
    ensures forall k :: x <= k < i ==> bars.Reach(1, k) <= m
    ensures exists k :: x <= k < i && bars.Reach(1, k) == m
  {
    m := bars.high[x];
    assert bars.Reach(1, x) == m;
    for k := x + 1 to i
      invariant forall j :: x <= j < k ==> bars.Reach(1, j) <= m
      invariant exists j :: x <= j < k && bars.Reach(1, j) == m
    {
      assert bars.Reach(1, k) == bars.high[k];
      m := Max(m, bars.high[k]);
    }
  }

  method LowestBefore(bars: Bars, x: nat, i: nat) returns (m: real)
    requires x < i <= |bars.high| && |bars.low| == |bars.high|
    ensures forall k :: x <= k < i ==> bars.Reach(-1, k) <= -m
    ensures exists k :: x <= k < i && bars.Reach(-1, k) == -m
  {
    m := bars.low[x];
    assert bars.Reach(-1, x) == -m;
    for k := x + 1 to i
      invariant forall j :: x <= j < k ==> bars.Reach(-1, j) <= -m
      invariant exists j :: x <= j < k && bars.Reach(-1, j) == -m
    {
      assert bars.Reach(-1, k) == -bars.low[k];
      m := Min(m, bars.low[k]);
    }
  }

  method ClearBetween(bi: array<int>, from: int, till: nat)
    requires -1 <= from && till <= bi.Length
    modifies bi
    ensures bi[..] == Cleared(old(bi[..]), from, till)
  {
    ghost var b := bi[..];
    var k := from + 1;
    while k < till
      invariant from < k
      invariant from + 1 <= till ==> k <= till
      invariant forall j :: 0 <= j < bi.Length ==> bi[j] == if from < j < k && j < till then 0 else b[j]
    {
      bi[k] := 0;
      k := k + 1;
    }
  }

  /** The back-search of a bar that breaks out both ways. */
  method ResolveDouble(bi: array<int>, bars: Bars, i: nat)
    requires 0 < i < bi.Length && bars.Covers(bi.Length)
    modifies bi
    ensures bi[..] == DoubleBreakout(old(bi[..]), bars, i)
  {
    ghost var b := bi[..];
    var idx := i - 1;
    while idx >= 0
      invariant -1 <= idx < i
      invariant bi[..] == b
      invariant LastUnbeaten(b, bars, i, i) == LastUnbeaten(b, bars, idx + 1, i)
    {
      if bi[idx] == 1 && bars.high[idx] > bars.high[i] {
        bi[i] := -1;
        ClearBetween(bi, idx, i);
        return;
      } else if bi[idx] == -1 && bars.low[idx] < bars.low[i] {
        bi[i] := 1;
        ClearBetween(bi, idx, i);
        return;
      }
      idx := idx - 1;
    }
  }

  method ProcessBar(bi: array<int>, bars: Bars, i: nat)
    requires 0 < i < bi.Length && bars.Covers(bi.Length)
    modifies bi
    ensures bi[..] == PenStep(old(bi[..]), bars, i)
  {
    ghost var b := bi[..];
    var x := FindPrevEq(bi, -1, i);
    x := if x < 0 then 0 else x;
    var y := FindPrevEq(bi, 1, i);
    y := if y < 0 then 0 else y;
    var maxHigh := HighestBefore(bars, x, i);
    var minLow := LowestBefore(bars, y, i);
    var b1 := bars.high[i] > maxHigh;
    var b2 := bars.low[i] < minLow;
    assert b1 <==> bars.BreaksOut(1, Origin(b, 1, i), i);
    assert b2 <==> bars.BreaksOut(-1, Origin(b, -1, i), i);
    if b1 && b2 {
      ResolveDouble(bi, bars, i);
    } else if b1 {
      var drawn := (x == y && x == 0) || y > x;
      if !drawn {
        drawn := IsBi(bi, bars, x, i, 1);
      }
      if drawn {
        bi[x] := -1;
        bi[i] := 1;
        ClearBetween(bi, x, i);
        var _ := AdjustBi(bi, bars, x, i);
      }
    } else if b2 {
      var drawn := (x == y && y == 0) || x > y;
      if !drawn {
        drawn := IsBi(bi, bars, y, i, -1);
      }
      if drawn {
        bi[y] := 1;
        bi[i] := -1;
        ClearBetween(bi, y, i);
        var _ := AdjustBi(bi, bars, y, i);
      }
    }
  }

  /** The pass over all bars. */
  method CalcBi(bi: array<int>, bars: Bars)
    requires bars.Covers(bi.Length)
    modifies bi
    ensures bi[..] == PenRun(old(bi[..]), bars, bi.Length)
  {
    var i := 1;
    while i < bi.Length
      invariant 1 <= i && (bi.Length >= 1 ==> i <= bi.Length)
      invariant i <= bi.Length ==> bi[..] == PenRun(old(bi[..]), bars, i)
      invariant bi.Length == 0 ==> bi[..] == old(bi[..])
    {
      ProcessBar(bi, bars, i);
      i := i + 1;
    }
  }

  // ----- what every bar keeps -----

  lemma PenStepKeeps(b: seq<int>, bars: Bars, i: nat)
    requires 0 < i < |b| && bars.Covers(|b|) && PensInOrder(b, bars) && ZeroBetween(b, i - 1, |b|)
    ensures PensInOrder(PenStep(b, bars, i), bars) && ZeroBetween(PenStep(b, bars, i), i, |b|)
  {
    if bars.BreaksOut(1, Origin(b, 1, i), i) && bars.BreaksOut(-1, Origin(b, -1, i), i) {
      DoubleBreakoutKeeps(b, bars, i);
    } else if bars.BreaksOut(1, Origin(b, 1, i), i) {
      DrawnKeeps(b, bars, 1, i);
    } else if bars.BreaksOut(-1, Origin(b, -1, i), i) {
      DrawnKeeps(b, bars, -1, i);
    }
  }

  /** Started from all zeros, after every bar the signals alternate and every pen is extreme. */
  lemma {:induction false} PensAfterEveryBar(bars: Bars, n: nat, i: nat)
    requires bars.Covers(n) && i <= n
    ensures PensInOrder(PenRun(Zeros(n), bars, i), bars)
    ensures ZeroBetween(PenRun(Zeros(n), bars, i), i - 1, n)
    decreases i
  {
    if i > 1 {
      PensAfterEveryBar(bars, n, i - 1);
      PenStepKeeps(PenRun(Zeros(n), bars, i - 1), bars, i - 1);
    }
  }

  /** The series that holds a single pen in direction s, from bar 0 to bar e. */
  function OnePen(n: nat, s: int, e: nat): (r: seq<int>)
    requires 0 < e < n
    ensures |r| == n && forall k :: 0 <= k < n ==> r[k] == if k == 0 then -s else if k == e then s else 0
  {
    Zeros(n)[0 := -s][e := s]
  }

  /** Each of the first m bars reaches further in direction s than all before it, and in the other direction than
      none. */
  ghost predicate OneWay(bars: Bars, m: nat, s: int, t: int)
    requires m <= |bars.high| && m <= |bars.low|
  {
    (forall k :: 0 < k < m ==> bars.BreaksOut(s, 0, k)) && (forall k :: 0 < k < m ==> !BeatsSome(bars, t, 0, k))
  }

  /** One more bar of such a market moves the end of the only pen. */
  lemma OneWayStep(bars: Bars, n: nat, s: int, e: nat, b: seq<int>)
    requires 0 < e < n && bars.Covers(n) && (s == 1 || s == -1) && OneWay(bars, e + 1, s, -s)
    requires b == if e == 1 then Zeros(n) else OnePen(n, s, e - 1)
    ensures PenStep(b, bars, e) == OnePen(n, s, e)
  {
    assert Origin(b, s, e) == 0;
    assert Origin(b, -s, e) == e - 1;
    assert !BeatsSome(bars, -s, 0, e);
    assert !bars.BreaksOut(-s, e - 1, e) by {
      assert bars.Reach(-s, e) <= bars.Reach(-s, e - 1);
    }
    var c := Cleared(b[0 := -s][e := s], 0, e);
    assert c == OnePen(n, s, e);
    var t := -s;
    forall k | 0 < k <= e ensures bars.Reach(t, k) <= bars.Reach(t, 0) {
      assert !BeatsSome(bars, t, 0, k);
    }
    assert bars.FirstPeak(-s, 0, e) == 0;
    assert Drawn(b, bars, s, 0, e) == c;
  }

  /** As long as the market has moved one way only, exactly one pen is recognised, whatever follows. */
  lemma {:induction false} OneWayMarket(bars: Bars, n: nat, s: int, i: nat)
    requires 2 <= i <= n && bars.Covers(n) && (s == 1 || s == -1) && OneWay(bars, i, s, -s)
    ensures PenRun(Zeros(n), bars, i) == OnePen(n, s, i - 1)
    decreases i
  {
    hide PenStep;
    if i > 2 {
      assert OneWay(bars, i - 1, s, -s);
      OneWayMarket(bars, n, s, i - 1);
    }
    OneWayStep(bars, n, s, i - 1, PenRun(Zeros(n), bars, i - 1));
  }
}
