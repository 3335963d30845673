/** What the pass over the bars recognises in whole markets, stated from the bars. */
module PenMarkets {
  import opened Search
  import opened Bars
  import opened Candles
  import opened Pens
  import opened PenLoop

  // ----- legs -----

  /** From bar x to bar y each bar is higher than the one before it, in high and low; for s == -1 it is lower. */
  ghost predicate Leg(bars: Bars, s: int, x: nat, y: nat)
    requires y < |bars.high| && y < |bars.low|
  {
    forall k, j :: x <= k && j == k + 1 && j <= y ==>
      if s == 1 then bars.high[k] < bars.high[j] && bars.low[k] < bars.low[j]
      else bars.high[j] < bars.high[k] && bars.low[j] < bars.low[k]
  }

  /** The bars from x to y as candles. */
  function CandlesOf(bars: Bars, x: nat, y: nat): (cs: seq<Candle>)
    requires x <= y < |bars.high| && y < |bars.low|
  {
    seq(y - x + 1, k requires 0 <= k < y - x + 1 => Candle(bars.high[x + k], bars.low[x + k]))
  }

  lemma {:induction false} LegOrder(bars: Bars, s: int, x: nat, y: nat, i: nat, j: nat)
    requires y < |bars.high| && y < |bars.low| && (s == 1 || s == -1) && Leg(bars, s, x, y) && x <= i < j <= y
    ensures bars.Reach(s, i) < bars.Reach(s, j)
    ensures bars.Reach(-s, j) < bars.Reach(-s, i)
    decreases j
  {
    if i < j - 1 {
      LegOrder(bars, s, x, y, i, j - 1);
    }
  }

  /** Nothing is merged in a leg. */
  lemma {:induction false} LegMerged(bars: Bars, s: int, x: nat, y: nat, direction: int)
    requires x <= y < |bars.high| && y < |bars.low| && (s == 1 || s == -1) && Leg(bars, s, x, y)
    ensures Merged(bars, x, y + 1, direction).candles == CandlesOf(bars, x, y)
    decreases y
  {
    if x < y {
      LegMerged(bars, s, x, y - 1, direction);
      LegOrder(bars, s, x, y, y - 1, y);
      assert CandlesOf(bars, x, y) == CandlesOf(bars, x, y - 1) + [Candle(bars.high[y], bars.low[y])];
    } else {
      assert Merged(bars, x, x, direction).candles == [];
    }
  }

  // ----- one more leg -----

  /** The leg from a to z spans four bars, and no bar at its start, counting one before it, overlaps a bar at its end,
      counting one after it. */
  ghost predicate Clear(bars: Bars, s: int, a: nat, z: nat)
    requires 0 < a && a + 1 < |bars.high| && 0 < z < |bars.high| && |bars.low| == |bars.high|
  {
    && z - a >= 4
    && forall c, d :: a - 1 <= c <= a + 1 && z - 1 <= d <= z + 1 && d < |bars.high| ==>
         if s == 1 then bars.high[c] <= bars.low[d] else bars.high[d] <= bars.low[c]
  }

  /** The series has its last two signals at g and a, a leg of direction -s leads there, and a leg of direction s
      follows to z, where the bars end or turn. */
  ghost predicate NextLeg(b: seq<int>, bars: Bars, s: int, g: nat, a: nat, z: nat)
    requires bars.Covers(|b|)
  {
    && g < a < z < |b| && (s == 1 || s == -1)
    && b[g] == s && b[a] == -s && ZeroBetween(b, g, a) && ZeroBetween(b, a, |b|)
    && Leg(bars, -s, g, a) && Leg(bars, s, a, z)
    && (z + 1 < |b| ==> Leg(bars, -s, z, z + 1))
  }

  lemma LastTwo(b: seq<int>, bars: Bars, s: int, g: nat, a: nat, z: nat, i: nat)
    requires bars.Covers(|b|) && NextLeg(b, bars, s, g, a, z) && a < i <= z
    ensures LastEq(b, -s, i) == a && LastEq(b, s, i) == g && LastEq(b, s, a) == g
  {
  }

  /** Before its end, a leg is not yet a pen. */
  lemma NotYet(b: seq<int>, bars: Bars, s: int, g: nat, a: nat, z: nat, i: nat)
    requires bars.Covers(|b|) && NextLeg(b, bars, s, g, a, z) && a < i < z
    ensures !IsPen(b, bars, a, i, s)
  {
    LegOrder(bars, s, a, z, i, i + 1);
    assert FirstStop(bars, s, i, i + 1) == i + 1;
  }

  /** Where the search for a turn after the end of the leg stops. */
  lemma StopAfter(b: seq<int>, bars: Bars, s: int, g: nat, a: nat, z: nat)
    requires bars.Covers(|b|) && NextLeg(b, bars, s, g, a, z)
    ensures FirstStop(bars, s, z, z + 1) == z + 1
    ensures z + 1 < |b| ==> bars.Reach(s, z + 1) < bars.Reach(s, z)
  {
    if z + 1 < |b| {
      LegOrder(bars, -s, z, z + 1, z, z + 1);
      assert BeatsSome(bars, -s, z, z + 1);
    }
  }

  /** At its end the leg is a pen exactly when it is clear. */
  lemma PenWhenClear(b: seq<int>, bars: Bars, s: int, g: nat, a: nat, z: nat)
    requires bars.Covers(|b|) && NextLeg(b, bars, s, g, a, z)
    ensures IsPen(b, bars, a, z, s) <==> Clear(bars, s, a, z)
  {
    hide Apart, StartCandles, EndCandles, FirstStop, Merged, Leg, Clear;
    LegMerged(bars, s, a, z, s);
    LegMerged(bars, -s, g, a, -s);
    LastTwo(b, bars, s, g, a, z, z);
    StopAfter(b, bars, s, g, a, z);
    var cs, prev := CandlesOf(bars, a, z), CandlesOf(bars, g, a);
    if z - a >= 4 {
      LegOrder(bars, s, a, z, z - 1, z);
      assert prev[|prev| - 2] == Candle(bars.high[a - 1], bars.low[a - 1]);
      ClearIsApart(bars, s, a, z, prev, cs);
    } else {
      NotClear(bars, s, a, z);
    }
  }

  lemma NotClear(bars: Bars, s: int, a: nat, z: nat)
    requires 0 < a < z < |bars.high| && |bars.low| == |bars.high| && z - a < 4
    ensures !Clear(bars, s, a, z)
  {
  }

  lemma ClearIsApart(bars: Bars, s: int, a: nat, z: nat, prev: seq<Candle>, cs: seq<Candle>)
    requires 0 < a && a + 4 <= z < |bars.high| && |bars.low| == |bars.high| && (s == 1 || s == -1)
    requires cs == CandlesOf(bars, a, z) && FirstStop(bars, s, z, z + 1) == z + 1
    requires |prev| > 1 && prev[|prev| - 2] == Candle(bars.high[a - 1], bars.low[a - 1])
    ensures Apart(StartCandles(prev, cs), EndCandles(bars, s, z, cs), s, -s) <==> Clear(bars, s, a, z)
  {
    var starts, ends := StartCandles(prev, cs), EndCandles(bars, s, z, cs);
    if Apart(starts, ends, s, -s) {
      forall c, d | a - 1 <= c <= a + 1 && z - 1 <= d <= z + 1 && d < |bars.high|
        ensures if s == 1 then bars.high[c] <= bars.low[d] else bars.high[d] <= bars.low[c]
      {
        assert Candle(bars.high[c], bars.low[c]) in starts && Candle(bars.high[d], bars.low[d]) in ends;
      }
    }
    if Clear(bars, s, a, z) {
      forall c, d | c in starts && d in ends ensures c.Reach(s) <= -d.Reach(-s) {
        var i :| a - 1 <= i <= a + 1 && c == Candle(bars.high[i], bars.low[i]);
        var j :| z - 1 <= j <= z + 1 && j < |bars.high| && d == Candle(bars.high[j], bars.low[j]);
      }
    }
  }

  /** What a bar of the leg does: only the last one does anything, and only when the leg is clear. */
  lemma LegStep(b: seq<int>, bars: Bars, s: int, g: nat, a: nat, z: nat, i: nat)
    requires bars.Covers(|b|) && NextLeg(b, bars, s, g, a, z) && a < i <= z
    ensures PenStep(b, bars, i) == if i == z && Clear(bars, s, a, z) then b[z := s] else b
  {
    LastTwo(b, bars, s, g, a, z, i);
    forall k | a <= k < i ensures bars.Reach(s, k) < bars.Reach(s, i) {
      LegOrder(bars, s, a, z, k, i);
    }
    LegOrder(bars, s, a, z, a, i);
    var t := -s;
    assert !bars.BreaksOut(t, g, i) by {
      assert bars.Reach(t, i) < bars.Reach(t, a);
    }
    if i < z {
      NotYet(b, bars, s, g, a, z, i);
    } else {
      PenWhenClear(b, bars, s, g, a, z);
      if Clear(bars, s, a, z) {
        LegDrawn(b, bars, s, g, a, z);
      }
    }
  }

  lemma LegDrawn(b: seq<int>, bars: Bars, s: int, g: nat, a: nat, z: nat)
    requires bars.Covers(|b|) && NextLeg(b, bars, s, g, a, z)
    ensures Drawn(b, bars, s, a, z) == b[z := s]
  {
    assert Cleared(b[a := -s][z := s], a, z) == b[z := s];
    var r := bars.FirstPeak(-s, a, z);
    if r > a {
      LegOrder(bars, s, a, z, a, r);
    }
  }

  /** The whole leg adds its end exactly when it is clear. */
  lemma {:induction false} LegRun(bars: Bars, n: nat, b: seq<int>, s: int, g: nat, a: nat, z: nat, i: nat)
    requires bars.Covers(n) && |b| == n && g < a < z < n && NextLeg(b, bars, s, g, a, z) && a < i <= z + 1
    requires PenRun(Zeros(n), bars, a + 1) == b
    ensures PenRun(Zeros(n), bars, i) == if i == z + 1 && Clear(bars, s, a, z) then b[z := s] else b
    decreases i
  {
    hide PenStep, NextLeg, Clear;
    if i > a + 1 {
      LegRun(bars, n, b, s, g, a, z, i - 1);
      LegStep(b, bars, s, g, a, z, i - 1);
    }
  }

  /** A market that moves one way to bar e, and the other way from there to the last bar. When the second leg spans
      four bars and ends clear of the bars around the turn, it is recognised as exactly two pens, with their ends at
      the first bar, at the turn and at the last bar; otherwise only the first pen is. */
  lemma TurningMarket(bars: Bars, n: nat, s: int, e: nat)
    requires 0 < e < n - 1 && bars.Covers(n) && (s == 1 || s == -1)
    requires Leg(bars, s, 0, e) && Leg(bars, -s, e, n - 1)
    ensures PenRun(Zeros(n), bars, n) ==
            var two := n - 1 - e >= 4
                       && (if s == 1 then bars.high[n - 2] <= bars.low[e - 1] && bars.high[n - 2] <= bars.low[e + 1]
                           else bars.high[e - 1] <= bars.low[n - 2] && bars.high[e + 1] <= bars.low[n - 2]);
            seq(n, k => if k == 0 then -s else if k == e then s else if k == n - 1 && two then -s else 0)
  {
    hide PenRun, Clear, Leg;
    FirstLeg(bars, n, s, e);
    var b := OnePen(n, s, e);
    assert NextLeg(b, bars, -s, 0, e, n - 1);
    LegRun(bars, n, b, -s, 0, e, n - 1, n);
    TurnIsClear(bars, n, s, e);
  }

  lemma FirstLeg(bars: Bars, n: nat, s: int, e: nat)
    requires 0 < e < n && bars.Covers(n) && (s == 1 || s == -1) && Leg(bars, s, 0, e)
    ensures PenRun(Zeros(n), bars, e + 1) == OnePen(n, s, e)
  {
    var t := -s;
    forall j, k | 0 <= j < k <= e ensures bars.Reach(s, j) < bars.Reach(s, k) && bars.Reach(t, k) < bars.Reach(t, j) {
      LegOrder(bars, s, 0, e, j, k);
    }
    assert OneWay(bars, e + 1, s, t);
    OneWayMarket(bars, n, s, e + 1);
  }

  lemma TurnIsClear(bars: Bars, n: nat, s: int, e: nat)
    requires 0 < e < n - 1 && bars.Covers(n) && (s == 1 || s == -1)
    requires Leg(bars, s, 0, e) && Leg(bars, -s, e, n - 1)
    ensures Clear(bars, -s, e, n - 1) <==>
            n - 1 - e >= 4
            && (if s == 1 then bars.high[n - 2] <= bars.low[e - 1] && bars.high[n - 2] <= bars.low[e + 1]
                else bars.high[e - 1] <= bars.low[n - 2] && bars.high[e + 1] <= bars.low[n - 2])
  {
    LegPair(bars, s, 0, e, e - 1);
    LegPair(bars, -s, e, n - 1, e);
    LegPair(bars, -s, e, n - 1, n - 2);
    hide Leg;
    if n - 1 - e >= 4 {
      SixPairs(bars, -s, e, n - 1);
    } else {
      NotClear(bars, -s, e, n - 1);
    }
  }

  lemma LegPair(bars: Bars, s: int, x: nat, y: nat, k: nat)
    requires y < |bars.high| && y < |bars.low| && Leg(bars, s, x, y) && x <= k < y
    ensures if s == 1 then bars.high[k] < bars.high[k + 1] && bars.low[k] < bars.low[k + 1]
            else bars.high[k + 1] < bars.high[k] && bars.low[k + 1] < bars.low[k]
  {
  }

  predicate ApartBars(bars: Bars, s: int, c: nat, d: nat)
    requires c < |bars.high| && d < |bars.high| && |bars.low| == |bars.high|
  {
    if s == 1 then bars.high[c] <= bars.low[d] else bars.high[d] <= bars.low[c]
  }

  lemma SixPairs(bars: Bars, s: int, a: nat, z: nat)
    requires 0 < a && a + 4 <= z && z + 1 == |bars.high| == |bars.low|
    ensures Clear(bars, s, a, z) <==>
            && ApartBars(bars, s, a - 1, z - 1) && ApartBars(bars, s, a, z - 1) && ApartBars(bars, s, a + 1, z - 1)
            && ApartBars(bars, s, a - 1, z) && ApartBars(bars, s, a, z) && ApartBars(bars, s, a + 1, z)
  {
  }

  // ----- any number of legs -----

  /** The direction of leg j when the first goes in direction s. */
  function Way(s: int, j: nat): int { if j % 2 == 0 then s else -s }

  ghost predicate Increasing(ts: seq<nat>) { forall i, j :: 0 <= i < j < |ts| ==> ts[i] < ts[j] }

  /** The market turns exactly at these bars, from the first to the last. */
  ghost predicate TurnsAt(bars: Bars, n: nat, s: int, ts: seq<nat>)
    requires bars.Covers(n)
  {
    && |ts| >= 2 && ts[0] == 0 && ts[|ts| - 1] == n - 1 && Increasing(ts)
    && forall j, k :: 0 <= j && k == j + 1 && k < |ts| ==> ts[k] < n && Leg(bars, Way(s, j), ts[j], ts[k])
  }

  /** The series with a signal at each of these bars: the end of the leg before it, the start of the leg after it. */
  function Marks(n: nat, s: int, ts: seq<nat>): (r: seq<int>)
    requires forall j :: 0 <= j < |ts| ==> ts[j] < n
    ensures |r| == n
  {
    if ts == [] then Zeros(n) else Marks(n, s, ts[..|ts| - 1])[ts[|ts| - 1] := -Way(s, |ts| - 1)]
  }

  lemma {:induction false} MarksAt(n: nat, s: int, ts: seq<nat>)
    requires Increasing(ts) && forall j :: 0 <= j < |ts| ==> ts[j] < n
    ensures forall j :: 0 <= j < |ts| ==> Marks(n, s, ts)[ts[j]] == -Way(s, j)
    ensures forall i :: 0 <= i < n && Marks(n, s, ts)[i] != 0 ==> i in ts
  {
    if ts != [] {
      var front := ts[..|ts| - 1];
      MarksAt(n, s, front);
      forall j | 0 <= j < |ts| ensures Marks(n, s, ts)[ts[j]] == -Way(s, j) {
        if j < |ts| - 1 {
          assert front[j] == ts[j];
        }
      }
      assert forall i :: i in front ==> i in ts;
    }
  }

  lemma MarksGap(n: nat, s: int, ts: seq<nat>, m: nat)
    requires Increasing(ts) && (forall j :: 0 <= j < |ts| ==> ts[j] < n) && 0 < m && m + 1 == |ts|
    ensures var b := Marks(n, s, ts);
            && b[ts[m - 1]] == Way(s, m) && b[ts[m]] == -Way(s, m)
            && ZeroBetween(b, ts[m - 1], ts[m]) && ZeroBetween(b, ts[m], n)
  {
    MarksAt(n, s, ts);
  }

  /** Such a market, when each leg after the first is clear, is recognised as exactly its legs. */
  lemma ZigzagMarket(bars: Bars, n: nat, s: int, ts: seq<nat>)
    requires bars.Covers(n) && (s == 1 || s == -1) && TurnsAt(bars, n, s, ts)
    requires forall j, k :: 1 <= j && k == j + 1 && k < |ts| ==> Clear(bars, Way(s, j), ts[j], ts[k])
    ensures PenRun(Zeros(n), bars, n) == Marks(n, s, ts)
  {
    hide PenRun, Clear, Leg, Marks;
    ZigzagUpTo(bars, n, s, ts, |ts| - 1);
    assert ts[..|ts|] == ts;
  }

  lemma {:induction false} ZigzagUpTo(bars: Bars, n: nat, s: int, ts: seq<nat>, m: nat)
    requires bars.Covers(n) && (s == 1 || s == -1) && TurnsAt(bars, n, s, ts) && 1 <= m < |ts|
    requires forall j, k :: 1 <= j && k == j + 1 && k < |ts| ==> Clear(bars, Way(s, j), ts[j], ts[k])
    ensures forall j :: 0 <= j < |ts| ==> ts[j] < n
    ensures PenRun(Zeros(n), bars, ts[m] + 1) == Marks(n, s, ts[..m + 1])
    decreases m
  {
    hide PenRun, Clear, Leg, TurnsAt, Marks, NextLeg, Zeros;
    Bounds(bars, n, s, ts);
    if m == 1 {
      FirstLeg(bars, n, s, ts[1]);
      TwoMarks(n, s, ts[..2]);
    } else {
      ZigzagUpTo(bars, n, s, ts, m - 1);
      var front, way := ts[..m], Way(s, m - 1);
      var b := Marks(n, s, front);
      var g, a, z := ts[m - 2], ts[m - 1], ts[m];
      LegsAhead(bars, n, s, ts, m);
      LegRun(bars, n, b, way, g, a, z, z + 1);
      assert Clear(bars, Way(s, m - 1), ts[m - 1], ts[m]);
      OneMark(n, s, ts, m);
    }
  }

  lemma Bounds(bars: Bars, n: nat, s: int, ts: seq<nat>)
    requires bars.Covers(n) && TurnsAt(bars, n, s, ts)
    ensures (forall j :: 0 <= j < |ts| ==> ts[j] < n) && Increasing(ts) && ts[0] == 0 && |ts| >= 2
    ensures Leg(bars, s, 0, ts[1])
  {
    assert Way(s, 0) == s;
  }

  lemma OneMark(n: nat, s: int, ts: seq<nat>, m: nat)
    requires (forall j :: 0 <= j < |ts| ==> ts[j] < n) && 0 < m < |ts|
    ensures Marks(n, s, ts[..m + 1]) == Marks(n, s, ts[..m])[ts[m] := Way(s, m - 1)]
  {
    assert ts[..m + 1][..m] == ts[..m];
    assert Way(s, m) == -Way(s, m - 1);
  }

  lemma LegsAhead(bars: Bars, n: nat, s: int, ts: seq<nat>, m: nat)
    requires bars.Covers(n) && (s == 1 || s == -1) && TurnsAt(bars, n, s, ts) && 2 <= m < |ts|
    ensures (forall j :: 0 <= j < |ts| ==> ts[j] < n) && ts[m - 2] < ts[m - 1] < ts[m]
    ensures NextLeg(Marks(n, s, ts[..m]), bars, Way(s, m - 1), ts[m - 2], ts[m - 1], ts[m])
  {
    hide Leg, Marks, TurnsAt;
    Bounds(bars, n, s, ts);
    MarksGap(n, s, ts[..m], m - 1);
    LegsMeet(bars, n, s, ts, m);
  }

  lemma TwoMarks(n: nat, s: int, ts: seq<nat>)
    requires |ts| == 2 && ts[0] == 0 && 0 < ts[1] < n
    ensures Marks(n, s, ts) == OnePen(n, s, ts[1])
  {
    assert ts[..1] == [0] && ts[..1][..0] == [];
    assert Marks(n, s, [0]) == Zeros(n)[0 := -s];
    assert Way(s, 1) == -s;
  }

  /** The legs around the turn m - 1, and the first bar of the one after them. */
  lemma LegsMeet(bars: Bars, n: nat, s: int, ts: seq<nat>, m: nat)
    requires bars.Covers(n) && TurnsAt(bars, n, s, ts) && 2 <= m < |ts|
    ensures ts[m] < n && Leg(bars, Way(s, m - 2), ts[m - 2], ts[m - 1]) && Leg(bars, Way(s, m - 1), ts[m - 1], ts[m])
    ensures Way(s, m - 2) == -Way(s, m - 1)
    ensures ts[m] + 1 < n ==> Leg(bars, -Way(s, m - 1), ts[m], ts[m] + 1)
  {
    if ts[m] + 1 < n {
      assert Leg(bars, Way(s, m), ts[m], ts[m + 1]);
    }
  }

  // ----- a single bar -----

  /** Bar x is the last signal v before bar i, or bar 0 when there is none. */
  ghost predicate LastOrFirst(b: seq<int>, v: int, x: nat, i: nat)
  {
    x < i <= |b| && (forall k :: x < k < i ==> b[k] != v) && (b[x] == v || x == 0)
  }

  /** The signal m is a top above bar i or a bottom below it. */
  predicate Stands(b: seq<int>, bars: Bars, m: nat, i: nat)
    requires bars.Covers(|b|) && m < |b| && i < |b|
  {
    (b[m] == 1 && bars.high[m] > bars.high[i]) || (b[m] == -1 && bars.low[m] < bars.low[i])
  }

  /** It is the last that stands. */
  ghost predicate LastStanding(b: seq<int>, bars: Bars, m: nat, i: nat)
    requires bars.Covers(|b|) && i < |b|
  {
    m < i && Stands(b, bars, m, i) && forall k :: m < k < i ==> !Stands(b, bars, k, i)
  }

  ghost predicate Breaks(b: seq<int>, bars: Bars, x: nat, y: nat, i: nat, up: bool, down: bool)
    requires bars.Covers(|b|) && i < |b|
  {
    && LastOrFirst(b, -1, x, i) && LastOrFirst(b, 1, y, i)
    && (up <==> forall k :: x <= k < i ==> bars.high[k] < bars.high[i])
    && (down <==> forall k :: y <= k < i ==> bars.low[i] < bars.low[k])
  }

  lemma BreaksIs(b: seq<int>, bars: Bars, x: nat, y: nat, i: nat, up: bool, down: bool)
    requires bars.Covers(|b|) && 0 < i < |b| && Breaks(b, bars, x, y, i, up, down)
    ensures Origin(b, 1, i) == x && Origin(b, -1, i) == y
    ensures (up <==> bars.BreaksOut(1, x, i)) && (down <==> bars.BreaksOut(-1, y, i))
  {
    LastIs(b, -1, x, i);
    LastIs(b, 1, y, i);
    forall k | y <= k < i ensures bars.Reach(-1, k) < bars.Reach(-1, i) <==> bars.low[i] < bars.low[k] {
    }
    forall k | x <= k < i ensures bars.Reach(1, k) < bars.Reach(1, i) <==> bars.high[k] < bars.high[i] {
    }
  }

  lemma LastIs(b: seq<int>, v: int, x: nat, i: nat)
    requires LastOrFirst(b, v, x, i)
    ensures LastEq(b, v, i) == if b[x] == v then x else -1
  {
  }

  /** Bar i takes the sign opposite to the signal m, and what lies between is dropped. */
  ghost predicate AsAnswer(b: seq<int>, m: nat, i: nat, r: seq<int>)
    requires m < i < |b|
  {
    |r| == |b| && forall k :: 0 <= k < |b| ==> r[k] == if k == i then -b[m] else if m < k < i then 0 else b[k]
  }

  /** A bar that is above all bars since the last bottom and below all bars since the last top takes the sign opposite
      to the last signal that stands against it, and all signals in between are dropped; without such a signal nothing
      happens. A bar that is neither changes nothing. */
  lemma BothOrNeither(b: seq<int>, bars: Bars, x: nat, y: nat, i: nat, both: bool, r: seq<int>)
    requires bars.Covers(|b|) && 0 < i < |b| && Breaks(b, bars, x, y, i, both, both) && r == PenStep(b, bars, i)
    ensures !both ==> r == b
    ensures both && (forall m :: 0 <= m < i ==> !Stands(b, bars, m, i)) ==> r == b
    ensures both ==> forall m :: LastStanding(b, bars, m, i) ==> AsAnswer(b, m, i, r)
  {
    BreaksIs(b, bars, x, y, i, both, both);
    if both {
      var m := LastUnbeaten(b, bars, i, i);
      forall k | 0 <= k < i ensures Stands(b, bars, k, i) <==> Outreaches(b, bars, k, i) {
      }
    }
  }

  /** A bar that is only above all bars since the last bottom x. When the last signal is a top, or there is none, it
      becomes the top in its place, and if no bar since x is below x, that is all. */
  lemma OnlyAbove(b: seq<int>, bars: Bars, x: nat, y: nat, i: nat, r: seq<int>)
    requires bars.Covers(|b|) && 0 < i < |b| && Breaks(b, bars, x, y, i, true, false) && r == PenStep(b, bars, i)
    requires (y > x || (x == 0 && y == 0)) && forall k :: x <= k <= i ==> bars.low[x] <= bars.low[k]
    ensures |r| == |b| && forall k :: 0 <= k < |b| ==>
              r[k] == if k == x then -1 else if k == i then 1 else if x < k < i then 0 else b[k]
  {
    BreaksIs(b, bars, x, y, i, true, false);
    assert bars.FirstPeak(-1, x, i) == x by {
      forall k | x <= k <= i ensures bars.Reach(-1, k) <= bars.Reach(-1, x) {
      }
    }
  }

  /** The mirror image. */
  lemma OnlyBelow(b: seq<int>, bars: Bars, x: nat, y: nat, i: nat, r: seq<int>)
    requires bars.Covers(|b|) && 0 < i < |b| && Breaks(b, bars, x, y, i, false, true) && r == PenStep(b, bars, i)
    requires (x > y || (x == 0 && y == 0)) && forall k :: y <= k <= i ==> bars.high[k] <= bars.high[y]
    ensures |r| == |b| && forall k :: 0 <= k < |b| ==>
              r[k] == if k == y then 1 else if k == i then -1 else if y < k < i then 0 else b[k]
  {
    BreaksIs(b, bars, x, y, i, false, true);
    assert bars.FirstPeak(1, y, i) == y by {
      forall k | y <= k <= i ensures bars.Reach(1, k) <= bars.Reach(1, y) {
      }
    }
  }

  // ----- no pen -----

  /** A market that goes one way from a to the bar before y, steps back at y and then, at z = y + 1, contains that
      bar, does not end a pen there: the two bars merge against the direction of the pen. */
  lemma OutsideBarEndsNone(b: seq<int>, bars: Bars, s: int, a: nat, y: nat)
    requires bars.Covers(|b|) && a < y - 1 && y + 1 < |b| && (s == 1 || s == -1)
    requires Leg(bars, s, a, y - 1) && Leg(bars, -s, y - 1, y)
    requires bars.high[y + 1] >= bars.high[y] && bars.low[y + 1] <= bars.low[y]
    ensures !IsPen(b, bars, a, y + 1, s)
  {
    hide Merged, Confirmed, Absorb, Leg;
    LegMerged(bars, s, a, y - 1, s);
    var m := Merged(bars, a, y, s);
    MergedNext(bars, a, y, s);
    MergedNext(bars, a, y + 1, s);
    StepsBack(bars, s, a, y, m);
    var w := Candle(bars.high[y + 1], bars.low[y + 1]);
    var back := Absorb(m, Candle(bars.high[y], bars.low[y]));
    ContainmentRule(back, w);
    LegPair(bars, -s, y - 1, y, y - 1);
  }

  lemma MergedNext(bars: Bars, a: nat, y: nat, s: int)
    requires a <= y < |bars.high| && y < |bars.low|
    ensures Merged(bars, a, y + 1, s) == Absorb(Merged(bars, a, y, s), Candle(bars.high[y], bars.low[y]))
  {
  }

  lemma StepsBack(bars: Bars, s: int, a: nat, y: nat, m: Merge)
    requires a < y < |bars.high| && y < |bars.low| && (s == 1 || s == -1) && Leg(bars, -s, y - 1, y)
    requires m.candles == CandlesOf(bars, a, y - 1)
    ensures var c := Candle(bars.high[y], bars.low[y]);
            Absorb(m, c) == Merge(m.candles + [c], -s)
  {
    LegPair(bars, -s, y - 1, y, y - 1);
  }

  // ----- a bar that leads to a repair -----

  /** The series after a repair of one pen: the start moves from x to xx, the end i is dropped, and so is what lies
      between. */
  ghost predicate Repaired(b: seq<int>, x: nat, xx: nat, i: nat, v: int, r: seq<int>)
  {
    |r| == |b| && forall k :: 0 <= k < |b| ==> r[k] == if k == xx then v else if x <= k <= i then 0 else b[k]
  }

  /** The first of the bars from x to i that reaches furthest against s is xx, behind x. */
  ghost predicate DeepestAt(bars: Bars, s: int, x: nat, i: nat, xx: nat)
    requires i < |bars.high| && |bars.low| == |bars.high|
  {
    && x < xx <= i
    && (forall k :: x <= k <= i ==> if s == 1 then bars.low[xx] <= bars.low[k] else bars.high[k] <= bars.high[xx])
    && (forall k :: x <= k < xx ==> if s == 1 then bars.low[xx] < bars.low[k] else bars.high[k] < bars.high[xx])
  }

  /** The signal s before x, if there is one, is at j; no bar from it to xx reaches further. */
  ghost predicate Held(b: seq<int>, bars: Bars, s: int, x: nat, xx: nat, j: int)
    requires bars.Covers(|b|)
  {
    && -1 <= j < x < xx < |b| && (forall k :: j < k < x ==> b[k] != s)
    && (j >= 0 ==> b[j] == s && forall k :: j <= k <= xx ==>
          if s == 1 then bars.high[k] <= bars.high[j] else bars.low[j] <= bars.low[k])
  }

  lemma DrawnRepaired(b: seq<int>, bars: Bars, s: int, x: nat, i: nat, xx: nat, j: int)
    requires bars.Covers(|b|) && x < i < |b| && (s == 1 || s == -1)
    requires DeepestAt(bars, s, x, i, xx) && Held(b, bars, s, x, xx, j)
    ensures Repaired(b, x, xx, i, -s, Drawn(b, bars, s, x, i))
  {
    var c := Cleared(b[x := -s][i := s], x, i);
    var t := -s;
    PeakAt(bars, t, x, i, xx);
    var d := Moved(c, x, i, xx);
    forall k | j < k < xx ensures 0 <= k && d[k] != s {
      if k < x {
        assert d[k] == b[k];
      }
    }
    LastAt(d, s, j, xx);
    if j >= 0 {
      PeakStays(bars, s, j, xx);
      assert Adjusted(d, bars, j, xx) == d;
    }
    assert c[x] == t && c[i] == s && -c[x] == s;
    assert Adjusted(c, bars, x, i) == d;
  }

  lemma LastAt(a: seq<int>, v: int, j: int, n: nat)
    requires -1 <= j < n <= |a| && (j >= 0 ==> a[j] == v) && forall k :: j < k < n ==> a[k] != v
    ensures LastEq(a, v, n) == j
  {
  }

  lemma PeakAt(bars: Bars, t: int, x: nat, i: nat, xx: nat)
    requires i < |bars.high| && |bars.low| == |bars.high| && (t == 1 || t == -1) && DeepestAt(bars, -t, x, i, xx)
    ensures bars.FirstPeak(t, x, i) == xx
  {
    var peak := bars.FirstPeak(t, x, i);
    assert bars.Reach(t, xx) <= bars.Reach(t, peak) && bars.Reach(t, peak) <= bars.Reach(t, xx);
  }

  lemma PeakStays(bars: Bars, s: int, j: nat, xx: nat)
    requires j < xx < |bars.high| && |bars.low| == |bars.high| && (s == 1 || s == -1)
    requires forall k :: j <= k <= xx ==> if s == 1 then bars.high[k] <= bars.high[j] else bars.low[j] <= bars.low[k]
    ensures bars.FirstPeak(s, j, xx) == j
  {
    var peak := bars.FirstPeak(s, j, xx);
    assert bars.Reach(s, peak) <= bars.Reach(s, j);
  }

  /** When a bar that is only above all bars since the last bottom x takes the place of the top after it, but some bar
      since x is below x, the pen is repaired: the bottom moves to the first lowest bar since, and the new top is
      dropped again; that is all if the top before x still stands. */
  lemma OnlyAboveRepaired(b: seq<int>, bars: Bars, x: nat, y: nat, i: nat, xx: nat, j: int, r: seq<int>)
    requires bars.Covers(|b|) && 0 < i < |b| && Breaks(b, bars, x, y, i, true, false) && r == PenStep(b, bars, i)
    requires (y > x || (x == 0 && y == 0)) && DeepestAt(bars, 1, x, i, xx) && Held(b, bars, 1, x, xx, j)
    ensures Repaired(b, x, xx, i, -1, r)
  {
    hide Drawn;
    BreaksIs(b, bars, x, y, i, true, false);
    DrawnRepaired(b, bars, 1, x, i, xx, j);
  }

  /** The mirror image. */
  lemma OnlyBelowRepaired(b: seq<int>, bars: Bars, x: nat, y: nat, i: nat, xx: nat, j: int, r: seq<int>)
    requires bars.Covers(|b|) && 0 < i < |b| && Breaks(b, bars, x, y, i, false, true) && r == PenStep(b, bars, i)
    requires (x > y || (x == 0 && y == 0)) && DeepestAt(bars, -1, y, i, xx) && Held(b, bars, -1, y, xx, j)
    ensures Repaired(b, y, xx, i, 1, r)
  {
    hide Drawn;
    BreaksIs(b, bars, x, y, i, false, true);
    DrawnRepaired(b, bars, -1, y, i, xx, j);
  }
}
