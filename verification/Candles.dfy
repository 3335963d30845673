/** Merging of bars that contain one another. */
module Candles {
  import opened Bars

  datatype Candle = Candle(high: real, low: real)
  {
    /** The candle's counterpart of Bars.Reach. */
    function Reach(s: int): real { if s == 1 then high else -low }
  }

  /** The merged candles so far and the direction containment is resolved in. */
  datatype Merge = Merge(candles: seq<Candle>, direction: int)

  /** What one more bar does to the merged candles. */
  function Absorb(m: Merge, c: Candle): Merge
  {
    if m.candles == [] then Merge([c], m.direction)
    else
      var n := |m.candles| - 1;
      var last := m.candles[n];
      if c.high > last.high && c.low > last.low then Merge(m.candles + [c], 1)
      else if c.high < last.high && c.low < last.low then Merge(m.candles + [c], -1)
      else if m.direction != 1 && m.direction != -1 then m
      else if c.high <= last.high && c.low >= last.low then
        Merge(m.candles[n := if m.direction == 1 then last.(low := c.low) else last.(high := c.high)], m.direction)
      else
        Merge(m.candles[n := if m.direction == 1 then last.(high := c.high) else last.(low := c.low)], m.direction)
  }

  /** Bars from..till-1 merged one by one. */
  function Merged(bars: Bars, from: nat, till: nat, direction: int): Merge
    requires till <= |bars.high| && till <= |bars.low|
    decreases till
  {
    if till <= from then Merge([], -direction)
    else Absorb(Merged(bars, from, till - 1, direction), Candle(bars.high[till - 1], bars.low[till - 1]))
  }

  method MergeCandles(bars: Bars, from: nat, till: int, direction: int) returns (candles: seq<Candle>)
    requires till < |bars.high| && till < |bars.low|
    ensures candles == if till < from then [] else Merged(bars, from, till + 1, direction).candles
  {
    candles := [];
    var dir := -direction;
    var i := from;
    while i <= till
      invariant from <= i
      invariant till < from ==> candles == []
      invariant from <= till ==> i <= till + 1 && Merge(candles, dir) == Merged(bars, from, i, direction)
    {
      var h, l := bars.high[i], bars.low[i];
      if |candles| == 0 {
        candles := [Candle(h, l)];
      } else {
        var n := |candles| - 1;
        if h > candles[n].high && l > candles[n].low {
          candles := candles + [Candle(h, l)];
          dir := 1;
        } else if h < candles[n].high && l < candles[n].low {
          candles := candles + [Candle(h, l)];
          dir := -1;
        } else if h <= candles[n].high && l >= candles[n].low {
          if dir == 1 {
            candles := candles[n := candles[n].(low := l)];
          } else if dir == -1 {
            candles := candles[n := candles[n].(high := h)];
          }
        } else if h >= candles[n].high && l <= candles[n].low {
          if dir == 1 {
            candles := candles[n := candles[n].(high := h)];
          } else if dir == -1 {
            candles := candles[n := candles[n].(low := l)];
          }
        }
      }
      i := i + 1;
    }
  }

  /** Neighbouring candles are strictly ordered in high and low, both the same way. */
  ghost predicate Separated(a: Candle, b: Candle)
  {
    (a.high < b.high && a.low < b.low) || (a.high > b.high && a.low > b.low)
  }

  ghost predicate HighFrom(bars: Bars, from: nat, till: nat, v: real)
    requires till <= |bars.high|
  {
    exists k :: from <= k < till && bars.high[k] == v
  }

  ghost predicate LowFrom(bars: Bars, from: nat, till: nat, v: real)
    requires till <= |bars.low|
  {
    exists k :: from <= k < till && bars.low[k] == v
  }

  ghost predicate Sound(bars: Bars, from: nat, till: nat)
    requires till <= |bars.high| && till <= |bars.low|
  {
    forall k :: from <= k < till ==> bars.low[k] <= bars.high[k]
  }

  /** The shape of a non-empty merge that started against `direction`. */
  ghost predicate Shaped(m: Merge, direction: int)
  {
    var n := |m.candles| - 1;
    && n >= 0
    && (forall k :: 0 <= k < n ==> Separated(m.candles[k], m.candles[k + 1]))
    && (n == 0 ==> m.direction == -direction)
    && (n > 0 ==> m.direction == if m.candles[n - 1].high < m.candles[n].high then 1 else -1)
  }

  lemma AbsorbKeepsShape(m: Merge, c: Candle, direction: int)
    requires Shaped(m, direction)
    ensures Shaped(Absorb(m, c), direction)
  {
    var n := |m.candles| - 1;
    var r := Absorb(m, c).candles;
    if n > 0 {
      assert Separated(m.candles[n - 1], m.candles[n]);
    }
    forall k | 0 <= k < |r| - 1 ensures Separated(r[k], r[k + 1]) {
      if k < n - 1 {
        assert Separated(m.candles[k], m.candles[k + 1]);
      }
    }
  }

  /** Every value of the candle is the high or low of a bar in range. */
  ghost predicate Sourced(bars: Bars, from: nat, till: nat, c: Candle)
    requires till <= |bars.high| && till <= |bars.low|
  {
    HighFrom(bars, from, till, c.high) && LowFrom(bars, from, till, c.low)
  }

  /** No merged candle contains its neighbour, and the tracked direction is that of the last pair. */
  lemma {:induction false} MergedShape(bars: Bars, from: nat, till: nat, direction: int)
    requires from < till <= |bars.high| && till <= |bars.low|
    ensures Shaped(Merged(bars, from, till, direction), direction)
    decreases till
  {
    if from < till - 1 {
      MergedShape(bars, from, till - 1, direction);
      AbsorbKeepsShape(Merged(bars, from, till - 1, direction), Candle(bars.high[till - 1], bars.low[till - 1]),
          direction);
    }
  }

  /** Merged values come from bars in range, and on sound bars a candle's low never passes its high. */
  lemma {:induction false} MergedValues(bars: Bars, from: nat, till: nat, direction: int)
    requires from < till <= |bars.high| && till <= |bars.low|
    ensures forall c :: c in Merged(bars, from, till, direction).candles ==> Sourced(bars, from, till, c)
    ensures Sound(bars, from, till) ==>
              forall c :: c in Merged(bars, from, till, direction).candles ==> c.low <= c.high
    decreases till
  {
    var c0 := Candle(bars.high[till - 1], bars.low[till - 1]);
    assert Sourced(bars, from, till, c0);
    if from < till - 1 {
      MergedValues(bars, from, till - 1, direction);
      var m := Merged(bars, from, till - 1, direction);
      forall c | c in m.candles ensures Sourced(bars, from, till, c) {
        assert Sourced(bars, from, till - 1, c);
      }
      assert Sound(bars, from, till) ==> Sound(bars, from, till - 1);
      var last := m.candles[|m.candles| - 1];
      assert Sourced(bars, from, till, last);
      forall c | c in Absorb(m, c0).candles ensures Sourced(bars, from, till, c) {
        AbsorbedValues(m, c0, c);
      }
    }
  }

  /** A candle of the new merge is an old one, or takes each value from the last candle or the bar. */
  lemma AbsorbedValues(m: Merge, c: Candle, r: Candle)
    requires m.candles != [] && r in Absorb(m, c).candles
    ensures var last := m.candles[|m.candles| - 1];
            r in m.candles || ((r.high == c.high || r.high == last.high) && (r.low == c.low || r.low == last.low))
  {
    var rs := Absorb(m, c).candles;
    var k :| 0 <= k < |rs| && rs[k] == r;
    if k < |m.candles| - 1 {
      assert r == m.candles[k];
    }
  }

  /** A candle and a bar that contain one another become one candle: in an upward direction with the higher high and the
      higher low of the two, in a downward one with the lower of each. Otherwise the bar adds a candle. */
  lemma ContainmentRule(m: Merge, c: Candle)
    requires m.candles != [] && (m.direction == 1 || m.direction == -1)
    ensures var n, last := |m.candles| - 1, m.candles[|m.candles| - 1];
            var contained := (c.high <= last.high && c.low >= last.low) || (c.high >= last.high && c.low <= last.low);
            var both := if m.direction == 1 then Candle(Max(last.high, c.high), Max(last.low, c.low))
                        else Candle(Min(last.high, c.high), Min(last.low, c.low));
            Absorb(m, c) == if contained then Merge(m.candles[..n] + [both], m.direction)
                            else Merge(m.candles + [c], if c.high > last.high then 1 else -1)
  {
  }
}
