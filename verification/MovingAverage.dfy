/** The 250-day line: the rolling sum of the history view and the direct sum of the daily state. */
module MovingAverage {
  import opened Wrappers

  datatype Bar = Bar(date: string, close: real)

  datatype Relation = Yes | No | Unknown

  /** Where a close stands to the line at one bar. */
  datatype Fact = Fact(relation: Relation, line: Option<real>, asOf: Option<string>, source: Option<string>,
      version: string)

  datatype Point = Point(index: nat, date: string, relation: Relation, line: Option<real>, asOf: Option<string>)

  datatype Series = Series(key: string, source: Option<string>, version: string, points: seq<Point>)

  const SOURCE := "daily_close_ma250"

  function Sum(bars: seq<Bar>): real
  {
    if bars == [] then 0.0 else Sum(bars[..|bars| - 1]) + bars[|bars| - 1].close
  }

  /** The bars of the 250-day window that ends with bar k, fewer at the start. */
  function Window(bars: seq<Bar>, k: nat): seq<Bar>
    requires k < |bars|
  {
    if k < 249 then bars[..k + 1] else bars[k - 249..k + 1]
  }

  /** What the line says at bar k, from the definition: the mean of the last 250 closes, once there are 250. */
  function LineAt(bars: seq<Bar>, k: nat, version: string): Fact
    requires k < |bars|
  {
    if k < 249 then UnknownLine(version).(source := Some(SOURCE))
    else
      var line := Sum(Window(bars, k)) / 250.0;
      Fact(if bars[k].close > line then Yes else No, Some(line), Some(bars[k].date), Some(SOURCE), version)
  }

  function Times(n: nat, c: real): real { n as real * c }

  lemma OneMore(n: nat, c: real)
    ensures Times(n + 1, c) == Times(n, c) + c && Times(0, c) == 0.0
  {
  }

  lemma {:induction false} SumWithin(bars: seq<Bar>, low: real, high: real)
    requires forall b :: b in bars ==> low <= b.close <= high
    ensures Times(|bars|, low) <= Sum(bars) <= Times(|bars|, high)
  {
    hide Times;
    OneMore(|bars|, low);
    OneMore(|bars|, high);
    if bars != [] {
      var n := |bars| - 1;
      assert forall b :: b in bars[..n] ==> b in bars;
      SumWithin(bars[..n], low, high);
      assert |bars| == n + 1 && bars[n] in bars;
      OneMore(n, low);
      OneMore(n, high);
    }
  }

  lemma FullWindow(bars: seq<Bar>, k: nat)
    requires 249 <= k < |bars|
    ensures var w := Window(bars, k);
            && |w| == 250 && w[249] == bars[k] && Sum(w) == Sum(w[..249]) + bars[k].close
            && forall j :: 0 <= j < 250 ==> w[j] == bars[k - 249 + j]
  {
  }

  lemma Mean(total: real, low: real, high: real)
    requires Times(250, low) <= total <= Times(250, high)
    ensures low <= total / 250.0 <= high
  {
  }

  /** From the 250th bar on there is a line. It lies within any bounds of the last 250 closes, and the relation says
      whether the close is above it; before there is none. */
  lemma LineWithin(bars: seq<Bar>, k: nat, version: string, low: real, high: real)
    requires k < |bars| && forall j :: 0 <= j <= k && k - 250 < j ==> low <= bars[j].close <= high
    ensures var f := LineAt(bars, k, version);
            && f.source == Some("daily_close_ma250") && f.version == version
            && if k < 249 then f.relation == Unknown && f.line.None? && f.asOf.None?
               else
                 && f.line.Some? && low <= f.line.value <= high && f.asOf == Some(bars[k].date)
                 && f.relation == if bars[k].close > f.line.value then Yes else No
  {
    hide Sum, Window, Times;
    if k >= 249 {
      FullWindow(bars, k);
      SumWithin(Window(bars, k), low, high);
      Mean(Sum(Window(bars, k)), low, high);
    }
  }

  /** A constant series is its own line, and not above it. */
  lemma ConstantLine(bars: seq<Bar>, k: nat, version: string, c: real)
    requires 249 <= k < |bars| && forall j :: 0 <= j <= k ==> bars[j].close == c
    ensures LineAt(bars, k, version) == Fact(No, Some(c), Some(bars[k].date), Some("daily_close_ma250"), version)
  {
    LineWithin(bars, k, version, c, c);
  }

  /** A last close above the 249 before it is above the line. */
  lemma NewHighIsAbove(bars: seq<Bar>, k: nat, version: string)
    requires 249 <= k < |bars| && forall j :: k - 250 < j < k && 0 <= j ==> bars[j].close < bars[k].close
    ensures LineAt(bars, k, version).relation == Yes
  {
    hide Sum, Window, Times;
    FullWindow(bars, k);
    var before := Window(bars, k)[..249];
    var high := Highest(before);
    var i :| 0 <= i < 249 && before[i].close == high;
    assert before[i] == bars[k - 249 + i];
    SumWithin(before, Lowest(before), high);
    Above(Sum(before), high, bars[k].close);
  }

  /** A last close no higher than the 249 before it is not above the line. */
  lemma NewLowIsNotAbove(bars: seq<Bar>, k: nat, version: string)
    requires 249 <= k < |bars| && forall j :: k - 250 < j < k && 0 <= j ==> bars[k].close <= bars[j].close
    ensures LineAt(bars, k, version).relation == No
  {
    hide Sum, Window, Times;
    FullWindow(bars, k);
    var before := Window(bars, k)[..249];
    assert forall b :: b in before ==> b.close >= bars[k].close;
    SumWithin(before, bars[k].close, Highest(before));
    NotAbove(Sum(before), bars[k].close);
  }

  lemma Above(sum: real, high: real, close: real)
    requires sum <= Times(249, high) && high < close
    ensures close > (sum + close) / 250.0
  {
  }

  lemma NotAbove(sum: real, close: real)
    requires sum >= Times(249, close)
    ensures close <= (sum + close) / 250.0
  {
  }

  ghost function Highest(bars: seq<Bar>): (m: real)
    requires bars != []
    ensures (forall b :: b in bars ==> b.close <= m) && exists i :: 0 <= i < |bars| && bars[i].close == m
  {
    var n := |bars| - 1;
    assert bars == bars[..n] + [bars[n]];
    if n == 0 then bars[0].close
    else
      var m := Highest(bars[..n]);
      if bars[n].close > m then bars[n].close else m
  }

  ghost function Lowest(bars: seq<Bar>): (m: real)
    requires bars != []
    ensures forall b :: b in bars ==> m <= b.close
  {
    var n := |bars| - 1;
    assert bars == bars[..n] + [bars[n]];
    if n == 0 then bars[0].close
    else
      var m := Lowest(bars[..n]);
      if bars[n].close < m then bars[n].close else m
  }

  lemma {:induction false} SumDropFirst(bars: seq<Bar>)
    requires bars != []
    ensures Sum(bars[1..]) == Sum(bars) - bars[0].close
  {
    var n := |bars| - 1;
    if n > 0 {
      SumDropFirst(bars[..n]);
      assert bars[1..][..n - 1] == bars[..n][1..];
    }
  }

  /** Sliding the window by one bar adds the new close and drops the oldest. */
  lemma WindowSlides(bars: seq<Bar>, k: nat)
    requires 0 < k < |bars|
    ensures Sum(Window(bars, k)) ==
            Sum(Window(bars, k - 1)) + bars[k].close - (if k >= 250 then bars[k - 250].close else 0.0)
  {
    if k < 250 {
      assert Window(bars, k)[..|Window(bars, k)| - 1] == Window(bars, k - 1);
    } else {
      var wide := bars[k - 250..k + 1];
      assert wide[..250] == Window(bars, k - 1);
      assert wide[1..] == Window(bars, k);
      SumDropFirst(wide);
    }
  }

  /** The fact a point of a series states. */
  function LineFactAt(series: Series, i: nat): Fact
    requires i < |series.points|
  {
    var p := series.points[i];
    Fact(p.relation, p.line, p.asOf, series.source, series.version)
  }

  /** The point that states LineAt at bar k. */
  function PointAt(bars: seq<Bar>, k: nat, version: string): Point
    requires k < |bars|
  {
    var f := LineAt(bars, k, version);
    Point(k, bars[k].date, f.relation, f.line, f.asOf)
  }

  /** The history view: the line, and two lines that are not computed yet. */
  datatype Lines = Lines(ma250: Series, chanlun: Series, reference: Series)

  /** The fact of a line that is not computed. */
  function UnknownLine(version: string): Fact { Fact(Unknown, None, None, None, version) }

  /** Every point of the series states the fact of its own bar. */
  ghost predicate States(series: Series, key: string, bars: seq<Bar>, fact: nat -> Fact)
  {
    && series.key == key && |series.points| == |bars|
    && forall k :: 0 <= k < |bars| ==>
         LineFactAt(series, k) == fact(k) && series.points[k].index == k && series.points[k].date == bars[k].date
  }

  /** The rolling computation of the history view. At every bar it states what the definition says. */
  method HistoryLine(bars: seq<Bar>, version: string) returns (lines: Lines)
    ensures States(lines.ma250, "ma250", bars,
                   (k: nat) => if k < |bars| then LineAt(bars, k, version) else UnknownLine(version))
    ensures States(lines.chanlun, "chanlun_line", bars, k => UnknownLine(version))
    ensures States(lines.reference, "reference_line", bars, k => UnknownLine(version))
  {
    var points := RollingPoints(bars, version);
    var unknown := seq(|bars|, k requires 0 <= k < |bars| => Point(k, bars[k].date, Unknown, None, None));
    lines := Lines(Series("ma250", Some(SOURCE), version, points), Series("chanlun_line", None, version, unknown),
                   Series("reference_line", None, version, unknown));
    forall k | 0 <= k < |bars| ensures LineFactAt(lines.ma250, k) == LineAt(bars, k, version) {
      assert points[k] == PointAt(bars, k, version);
    }
  }

  method RollingPoints(bars: seq<Bar>, version: string) returns (points: seq<Point>)
    ensures |points| == |bars|
    ensures forall k :: 0 <= k < |bars| ==> points[k] == PointAt(bars, k, version)
  {
    points := [];
    var rolling := 0.0;
    for index := 0 to |bars|
      invariant |points| == index
      invariant rolling == if index == 0 then 0.0 else Sum(Window(bars, index - 1))
      invariant forall k :: 0 <= k < index ==> points[k] == PointAt(bars, k, version)
    {
      hide Sum, Window, LineAt, PointAt;
      rolling := rolling + bars[index].close;
      if index >= 250 {
        rolling := rolling - bars[index - 250].close;
      }
      Rolled(bars, index);
      var p := PointFrom(bars, index, rolling, version);
      points := points + [p];
    }
  }

  /** What the rolling sum holds after bar k. */
  lemma Rolled(bars: seq<Bar>, k: nat)
    requires k < |bars|
    ensures Sum(Window(bars, k)) == (if k == 0 then 0.0 else Sum(Window(bars, k - 1))) + bars[k].close
                                    - (if k >= 250 then bars[k - 250].close else 0.0)
  {
    if k > 0 {
      WindowSlides(bars, k);
    } else {
      assert Window(bars, 0)[..0] == [];
    }
  }

  method PointFrom(bars: seq<Bar>, index: nat, rolling: real, version: string) returns (p: Point)
    requires index < |bars| && rolling == Sum(Window(bars, index))
    ensures p == PointAt(bars, index, version)
  {
    hide Sum, Window;
    if index < 249 {
      p := Point(index, bars[index].date, Unknown, None, None);
    } else {
      var value := rolling / 250.0;
      p := Point(index, bars[index].date, if bars[index].close > value then Yes
          else No, Some(value), Some(bars[index].date));
    }
  }

  method SumOf(bars: seq<Bar>) returns (s: real)
    ensures s == Sum(bars)
  {
    s := 0.0;
    for k := 0 to |bars|
      invariant s == Sum(bars[..k])
    {
      assert bars[..k + 1][..k] == bars[..k];
      s := s + bars[k].close;
    }
    assert bars[..|bars|] == bars;
  }

  /** The direct computation of the daily state. */
  method Ma250State(bars: seq<Bar>, version: string) returns (fact: Fact)
    ensures bars == [] ==> fact == UnknownLine(version).(source := Some(SOURCE))
    ensures bars != [] ==> fact == LineAt(bars, |bars| - 1, version)
  {
    hide Sum, Window, LineAt;
    var n := |bars|;
    if n < 250 {
      if n > 0 {
        TooShort(bars, version);
      }
      return UnknownLine(version).(source := Some(SOURCE));
    }
    var sum := SumOf(bars[n - 250..]);
    LastWindow(bars, version);
    var line := sum / 250.0;
    fact := Fact(if bars[n - 1].close > line then Yes
        else No, Some(line), Some(bars[n - 1].date), Some(SOURCE), version);
  }

  lemma TooShort(bars: seq<Bar>, version: string)
    requires 0 < |bars| < 250
    ensures LineAt(bars, |bars| - 1, version) == UnknownLine(version).(source := Some(SOURCE))
  {
  }

  lemma LastWindow(bars: seq<Bar>, version: string)
    requires |bars| >= 250
    ensures var n, line := |bars|, Sum(bars[|bars| - 250..]) / 250.0;
            LineAt(bars, n - 1, version) ==
            Fact(if bars[n - 1].close > line then Yes else No, Some(line), Some(bars[n - 1].date), Some(SOURCE),
                 version)
  {
    hide Sum;
    assert bars[|bars| - 250..] == Window(bars, |bars| - 1);
  }

  /** The two computations state the same fact about the last bar, for every series that has one. */
  method BothLines(bars: seq<Bar>, version: string) returns (rolling: Fact, direct: Fact)
    requires bars != []
    ensures rolling == direct == LineAt(bars, |bars| - 1, version)
  {
    var lines := HistoryLine(bars, version);
    rolling := LineFactAt(lines.ma250, |bars| - 1);
    direct := Ma250State(bars, version);
  }
}
