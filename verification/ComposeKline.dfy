/** Composition of fine bars into bars of a longer period. */
module ComposeKline {

  datatype Record = Record(time: int, open: real, high: real, low: real, close: real, volume: real)

  // ----- which record goes where -----

  /** Start of the first composed bar: a given start, or the first full period after the first record. */
  function StartAt(first: int, span: int, start: int, given: bool): int
    requires span > 0
  {
    if given then start else first - first % span + span
  }

  /** Without a given start, the first bar starts at the first multiple of the period after the first record. */
  lemma StartsAtNextPeriod(first: int, span: int, k: int)
    requires span > 0
    ensures var startAt := StartAt(first, span, 0, false);
            && startAt % span == 0 && first < startAt
            && (k % span == 0 && first < k ==> startAt <= k)
    ensures forall start :: StartAt(first, span, start, true) == start
  {
    var q := first / span;
    assert first == q * span + first % span;
    assert StartAt(first, span, 0, false) == (q + 1) * span;
    MultipleOf(q + 1, span);
    if k % span == 0 && first < k {
      var m := k / span;
      assert k == m * span;
      if m < q + 1 {
        MulLe(m, q, span);
      } else {
        MulLe(q + 1, m, span);
      }
    }
  }

  lemma MultipleOf(q: int, span: int)
    requires span > 0
    ensures (q * span) % span == 0
  {
    var d, m := (q * span) / span, (q * span) % span;
    assert q * span == d * span + m && (q - d) * span == m;
    if q - d >= 1 {
      MulLe(1, q - d, span);
    } else if q - d <= -1 {
      MulLe(q - d, -1, span);
    }
  }

  /** The code divides and truncates toward zero; only a positive quotient gives bars. */
  function TargetCount(endIn: int, startAt: int, span: int): (n: int)
    requires span > 0
    ensures endIn >= startAt ==> n >= 0 && startAt + n * span <= endIn < startAt + (n + 1) * span
    ensures endIn < startAt ==> n <= 0
  {
    if endIn >= startAt then
      var n := (endIn - startAt) / span;
      assert n * span == span * n;
      n
    else -((startAt - endIn) / span)
  }

  /** Record r belongs to slot i. */
  predicate InSlot(r: Record, startAt: int, span: int, i: int)
  {
    startAt + i * span <= r.time <= startAt + (i + 1) * span - 1
  }

  predicate InWindow(r: Record, from: int, till: int) { from <= r.time < till }

  /** The records of a time range, in their order. */
  function Between(rs: seq<Record>, from: int, till: int): (r: seq<Record>)
    ensures forall x :: x in r <==> x in rs && InWindow(x, from, till)
  {
    if rs == [] then []
    else
      var rest := Between(rs[1..], from, till);
      if InWindow(rs[0], from, till) then
        assert rs[0] in rs;
        [rs[0]] + rest
      else rest
  }

  function Volume(rs: seq<Record>): real
  {
    if rs == [] then 0.0 else rs[0].volume + Volume(rs[1..])
  }

  /** Bar b is composed of the non-empty records rs: opens with the first, closes with the last,
      and its high, low and volume are those of all of them. */
  ghost predicate Composes(b: Record, rs: seq<Record>)
  {
    && |rs| > 0
    && b.time == rs[0].time && b.open == rs[0].open && b.close == rs[|rs| - 1].close
    && (forall r :: r in rs ==> b.low <= r.low && r.high <= b.high)
    && (exists r :: r in rs && r.high == b.high)
    && (exists r :: r in rs && r.low == b.low)
    && b.volume == Volume(rs)
  }

  function Slot(rs: seq<Record>, startAt: int, span: int, i: int): seq<Record>
  {
    Between(rs, startAt + i * span, startAt + (i + 1) * span)
  }

  /** The slots below n that hold a record, in order. */
  function Filled(rs: seq<Record>, startAt: int, span: int, n: nat): (s: seq<nat>)
    ensures forall k :: 0 <= k < |s| ==> s[k] < n && Slot(rs, startAt, span, s[k]) != []
    ensures forall i: nat :: i < n && Slot(rs, startAt, span, i) != [] ==> i in s
    ensures forall j, k :: 0 <= j < k < |s| ==> s[j] < s[k]
  {
    if n == 0 then []
    else if Slot(rs, startAt, span, n - 1) == [] then Filled(rs, startAt, span, n - 1)
    else Filled(rs, startAt, span, n - 1) + [n - 1]
  }

  // ----- the composition -----

  method TimeFilter(records: seq<Record>, since: int, till: int) returns (bars: seq<Record>)
    ensures bars == Between(records, since, till + 1)
  {
    bars := [];
    ghost var all := Between(records, since, till + 1);
    for k := 0 to |records|
      invariant bars + Between(records[k..], since, till + 1) == all
    {
      ghost var rest := Between(records[k + 1..], since, till + 1);
      assert records[k..][1..] == records[k + 1..];
      if records[k].time >= since && records[k].time <= till {
        assert bars + ([records[k]] + rest) == (bars + [records[k]]) + rest;
        bars := bars + [records[k]];
      }
    }
    assert records[|records|..] == [];
  }

  lemma VolumeOfPrefix(rs: seq<Record>, k: nat)
    requires k < |rs|
    ensures Volume(rs[..k + 1]) == Volume(rs[..k]) + rs[k].volume
  {
    VolumeAppend(rs[..k], rs[k]);
    assert rs[..k + 1] == rs[..k] + [rs[k]];
  }

  lemma {:induction false} VolumeAppend(rs: seq<Record>, r: Record)
    ensures Volume(rs + [r]) == Volume(rs) + r.volume
  {
    if rs == [] {
      assert (rs + [r])[1..] == [];
    } else {
      assert (rs + [r])[1..] == rs[1..] + [r];
      VolumeAppend(rs[1..], r);
    }
  }

  method ComposeBar(bars: seq<Record>) returns (b: Record)
    requires |bars| > 0
    ensures Composes(b, bars)
  {
    var high, low, close, amount := bars[0].high, bars[0].low, bars[0].close, 0.0;
    for k := 0 to |bars|
      invariant forall j :: 0 <= j < k ==> low <= bars[j].low && bars[j].high <= high
      invariant exists r :: r in bars && r.high == high
      invariant exists r :: r in bars && r.low == low
      invariant k > 0 ==> close == bars[k - 1].close
      invariant amount == Volume(bars[..k])
    {
      var item := bars[k];
      assert item in bars;
      high := if item.high > high then item.high else high;
      low := if item.low < low then item.low else low;
      close := item.close;
      VolumeOfPrefix(bars, k);
      amount := amount + item.volume;
    }
    assert bars[..|bars|] == bars;
    b := Record(bars[0].time, bars[0].open, high, low, close, amount);
  }

  /** Each bar is composed of exactly the records of its slot. */
  ghost predicate ComposedOf(records: seq<Record>, span: int, startAt: int, slots: seq<nat>, bars: seq<Record>)
  {
    && |bars| == |slots|
    && forall k :: 0 <= k < |bars| ==> Composes(bars[k], Slot(records, startAt, span, slots[k]))
  }

  /** What the composition of records yields: one bar for every slot that holds a record, in slot order. */
  ghost predicate Composition(records: seq<Record>, span: int, startAt: int, n: int, bars: seq<Record>)
  {
    ComposedOf(records, span, startAt, Filled(records, startAt, span, if n < 0 then 0 else n), bars)
  }

  lemma CompositionStep(records: seq<Record>, span: int, startAt: int, i: nat, bars: seq<Record>, bars': seq<Record>)
    requires Composition(records, span, startAt, i, bars)
    requires var slot := Slot(records, startAt, span, i);
             if slot == [] then bars' == bars
             else |bars'| == |bars| + 1 && bars'[..|bars|] == bars && Composes(bars'[|bars|], slot)
    ensures Composition(records, span, startAt, i + 1, bars')
  {
    hide Composes, Slot;
    var filled := Filled(records, startAt, span, i);
    if Slot(records, startAt, span, i) != [] {
      assert Filled(records, startAt, span, i + 1) == filled + [i];
      forall k | 0 <= k < |bars'| ensures Composes(bars'[k], Slot(records, startAt, span, (filled + [i])[k])) {
        if k < |bars| {
          assert bars'[k] == bars'[..|bars|][k] == bars[k];
        }
      }
    }
  }

  /** The last slot of a composition, undone. */
  lemma CompositionUnstep(records: seq<Record>, span: int, startAt: int, i: nat, bars: seq<Record>)
    requires Composition(records, span, startAt, i + 1, bars)
    ensures Slot(records, startAt, span, i) == [] ==> Composition(records, span, startAt, i, bars)
    ensures Slot(records, startAt, span, i) != [] ==>
              && |bars| > 0 && Composes(bars[|bars| - 1], Slot(records, startAt, span, i))
              && Composition(records, span, startAt, i, bars[..|bars| - 1])
  {
    var filled := Filled(records, startAt, span, i);
    if Slot(records, startAt, span, i) != [] {
      assert Filled(records, startAt, span, i + 1) == filled + [i];
      forall k | 0 <= k < |filled| ensures Composes(bars[k], Slot(records, startAt, span, filled[k])) {
        assert (filled + [i])[k] == filled[k];
      }
    }
  }

  /** The window the composed bars cover. */
  function From(records: seq<Record>, period: int, start: int, given: bool): int
    requires records != [] && period > 0
  {
    StartAt(records[0].time, period * 60, start, given)
  }

  function Slots(records: seq<Record>, period: int, start: int, given: bool): (n: int)
    requires records != [] && period > 0
  {
    TargetCount(records[|records| - 1].time, From(records, period, start, given), period * 60)
  }

  method CalcRecords(records: seq<Record>, period: int, start: int, given: bool) returns (bars: seq<Record>)
    requires period > 0
    ensures records == [] ==> bars == []
    ensures records != [] ==>
              Composition(records, period * 60, From(records, period, start, given), Slots(records, period, start,
                  given), bars)
  {
    bars := [];
    if |records| == 0 {
      return;
    }
    var periodMs := period * 60;
    var endIn := records[|records| - 1].time;
    var startAt := records[0].time;
    var offset := startAt % periodMs;
    startAt := startAt - offset + periodMs;
    if given {
      startAt := start;
    }
    var targetCount := TargetCount(endIn, startAt, periodMs);
    bars := ComposeSlots(records, periodMs, startAt, targetCount);
  }

  lemma NoBars(records: seq<Record>, span: int, startAt: int, n: int)
    ensures n <= 0 ==> Composition(records, span, startAt, n, [])
    ensures Composition(records, span, startAt, 0, [])
  {
  }

  method ComposeSlots(records: seq<Record>, span: int, startAt: int, targetCount: int) returns (bars: seq<Record>)
    requires span > 0
    ensures Composition(records, span, startAt, targetCount, bars)
  {
    hide Composes, Between, Filled, ComposedOf;
    bars := [];
    NoBars(records, span, startAt, targetCount);
    var i := 0;
    while i < targetCount
      invariant 0 <= i && (targetCount >= 0 ==> i <= targetCount) && (targetCount < 0 ==> i == 0)
      invariant Composition(records, span, startAt, i, bars)
    {
      var slot := TimeFilter(records, startAt + i * span, startAt + (i + 1) * span - 1);
      ghost var before := bars;
      if |slot| > 0 {
        var b := ComposeBar(slot);
        bars := bars + [b];
      }
      CompositionStep(records, span, startAt, i, before, bars);
      i := i + 1;
    }
  }

  // ----- what it means -----

  /** Every record of the covered window lies in exactly one slot, and every record of a slot in the window. */
  lemma OneSlotEach(r: Record, startAt: int, span: int, n: nat)
    requires span > 0
    ensures InWindow(r, startAt, startAt + n * span) <==> exists i: nat :: i < n && InSlot(r, startAt, span, i)
    ensures forall i, j :: InSlot(r, startAt, span, i) && InSlot(r, startAt, span, j) ==> i == j
  {
    forall i, j | InSlot(r, startAt, span, i) && InSlot(r, startAt, span, j) ensures i == j {
      SlotUnique(r.time - startAt, span, i, j);
    }
    if InWindow(r, startAt, startAt + n * span) {
      var i := (r.time - startAt) / span;
      assert 0 <= i && i * span <= r.time - startAt < (i + 1) * span by {
        SlotOf(r.time - startAt, span);
      }
      assert i < n by {
        if i >= n {
          MulLe(n, i, span);
        }
      }
      assert InSlot(r, startAt, span, i);
    }
    if i: nat :| i < n && InSlot(r, startAt, span, i) {
      MulLe(0, i, span);
      MulLe(i + 1, n, span);
    }
  }

  lemma MulLe(a: int, b: int, c: int)
    requires a <= b && c > 0
    ensures a * c <= b * c
  {
  }

  lemma SlotOf(t: int, span: int)
    requires t >= 0 && span > 0
    ensures 0 <= t / span && (t / span) * span <= t < (t / span + 1) * span
  {
    assert t == (t / span) * span + t % span;
  }

  lemma SlotUnique(t: int, span: int, i: int, j: int)
    requires span > 0 && i * span <= t < (i + 1) * span && j * span <= t < (j + 1) * span
    ensures i == j
  {
    if i < j {
      MulLe(i + 1, j, span);
    } else if j < i {
      MulLe(j + 1, i, span);
    }
  }

  /** Volume is additive over neighbouring time ranges. */
  lemma {:induction false} VolumeSplits(rs: seq<Record>, a: int, b: int, c: int)
    requires a <= b <= c
    ensures Volume(Between(rs, a, c)) == Volume(Between(rs, a, b)) + Volume(Between(rs, b, c))
  {
    if rs != [] {
      VolumeSplits(rs[1..], a, b, c);
      var r := rs[0];
      assert InWindow(r, a, c) <==> InWindow(r, a, b) || InWindow(r, b, c);
      VolumeCons(r, Between(rs[1..], a, c));
      VolumeCons(r, Between(rs[1..], a, b));
      VolumeCons(r, Between(rs[1..], b, c));
    }
  }

  lemma VolumeCons(r: Record, rs: seq<Record>)
    ensures Volume([r] + rs) == r.volume + Volume(rs)
  {
    assert ([r] + rs)[1..] == rs;
  }

  lemma {:induction false} EmptyWindow(rs: seq<Record>, a: int)
    ensures Between(rs, a, a) == []
  {
    if rs != [] {
      EmptyWindow(rs[1..], a);
    }
  }

  /** One more slot adds its volume to that of the window. */
  lemma WindowStep(rs: seq<Record>, span: int, startAt: int, m: nat)
    requires span > 0
    ensures Volume(Between(rs, startAt, startAt + (m + 1) * span)) ==
            Volume(Between(rs, startAt, startAt + m * span)) + Volume(Slot(rs, startAt, span, m))
  {
    hide Between, Volume;
    MulLe(0, m, span);
    MulLe(m, m + 1, span);
    VolumeSplits(rs, startAt, startAt + m * span, startAt + (m + 1) * span);
  }

  /** The composed bars carry exactly the volume of the records in the covered window. */
  lemma {:induction false} VolumeConserved(records: seq<Record>, span: int, startAt: int, n: nat, bars: seq<Record>)
    requires span > 0 && Composition(records, span, startAt, n, bars)
    ensures Volume(bars) == Volume(Between(records, startAt, startAt + n * span))
    decreases n
  {
    hide *;
    if n == 0 {
      NothingComposed(records, span, startAt, bars);
    } else {
      var m := n - 1;
      WindowStep(records, span, startAt, m);
      CompositionUnstep(records, span, startAt, m, bars);
      if Slot(records, startAt, span, m) == [] {
        VolumeConserved(records, span, startAt, m, bars);
        EmptyVolume();
      } else {
        var k := |bars| - 1;
        VolumeConserved(records, span, startAt, m, bars[..k]);
        VolumeAppend(bars[..k], bars[k]);
        assert bars == bars[..k] + [bars[k]];
      }
    }
  }

  lemma NothingComposed(records: seq<Record>, span: int, startAt: int, bars: seq<Record>)
    requires Composition(records, span, startAt, 0, bars)
    ensures Volume(bars) == Volume(Between(records, startAt, startAt + 0 * span))
  {
    EmptyWindow(records, startAt);
  }

  lemma EmptyVolume()
    ensures Volume([]) == 0.0
  {
  }

  // ----- filtering -----

  /** Filtering keeps the order and every repetition: it can be done piece by piece, and keeps a record or drops it. */
  lemma {:induction false} BetweenJoins(a: seq<Record>, b: seq<Record>, from: int, till: int)
    ensures Between(a + b, from, till) == Between(a, from, till) + Between(b, from, till)
  {
    if a == [] {
      assert a + b == b;
    } else {
      assert (a + b)[1..] == a[1..] + b;
      BetweenJoins(a[1..], b, from, till);
    }
  }

  lemma BetweenOne(r: Record, from: int, till: int)
    ensures Between([r], from, till) == if from <= r.time < till then [r] else []
  {
  }
}
