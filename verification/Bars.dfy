/** Bars seen through one sign: a top is judged by its high, a bottom by its low.
    Every rule of the recogniser comes in two mirrored versions; with Reach both are one statement. */
module Bars {

  function Max(a: real, b: real): real { if b > a then b else a }

  function Min(a: real, b: real): real { if b < a then b else a }

  datatype Bars = Bars(high: seq<real>, low: seq<real>)
  {
    ghost predicate Covers(n: nat) { |high| == n && |low| == n }

    /** How far bar k reaches in direction s: its high for s == 1, its negated low otherwise. */
    function Reach(s: int, k: nat): real
      requires k < |high| && k < |low|
    {
      if s == 1 then high[k] else -low[k]
    }

    /** The first bar of [x, y] that reaches furthest in direction s. */
    function FirstPeak(s: int, x: nat, y: nat): (r: nat)
      requires x <= y < |high| && y < |low|
      ensures x <= r <= y
      ensures forall k :: x <= k <= y ==> Reach(s, k) <= Reach(s, r)
      ensures forall k :: x <= k < r ==> Reach(s, k) < Reach(s, r)
      decreases y - x
    {
      if y == x then x
      else
        var r := FirstPeak(s, x, y - 1);
        if Reach(s, y) > Reach(s, r) then y else r
    }

    /** Bar i reaches strictly further in direction s than every bar of [x, i). */
    ghost predicate BreaksOut(s: int, x: nat, i: nat)
      requires x <= i < |high| && i < |low|
    {
      forall k :: x <= k < i ==> Reach(s, k) < Reach(s, i)
    }
  }

  method FirstHighest(bars: Bars, x: nat, y: nat) returns (xx: nat)
    requires x < |bars.high| && y < |bars.high| && |bars.low| == |bars.high|
    ensures xx == if x <= y then bars.FirstPeak(1, x, y) else x
  {
    xx := x;
    var t := x + 1;
    while t < y + 1
      invariant x < t && (x <= y ==> t <= y + 1)
      invariant xx == if x <= y then bars.FirstPeak(1, x, t - 1) else x
    {
      if bars.high[t] > bars.high[xx] {
        xx := t;
      }
      t := t + 1;
    }
  }

  method FirstLowest(bars: Bars, x: nat, y: nat) returns (xx: nat)
    requires x < |bars.high| && y < |bars.high| && |bars.low| == |bars.high|
    ensures xx == if x <= y then bars.FirstPeak(-1, x, y) else x
  {
    xx := x;
    var t := x + 1;
    while t < y + 1
      invariant x < t && (x <= y ==> t <= y + 1)
      invariant xx == if x <= y then bars.FirstPeak(-1, x, t - 1) else x
    {
      if bars.low[t] < bars.low[xx] {
        xx := t;
      }
      t := t + 1;
    }
  }
}
