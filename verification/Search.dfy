/** Index searches over signal series. Every search answers -1 when nothing is found. */
module Search {

  /** The largest index below i that holds v, or -1. */
  function LastEq(a: seq<int>, v: int, i: int): (r: int)
    requires i <= |a|
    ensures -1 <= r && (r < i || r == -1)
    ensures r >= 0 ==> a[r] == v
    ensures forall k :: 0 <= k < i && r < k ==> a[k] != v
  {
    if i <= 0 then -1 else if a[i - 1] == v then i - 1 else LastEq(a, v, i - 1)
  }

  /** The smallest index in [i, end) that holds v, or -1. */
  function NextEq(a: seq<int>, v: int, i: nat, end: int): (r: int)
    requires end <= |a|
    ensures r == -1 || i <= r < end
    ensures r >= 0 ==> a[r] == v
    ensures forall k :: i <= k < end && (r == -1 || k < r) ==> a[k] != v
    decreases end - i
  {
    if i >= end then -1 else if a[i] == v then i else NextEq(a, v, i + 1, end)
  }

  method FindPrevEq(a: array<int>, v: int, i: int) returns (result: int)
    requires i <= a.Length
    ensures result == LastEq(a[..], v, i)
  {
    result := -1;
    var x := i - 1;
    while x >= 0
      invariant i >= 0 ==> -1 <= x < i
      invariant i < 0 ==> x < 0
      invariant LastEq(a[..], v, i) == LastEq(a[..], v, x + 1)
    {
      if a[x] == v {
        result := x;
        return;
      }
      x := x - 1;
    }
  }

  method FindNextEq(a: array<int>, v: int, i: nat, end: int) returns (result: int)
    requires end <= a.Length
    ensures result == NextEq(a[..], v, i, end)
  {
    result := -1;
    var x := i;
    while x < end
      invariant i <= x
      invariant NextEq(a[..], v, i, end) == NextEq(a[..], v, x, end)
    {
      if a[x] == v {
        result := x;
        return;
      }
      x := x + 1;
    }
  }
}
