/** The order of texts, and stable sorting by an order. */
module Sorting {

  /** Texts compare character by character. */
  predicate Less(a: string, b: string)
  {
    b != [] && (a == [] || a[0] < b[0] || (a[0] == b[0] && Less(a[1..], b[1..])))
  }

  /** Texts are totally ordered. */
  lemma {:induction false} LessOrder(a: string, b: string, c: string)
    ensures !(Less(a, b) && Less(b, a))
    ensures Less(a, b) || Less(b, a) || a == b
    ensures Less(a, c) ==> Less(a, b) || Less(b, c)
  {
    if a != [] && b != [] {
      if c != [] {
        LessOrder(a[1..], b[1..], c[1..]);
      } else {
        LessOrder(a[1..], b[1..], []);
      }
      assert a == [a[0]] + a[1..] && b == [b[0]] + b[1..];
    }
  }

  /** The relation orders values, up to ties. */
  ghost predicate Orders<T(!new)>(less: (T, T) -> bool)
  {
    && (forall a, b :: !(less(a, b) && less(b, a)))
    && (forall a, b, c :: less(a, c) ==> less(a, b) || less(b, c))
  }

  predicate Ordered<T>(d: seq<T>, less: (T, T) -> bool)
  {
    forall i, j :: 0 <= i < j < |d| ==> !less(d[j], d[i])
  }

  function Insert<T>(s: seq<T>, x: T, less: (T, T) -> bool): seq<T>
  {
    if s == [] then [x] else if less(x, s[0]) then [x] + s else [s[0]] + Insert(s[1..], x, less)
  }

  /** The list in order, ties as they came. */
  function Sorted<T>(d: seq<T>, less: (T, T) -> bool): seq<T>
  {
    if d == [] then [] else Insert(Sorted(d[..|d| - 1], less), d[|d| - 1], less)
  }

  lemma {:induction false} InsertIn<T>(s: seq<T>, x: T, less: (T, T) -> bool)
    ensures multiset(Insert(s, x, less)) == multiset(s) + multiset{x}
    ensures |Insert(s, x, less)| == |s| + 1
    ensures forall y :: y in Insert(s, x, less) <==> y in s || y == x
  {
    if s != [] {
      InsertIn(s[1..], x, less);
      assert s == [s[0]] + s[1..];
    }
  }

  lemma {:induction false} InsertOrdered<T(!new)>(s: seq<T>, x: T, less: (T, T) -> bool)
    requires Orders(less) && Ordered(s, less)
    ensures Ordered(Insert(s, x, less), less)
  {
    if s != [] {
      if less(x, s[0]) {
        forall j | 0 <= j < |s| ensures !less(s[j], x) {
          var y, z := s[j], s[0];
          assert less(x, z) ==> less(x, y) || less(y, z);
        }
      } else {
        InsertOrdered(s[1..], x, less);
        InsertIn(s[1..], x, less);
        var r := Insert(s[1..], x, less);
        forall j | 0 <= j < |r| ensures !less(r[j], s[0]) {
          assert r[j] in r;
          if r[j] in s[1..] {
            var i :| 0 <= i < |s[1..]| && s[1..][i] == r[j];
            assert s[i + 1] == r[j];
          }
        }
      }
    }
  }

  /** Sorting permutes a list. */
  lemma {:induction false} SortedPermutes<T>(d: seq<T>, less: (T, T) -> bool)
    ensures multiset(Sorted(d, less)) == multiset(d) && |Sorted(d, less)| == |d|
    ensures forall x :: x in Sorted(d, less) <==> x in d
  {
    if d != [] {
      var n := |d| - 1;
      SortedPermutes(d[..n], less);
      InsertIn(Sorted(d[..n], less), d[n], less);
      assert d == d[..n] + [d[n]];
    }
  }

  /** Sorting brings a list into order. */
  lemma {:induction false} SortedOrdered<T(!new)>(d: seq<T>, less: (T, T) -> bool)
    requires Orders(less)
    ensures Ordered(Sorted(d, less), less)
  {
    if d != [] {
      SortedOrdered(d[..|d| - 1], less);
      InsertOrdered(Sorted(d[..|d| - 1], less), d[|d| - 1], less);
    }
  }

  lemma {:induction false} InsertLast<T>(s: seq<T>, x: T, less: (T, T) -> bool)
    requires forall y :: y in s ==> !less(x, y)
    ensures Insert(s, x, less) == s + [x]
  {
    if s != [] {
      InsertLast(s[1..], x, less);
      assert s == [s[0]] + s[1..];
    }
  }

  /** A list in order is left as it is. */
  lemma {:induction false} SortedFixed<T>(d: seq<T>, less: (T, T) -> bool)
    requires Ordered(d, less)
    ensures Sorted(d, less) == d
  {
    if d != [] {
      var n := |d| - 1;
      SortedFixed(d[..n], less);
      InsertLast(d[..n], d[n], less);
      assert d == d[..n] + [d[n]];
    }
  }
}
