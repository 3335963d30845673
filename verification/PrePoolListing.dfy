/** The listing of the pre-pool: which codes it shows, and in which order. */
module PrePoolListing {
  import opened Wrappers
  import opened PrePool
  import L = PrePoolLaws
  import Sorting

  datatype Item = Item(code: string, group: Group)

  /** Whether a listing that asks for these shows the code; an empty text asks for nothing. */
  predicate Listed(rows: seq<Row>, c: string, source: string, category: string, code: string)
  {
    && c != "" && View(rows, c).Some?
    && (code == "" || c == code)
    && (source == "" || source in Sources(View(rows, c).value.memberships))
    && (category == "" || category in Categories(View(rows, c).value.memberships))
  }

  /** The codes of the rows, each where it comes first. */
  function FirstSeen(rows: seq<Row>): seq<string>
  {
    if rows == [] then []
    else
      var front, last := FirstSeen(rows[..|rows| - 1]), rows[|rows| - 1];
      if last.code == "" || last.code in front then front else front + [last.code]
  }

  function Items(rows: seq<Row>, codes: seq<string>, source: string, category: string, code: string): seq<Item>
  {
    if codes == [] then []
    else
      var front, c := Items(rows, codes[..|codes| - 1], source, category, code), codes[|codes| - 1];
      if Listed(rows, c, source, category, code) then front + [Item(c, View(rows, c).value)] else front
  }

  predicate EarlierThan(a: Option<Time>, b: Option<Time>) { b.Some? && (a.None? || a.value < b.value) }

  /** What a listing is sorted by within the ordered and within the other codes. */
  function Rank(g: Group): Option<Time> { if g.order.Some? then g.order else Or(g.updatedAt, g.createdAt) }

  /** Codes with an order come first, by it; the others follow by their last update; ties by code. */
  predicate ItemLess(a: Item, b: Item)
  {
    if a.group.order.Some? != b.group.order.Some? then a.group.order.Some?
    else EarlierThan(Rank(a.group), Rank(b.group)) || (Rank(a.group) == Rank(b.group) && Sorting.Less(a.code, b.code))
  }

  function Listing(rows: seq<Row>, source: string, category: string, code: string): seq<Item>
  {
    Sorting.Sorted(Items(rows, FirstSeen(rows), source, category, code), ItemLess)
  }

  lemma ItemOrder()
    ensures Sorting.Orders(ItemLess)
  {
    forall a: Item, b: Item ensures !(ItemLess(a, b) && ItemLess(b, a)) {
      Sorting.LessOrder(a.code, b.code, a.code);
    }
    forall a: Item, b: Item, c: Item ensures ItemLess(a, c) ==> ItemLess(a, b) || ItemLess(b, c) {
      Sorting.LessOrder(a.code, b.code, c.code);
    }
  }

  lemma {:induction false} FirstSeenIs(rows: seq<Row>)
    ensures forall c :: c in FirstSeen(rows) <==> c != "" && View(rows, c).Some?
    ensures forall i, j :: 0 <= i < j < |FirstSeen(rows)| ==> FirstSeen(rows)[i] != FirstSeen(rows)[j]
  {
    hide MergeRow, NewGroup, Finalized;
    if rows != [] {
      FirstSeenIs(rows[..|rows| - 1]);
    }
  }

  lemma {:induction false} ItemsAre(rows: seq<Row>, codes: seq<string>, source: string, category: string, code: string)
    requires forall i, j :: 0 <= i < j < |codes| ==> codes[i] != codes[j]
    ensures var items := Items(rows, codes, source, category, code);
            && (forall x :: x in items <==> x.code in codes && Listed(rows, x.code, source, category, code)
                                            && View(rows, x.code) == Some(x.group))
            && DistinctCodes(items)
  {
    hide Listed, View;
    if codes != [] {
      var front, c := codes[..|codes| - 1], codes[|codes| - 1];
      ItemsAre(rows, front, source, category, code);
      assert codes == front + [c] && c !in front;
      ListedViews(rows, c, source, category, code);
      var items := Items(rows, front, source, category, code);
      forall i | 0 <= i < |items| ensures items[i].code != c {
        assert items[i] in items;
      }
    }
  }

  lemma ListedViews(rows: seq<Row>, c: string, source: string, category: string, code: string)
    ensures Listed(rows, c, source, category, code) ==> View(rows, c).Some?
  {
  }

  /** No code comes twice. */
  predicate DistinctCodes(items: seq<Item>)
  {
    forall i, j :: 0 <= i < j < |items| ==> items[i].code != items[j].code
  }

  lemma {:induction false} InsertCodes(s: seq<Item>, x: Item)
    requires DistinctCodes(s) && forall y :: y in s ==> y.code != x.code
    ensures DistinctCodes(Sorting.Insert(s, x, ItemLess))
  {
    hide ItemLess;
    if s != [] && !ItemLess(x, s[0]) {
      InsertCodes(s[1..], x);
      Sorting.InsertIn(s[1..], x, ItemLess);
      var r := Sorting.Insert(s[1..], x, ItemLess);
      forall j | 0 <= j < |r| ensures r[j].code != s[0].code {
        assert r[j] in r;
        if r[j] != x {
          var i :| 0 <= i < |s[1..]| && s[1..][i] == r[j];
          assert s[i + 1] == r[j];
        }
      }
    }
  }

  lemma {:induction false} SortedCodes(d: seq<Item>)
    requires DistinctCodes(d)
    ensures DistinctCodes(Sorting.Sorted(d, ItemLess))
  {
    if d != [] {
      var n := |d| - 1;
      SortedCodes(d[..n]);
      Sorting.SortedPermutes(d[..n], ItemLess);
      forall y | y in d[..n] ensures y.code != d[n].code {
        var i :| 0 <= i < n && d[..n][i] == y;
      }
      InsertCodes(Sorting.Sorted(d[..n], ItemLess), d[n]);
    }
  }

  /** A listing shows exactly the codes that are asked for, each once with its merged view, ordered codes first. */
  lemma ListingIs(rows: seq<Row>, source: string, category: string, code: string)
    ensures var items := Listing(rows, source, category, code);
            && (forall x ::
                  x in items <==> Listed(rows, x.code, source, category, code) && View(rows, x.code) == Some(x.group))
            && DistinctCodes(items)
            && Sorting.Ordered(items, ItemLess)
  {
    hide ItemLess, View;
    FirstSeenIs(rows);
    ItemsAre(rows, FirstSeen(rows), source, category, code);
    ItemOrder();
    var d := Items(rows, FirstSeen(rows), source, category, code);
    Sorting.SortedPermutes(d, ItemLess);
    Sorting.SortedOrdered(d, ItemLess);
    SortedCodes(d);
  }

  lemma FirstTwo(items: seq<Item>)
    requires DistinctCodes(items)
    ensures |items| == 0 || items[0] in items
    ensures |items| < 2 || (items[0] in items && items[1] in items && items[0].code != items[1].code)
  {
  }

  /** Asked for one code, it shows that code's merged view or nothing. */
  lemma ListingOfOne(rows: seq<Row>, code: string)
    requires code != ""
    ensures Listing(rows, "", "", code) ==
            if View(rows, code).Some? then [Item(code, View(rows, code).value)] else []
  {
    hide View, ItemLess;
    ListingIs(rows, "", "", code);
    var items := Listing(rows, "", "", code);
    FirstTwo(items);
    assert forall x :: x in items ==> x.code == code;
    if View(rows, code).Some? {
      var x := Item(code, View(rows, code).value);
      assert x in items;
      assert |items| == 1;
      assert items[0] in items;
      assert items == [x];
    } else {
      assert forall x :: x !in items;
    }
  }
}
