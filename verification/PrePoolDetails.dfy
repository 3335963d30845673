/** What the operations of the pre-pool do to the single fields, stated without their helpers. */
module PrePoolDetails {
  import opened Wrappers
  import opened PrePool
  import opened PrePoolLaws
  import L = PrePoolListing
  import Sorting

  // ----- symbols and memberships -----

  /** A blank symbol is made from the code: six digits are of Shanghai when they start with 6, of Shenzhen else. */
  lemma SymbolWhen(symbol: string, code: string)
    ensures symbol != "" ==> SymbolOf(symbol, code) == symbol
    ensures var digits := |code| == 6 && forall c :: c in code ==> '0' <= c <= '9';
            symbol == "" ==> SymbolOf(symbol, code) ==
                             if !digits then code else if code[0] == '6' then "sh" + code else "sz" + code
  {
  }

  /** The membership an upsert adds: blank keys have names, and the remark is added to an extra that has none. */
  lemma NewMembershipIs(u: Upsert)
    ensures var m := NewMembership(u);
            && m.key.source == (if u.source == "" then "manual" else u.source)
            && m.key.category == (if u.category == "" then "uncategorized" else u.category)
            && m.addedAt == u.addedAt && m.expireAt == u.expireAt
            && (forall k :: k in m.extra <==> k in u.extra || (k == "source_remark" && u.sourceRemark != ""))
            && (forall k :: k in u.extra ==> m.extra[k] == u.extra[k])
            && ("source_remark" !in u.extra && u.sourceRemark != "" ==>
                  m.extra["source_remark"] == Value(u.sourceRemark, None))
  {
  }

  /** A row of the older form offers one membership, dated by its last update. */
  lemma LegacyOffer(row: Row)
    requires row.memberships.None?
    ensures |Offers(row)| == 1
    ensures var m := Offers(row)[0];
            && m.addedAt == (if row.updatedAt.Some? then row.updatedAt else row.datetime)
            && m.expireAt == row.expireAt
            && (forall k :: k in m.extra <==> k in row.extra || (k == "source_remark" && row.remark != ""))
            && (forall k :: k in row.extra ==> m.extra[k] == row.extra[k])
            && ("source_remark" !in row.extra && row.remark != "" ==>
                  m.extra["source_remark"] == Value(row.remark, None))
  {
    hide LegacySource, LegacyCategory;
    OneOffer(row);
  }

  predicate OfScreening(row: Row) { |row.remark| >= 16 && row.remark[..16] == "daily-screening:" }

  predicate OfThirty(row: Row)
  {
    || row.category in {"三十涨停Pro预选", "三十涨停Pro自选", "三十涨停Pro"}
    || exists x :: x in row.extra && |x| >= 10 && x[..10] == "shouban30_"
  }

  lemma ThirtyIs(row: Row)
    ensures IsShouban(row) <==> OfThirty(row)
  {
    forall x | x in row.extra ensures "shouban30_" <= x <==> |x| >= 10 && x[..10] == "shouban30_" {
      Starts("shouban30_", x);
    }
  }

  /** Its source: a remark of the daily screening names that, a category or an extra of the thirty names those;
      otherwise the remark is taken as it is. */
  lemma LegacySourceIs(row: Row)
    requires row.memberships.None?
    ensures |Offers(row)| == 1
    ensures Offers(row)[0].key.source == if OfScreening(row) then "daily-screening"
                                         else if OfThirty(row) then "shouban30"
                                         else if row.remark != "" then row.remark else "manual"
  {
    hide IsShouban, OfThirty, LegacyCategory;
    ThirtyIs(row);
    Starts("daily-screening:", row.remark);
    OneOffer(row);
  }

  /** Its category: that of the thirty is their plate, if they have one; else the row's own; else what the daily
      screening screened for. */
  lemma LegacyCategoryIs(row: Row)
    requires row.memberships.None?
    ensures |Offers(row)| == 1
    ensures var plate := if "shouban30_plate_key" in row.extra then row.extra["shouban30_plate_key"].text else "";
            Offers(row)[0].key.category == if OfThirty(row) && plate != "" then "plate:" + plate
                                           else if row.category != "" then row.category
                                           else if OfScreening(row) && |row.remark| > 16 then row.remark[16..]
                                           else if OfScreening(row) then "daily-screening" else "uncategorized"
  {
    hide IsShouban, OfThirty, LegacySource;
    ThirtyIs(row);
    Starts("daily-screening:", row.remark);
    OneOffer(row);
  }

  lemma OneOffer(row: Row)
    requires row.memberships.None?
    ensures Offers(row) == [Normalized(LegacyMembership(row))]
  {
    assert AllNormalized([LegacyMembership(row)])[0] == Normalized(LegacyMembership(row));
  }

  lemma Starts(prefix: string, s: string)
    ensures prefix <= s <==> |s| >= |prefix| && s[..|prefix|] == prefix
  {
  }

  // ----- orders -----

  /** The order a membership carries, when that is a number from zero on. */
  predicate Carries(m: Membership, n: int)
  {
    n >= 0 && "shouban30_order" in m.extra && m.extra["shouban30_order"].number == Some(n)
  }

  /** Of the orders that the memberships carry the smallest is taken, and none when none carries one. */
  lemma {:induction false} OrderIs(d: seq<Membership>)
    ensures WorkspaceOrder(d).None? <==> forall m, n :: m in d ==> !Carries(m, n)
    ensures WorkspaceOrder(d).Some? ==>
              && (exists m :: m in d && Carries(m, WorkspaceOrder(d).value))
              && forall m, n :: m in d && Carries(m, n) ==> WorkspaceOrder(d).value <= n
  {
    if d != [] {
      var front, last := d[..|d| - 1], d[|d| - 1];
      OrderIs(front);
      assert d == front + [last] && forall m :: m in d <==> m in front || m == last;
      assert last in d;
      if "shouban30_order" in last.extra && last.extra["shouban30_order"].number.Some? {
        var n := last.extra["shouban30_order"].number.value;
        assert n >= 0 ==> Carries(last, n);
      }
    }
  }

  // ----- removing and purging -----

  /** Where memberships remain, removing some keeps the code's name, symbol, creation and expiry, and its update where
      there is one. It keeps the order too, unless the thirty were removed: then the order is the smallest that a
      remaining membership carries. */
  lemma RemoveFields(rows: seq<Row>, code: string, source: string, category: string)
    requires code != "" && source != "" && Removed(rows, code, source, category).1
    requires View(Removed(rows, code, source, category).0, code).Some?
    ensures View(rows, code).Some?
    ensures var was, is' := View(rows, code).value, View(Removed(rows, code, source, category).0, code).value;
            && is'.name == was.name && is'.symbol == was.symbol && is'.createdAt == was.createdAt
            && is'.expireAt == was.expireAt
            && is'.updatedAt == (if was.updatedAt.Some? then was.updatedAt else was.createdAt)
            && is'.order == (if source == "shouban30" then WorkspaceOrder(is'.memberships) else was.order)
  {
    hide View, Sorted, Unselected, WorkspaceOrder, Sources, Categories;
    RowsOfWithout(rows, code, code);
    NoView(Without(rows, code), code);
    RemainingWritten(rows, code, source, category, Key(source, category));
    var doc := RemainingDoc(rows, code, source, category);
    RowsOfRewritten(rows, doc, code);
    ReadBack(Rewritten(rows, doc), doc);
  }

  lemma NoView(rows: seq<Row>, code: string)
    requires RowsOf(rows, code) == []
    ensures View(rows, code).None?
  {
    MergedIs(rows, code);
  }

  /** A purged row keeps the memberships that have not expired by now, shows their latest expiry, and is otherwise as it
      was. */
  lemma PurgedFields(row: Row, now: Time)
    requires row.memberships.Some?
    ensures var doc := PurgedDoc(row, now);
            && doc.memberships.Some?
            && doc == row.(memberships := doc.memberships, sources := doc.sources, categories := doc.categories,
                           expireAt := doc.expireAt)
            && (forall m :: m in doc.memberships.value <==>
                  exists x :: x in row.memberships.value && !(x.expireAt.Some? && x.expireAt.value < now)
                              && m == Normalized(x))
            && (doc.expireAt.None? <==> forall m :: m in doc.memberships.value ==> m.expireAt.None?)
            && (doc.expireAt.Some? ==> exists m :: m in doc.memberships.value && m.expireAt == doc.expireAt)
            && (forall m :: m in doc.memberships.value && m.expireAt.Some? ==> m.expireAt.value <= doc.expireAt.value)
  {
    var live := Live(row.memberships.value, now);
    LiveAre(row.memberships.value, now);
    Sorting.SortedPermutes(live, MembershipLess);
    LatestIs(Sorted(live));
  }

  lemma {:induction false} LiveAre(d: seq<Membership>, now: Time)
    ensures forall m :: m in Live(d, now) <==>
                        exists x :: x in d && !(x.expireAt.Some? && x.expireAt.value < now) && m == Normalized(x)
  {
    if d != [] {
      var front, last := d[..|d| - 1], d[|d| - 1];
      LiveAre(front, now);
      assert d == front + [last] && forall x :: x in d <==> x in front || x == last;
    }
  }

  lemma {:induction false} LatestIs(d: seq<Membership>)
    ensures LatestExpiry(d).None? <==> forall m :: m in d ==> m.expireAt.None?
    ensures LatestExpiry(d).Some? ==> exists m :: m in d && m.expireAt == LatestExpiry(d)
    ensures forall m :: m in d && m.expireAt.Some? ==> m.expireAt.value <= LatestExpiry(d).value
  {
    if d != [] {
      var front, last := d[..|d| - 1], d[|d| - 1];
      LatestIs(front);
      assert d == front + [last] && forall x :: x in d <==> x in front || x == last;
      assert last in d;
    }
  }

  // ----- the listing -----

  /** The time a code without an order is listed by: its last update, else its creation. */
  function ListedTime(g: Group): Option<Time> { if g.updatedAt.Some? then g.updatedAt else g.createdAt }

  /** Codes with an order come first, in that order; the others in the order of their times, those without one first;
      equal ones in the order of their codes. */
  lemma ListingOrder(rows: seq<Row>, source: string, category: string, code: string, i: nat, j: nat)
    requires i < j < |L.Listing(rows, source, category, code)|
    ensures var x, y := L.Listing(rows, source, category, code)[i], L.Listing(rows, source, category, code)[j];
            && (y.group.order.Some? ==> x.group.order.Some? && x.group.order.value <= y.group.order.value)
            && (x.group.order.None? && y.group.order.None? ==> NotAfter(ListedTime(x.group), ListedTime(y.group)))
            && (x.group.order == y.group.order
                && (x.group.order.Some? || ListedTime(x.group) == ListedTime(y.group)) ==>
                  !Sorting.Less(y.code, x.code))
  {
    L.ListingIs(rows, source, category, code);
    var x, y := L.Listing(rows, source, category, code)[i], L.Listing(rows, source, category, code)[j];
    assert !L.ItemLess(y, x);
  }
}
