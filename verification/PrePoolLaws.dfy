/** What the merged view and the operations on it promise. */
module PrePoolLaws {
  import opened Wrappers
  import opened PrePool
  import Sorting

  // ----- lists of memberships -----

  lemma {:induction false} FindPut(d: seq<Membership>, m: Membership, k: Key)
    ensures Find(Put(d, m), k) == if k == m.key then Some(m) else Find(d, k)
  {
    if d != [] {
      if d[0].key == m.key {
        assert ([m] + d[1..])[1..] == d[1..];
      } else {
        FindPut(d[1..], m, k);
        assert ([d[0]] + Put(d[1..], m))[1..] == Put(d[1..], m);
      }
    }
  }

  /** Finding by key in a list of distinct keys. */
  lemma {:induction false} FindIs(d: seq<Membership>, k: Key)
    ensures Find(d, k).None? <==> forall m :: m in d ==> m.key != k
    ensures Find(d, k).Some? ==> Find(d, k).value in d && Find(d, k).value.key == k
    ensures Distinct(d) ==> forall m :: m in d && m.key == k ==> Find(d, k) == Some(m)
  {
    if d != [] {
      FindIs(d[1..], k);
      assert d == [d[0]] + d[1..];
    }
  }

  lemma {:induction false} PutNew(d: seq<Membership>, m: Membership)
    requires Find(d, m.key).None?
    ensures Put(d, m) == d + [m]
  {
    if d != [] {
      PutNew(d[1..], m);
      assert d == [d[0]] + d[1..];
    }
  }

  /** What is in a list after a key is assigned. */
  lemma {:induction false} PutKeys(d: seq<Membership>, m: Membership)
    ensures forall x :: x in Put(d, m) ==> x == m || x in d
    ensures Distinct(d) ==> Distinct(Put(d, m))
  {
    if d != [] {
      PutKeys(d[1..], m);
      if d[0].key == m.key {
      } else if Distinct(d) {
        var r := Put(d[1..], m);
        assert Distinct(d[1..]);
        forall x | x in r ensures x.key != d[0].key {
          if x != m {
            var j :| 0 <= j < |d[1..]| && d[1..][j] == x;
            assert d[j + 1] == x;
          }
        }
      }
    }
  }

  // ----- sorting -----

  lemma MembershipOrder()
    ensures Sorting.Orders(MembershipLess)
  {
    forall a: Membership, b: Membership ensures !(MembershipLess(a, b) && MembershipLess(b, a)) {
      KeyOrder(a.key, b.key, a.key);
    }
    forall a: Membership, b: Membership, c: Membership
      ensures MembershipLess(a, c) ==> MembershipLess(a, b) || MembershipLess(b, c)
    {
      KeyOrder(a.key, b.key, c.key);
    }
  }

  /** Sorting permutes a list into key order. */
  lemma SortedIs(d: seq<Membership>)
    ensures Ordered(Sorted(d)) && multiset(Sorted(d)) == multiset(d) && |Sorted(d)| == |d|
    ensures forall x :: x in Sorted(d) <==> x in d
  {
    MembershipOrder();
    Sorting.SortedOrdered(d, MembershipLess);
    Sorting.SortedPermutes(d, MembershipLess);
  }

  lemma {:induction false} InsertDistinct(s: seq<Membership>, m: Membership)
    requires Distinct(s) && Find(s, m.key).None?
    ensures Distinct(Sorting.Insert(s, m, MembershipLess))
  {
    hide KeyLess;
    FindIs(s, m.key);
    if s != [] && !MembershipLess(m, s[0]) {
      FindIs(s[1..], m.key);
      InsertDistinct(s[1..], m);
      Sorting.InsertIn(s[1..], m, MembershipLess);
      var r := Sorting.Insert(s[1..], m, MembershipLess);
      forall j | 0 <= j < |r| ensures r[j].key != s[0].key {
        assert r[j] in r;
        if r[j] != m {
          var i :| 0 <= i < |s[1..]| && s[1..][i] == r[j];
          assert s[i + 1] == r[j];
        }
      }
    }
  }

  lemma {:induction false} SortedDistinct(d: seq<Membership>, k: Key)
    requires Distinct(d)
    ensures Distinct(Sorted(d)) && Find(Sorted(d), k) == Find(d, k)
  {
    if d != [] {
      var n := |d| - 1;
      SortedDistinct(d[..n], d[n].key);
      SortedIs(d[..n]);
      FindIs(d[..n], d[n].key);
      InsertDistinct(Sorted(d[..n]), d[n]);
    }
    SortedIs(d);
    FindIs(d, k);
    FindIs(Sorted(d), k);
  }

  // ----- offers -----

  lemma {:induction false} OfferAllAdd(d: seq<Membership>, a: seq<Membership>, b: seq<Membership>)
    ensures OfferAll(d, a + b) == OfferAll(OfferAll(d, a), b)
  {
    if b == [] {
      assert a + b == a;
    } else {
      OfferAllAdd(d, a, b[..|b| - 1]);
      assert (a + b)[..|a + b| - 1] == a + b[..|b| - 1];
    }
  }

  /** Time a is not after b; an absent time is before all others. */
  predicate NotAfter(a: Option<Time>, b: Option<Time>) { a.None? || (b.Some? && a.value <= b.value) }

  predicate Before(a: Option<Time>, b: Option<Time>) { b.Some? && (a.None? || a.value < b.value) }

  /** Which of the offers a key ends up with: no other of the key was added after it, and none that stands behind it was
      added at the same time; one without a time wins only where none has a time, and then the last does. */
  predicate Wins(offers: seq<Membership>, i: nat, k: Key)
  {
    && i < |offers| && offers[i].key == k
    && (forall j :: 0 <= j <= i && offers[j].key == k ==> NotAfter(offers[j].addedAt, offers[i].addedAt))
    && (forall j :: i < j < |offers| && offers[j].key == k ==> Before(offers[j].addedAt, offers[i].addedAt))
  }

  lemma {:induction false} OfferAllIs(offers: seq<Membership>, k: Key)
    ensures Distinct(OfferAll([], offers))
    ensures Find(OfferAll([], offers), k).None? <==> forall m :: m in offers ==> m.key != k
    ensures Find(OfferAll([], offers), k).Some? ==>
        exists i: nat :: i < |offers| && Wins(offers, i, k) && Find(OfferAll([], offers), k) == Some(offers[i])
  {
    hide Find, Put, Wins, Distinct;
    if offers == [] {
      FindIs([], k);
      NoneTwice();
    } else {
      var n := |offers| - 1;
      var front, m := offers[..n], offers[n];
      var d := OfferAll([], front);
      OfferAllIs(front, k);
      PutKeys(d, m);
      FindPut(d, m, k);
      assert offers == front + [m] && forall x :: x in offers <==> x in front || x == m;
      if m.key == k && (Find(d, k).None? || NotAfter(Find(d, k).value.addedAt, m.addedAt)) {
        if Find(d, k).None? {
          FirstWins(front, m, k);
        } else {
          var i: nat :| i < |front| && Wins(front, i, k) && Find(d, k) == Some(front[i]);
          LastWins(front, m, k, i);
        }
      } else if Find(d, k).Some? {
        var i: nat :| i < |front| && Wins(front, i, k) && Find(d, k) == Some(front[i]);
        StillWins(front, m, k, i);
      }
    }
  }

  lemma NoneTwice()
    ensures Distinct([])
  {
  }

  lemma FirstWins(front: seq<Membership>, m: Membership, k: Key)
    requires m.key == k && forall x :: x in front ==> x.key != k
    ensures Wins(front + [m], |front|, k)
  {
  }

  lemma LastWins(front: seq<Membership>, m: Membership, k: Key, i: nat)
    requires m.key == k && Wins(front, i, k) && NotAfter(front[i].addedAt, m.addedAt)
    ensures Wins(front + [m], |front|, k)
  {
  }

  lemma StillWins(front: seq<Membership>, m: Membership, k: Key, i: nat)
    requires Wins(front, i, k) && (m.key == k ==> !NotAfter(front[i].addedAt, m.addedAt))
    ensures Wins(front + [m], i, k) && (front + [m])[i] == front[i]
  {
  }

  /** A list of distinct keys, offered to nothing, is taken as it is. */
  lemma {:induction false} OfferDistinct(ms: seq<Membership>)
    requires Distinct(ms)
    ensures OfferAll([], ms) == ms
  {
    if ms != [] {
      var n := |ms| - 1;
      OfferDistinct(ms[..n]);
      FindIs(ms[..n], ms[n].key);
      PutNew(ms[..n], ms[n]);
      assert ms == ms[..n] + [ms[n]];
    }
  }

  predicate Normal(m: Membership) { m.key.source != "" && m.key.category != "" }

  predicate AllNormal(d: seq<Membership>) { forall m :: m in d ==> Normal(m) }

  lemma {:induction false} OfferNormal(d: seq<Membership>, ms: seq<Membership>)
    requires AllNormal(d) && AllNormal(ms)
    ensures AllNormal(OfferAll(d, ms))
  {
    if ms != [] {
      OfferNormal(d, ms[..|ms| - 1]);
      PutKeys(OfferAll(d, ms[..|ms| - 1]), ms[|ms| - 1]);
    }
  }

  lemma NormalFixed(d: seq<Membership>)
    requires AllNormal(d)
    ensures AllNormalized(d) == d
  {
    forall i | 0 <= i < |d| ensures AllNormalized(d)[i] == d[i] {
      assert Normal(d[i]);
    }
  }

  lemma OffersNormal(row: Row)
    ensures AllNormal(Offers(row))
  {
  }

  // ----- the merged view -----

  /** All that the rows of a code offer, in row order. */
  function AllOffers(rows: seq<Row>, code: string): seq<Membership>
  {
    if rows == [] then []
    else AllOffers(rows[..|rows| - 1], code) + if rows[|rows| - 1].code == code then Offers(rows[|rows| - 1]) else []
  }

  lemma {:induction false} MergedIs(rows: seq<Row>, code: string)
    ensures Merged(rows, code).None? <==> RowsOf(rows, code) == []
    ensures Merged(rows, code).None? ==> AllOffers(rows, code) == []
    ensures Merged(rows, code).Some? ==> Merged(rows, code).value.memberships == OfferAll([], AllOffers(rows, code))
    ensures Merged(rows, code).Some? ==> AllNormal(Merged(rows, code).value.memberships)
  {
    if rows != [] {
      var front, last := rows[..|rows| - 1], rows[|rows| - 1];
      MergedIs(front, code);
      if last.code == code {
        var before := AllOffers(front, code);
        OfferAllAdd([], before, Offers(last));
        OffersNormal(last);
        OfferNormal(if Merged(front, code).Some? then OfferAll([], before) else [], Offers(last));
        assert before == [] ==> before + Offers(last) == Offers(last);
      } else {
        assert AllOffers(front, code) + [] == AllOffers(front, code);
      }
    }
  }

  /** The merged view shows, under each source and category, the latest membership that any row of the code offers,
      the last one on ties, and nothing that no row offers; its list is in key order with each key once. */
  lemma ViewShowsLatest(rows: seq<Row>, code: string, k: Key)
    ensures Shown(rows, code, k).None? <==> forall m :: m in AllOffers(rows, code) ==> m.key != k
    ensures Shown(rows, code, k).Some? ==>
              exists i: nat :: Wins(AllOffers(rows, code), i, k)
                  && Shown(rows, code, k) == Some(AllOffers(rows, code)[i])
    ensures Distinct(MembershipsOf(rows, code)) && Ordered(MembershipsOf(rows, code))
        && AllNormal(MembershipsOf(rows, code))
  {
    MergedIs(rows, code);
    OfferAllIs(AllOffers(rows, code), k);
    if Merged(rows, code).Some? {
      var d := Merged(rows, code).value.memberships;
      SortedDistinct(d, k);
      SortedIs(d);
    }
  }

  /** The earliest of the times that f gives the rows, absent when it gives none. */
  ghost predicate IsEarliest(t: Option<Time>, rows: seq<Row>, f: Row -> Option<Time>)
  {
    && (t.None? <==> forall r :: r in rows ==> f(r).None?)
    && (t.Some? ==> exists r :: r in rows && f(r) == t)
    && (t.Some? ==> forall r :: r in rows && f(r).Some? ==> t.value <= f(r).value)
  }

  ghost predicate IsLatest(t: Option<Time>, rows: seq<Row>, f: Row -> Option<Time>)
  {
    && (t.None? <==> forall r :: r in rows ==> f(r).None?)
    && (t.Some? ==> exists r :: r in rows && f(r) == t)
    && (t.Some? ==> forall r :: r in rows && f(r).Some? ==> f(r).value <= t.value)
  }

  function CreatedOf(r: Row): Option<Time> { if r.createdAt.Some? then r.createdAt else r.datetime }

  function UpdatedOf(r: Row): Option<Time> { if r.updatedAt.Some? then r.updatedAt else r.datetime }

  lemma EarliestNext(t: Option<Time>, rows: seq<Row>, last: Row, f: Row -> Option<Time>)
    requires IsEarliest(t, rows, f)
    ensures IsEarliest(Earliest(t, f(last)), rows + [last], f)
  {
    assert last in rows + [last];
    forall r | r in rows ensures r in rows + [last] {
    }
  }

  lemma LatestNext(t: Option<Time>, rows: seq<Row>, last: Row, f: Row -> Option<Time>)
    requires IsLatest(t, rows, f)
    ensures IsLatest(Latest(t, f(last)), rows + [last], f)
  {
    assert last in rows + [last];
    forall r | r in rows ensures r in rows + [last] {
    }
  }

  /** The name of the last row that has one, else the code. */
  function LastName(rows: seq<Row>, code: string): string
  {
    if rows == [] then code
    else if rows[|rows| - 1].name != "" then rows[|rows| - 1].name else LastName(rows[..|rows| - 1], code)
  }

  /** The merged view shows the earliest creation and the latest update and expiry of the rows. */
  lemma {:induction false} ViewTimes(rows: seq<Row>, code: string)
    requires Merged(rows, code).Some?
    ensures var g, rs := Merged(rows, code).value, RowsOf(rows, code);
            && IsEarliest(g.createdAt, rs, CreatedOf) && IsLatest(g.updatedAt, rs, UpdatedOf)
            && IsLatest(g.expireAt, rs, (r: Row) => r.expireAt)
  {
    hide IsEarliest, IsLatest, Earliest, Latest, OfferAll;
    var front, last := rows[..|rows| - 1], rows[|rows| - 1];
    if last.code == code {
      var rs := RowsOf(front, code);
      MergedIs(front, code);
      var g := if Merged(front, code).Some? then Merged(front, code).value else NewGroup(last);
      if rs != [] {
        ViewTimes(front, code);
      } else {
        NoTimes(CreatedOf);
        NoTimes(UpdatedOf);
        NoTimes((r: Row) => r.expireAt);
      }
      EarliestNext(g.createdAt, rs, last, CreatedOf);
      LatestNext(g.updatedAt, rs, last, UpdatedOf);
      LatestNext(g.expireAt, rs, last, (r: Row) => r.expireAt);
    } else {
      ViewTimes(front, code);
      assert RowsOf(front, code) + [] == RowsOf(front, code);
    }
  }

  lemma NoTimes(f: Row -> Option<Time>)
    ensures IsEarliest(None, [], f) && IsLatest(None, [], f)
  {
  }

  /** And it shows the last name. */
  lemma {:induction false} ViewName(rows: seq<Row>, code: string)
    requires code != "" && Merged(rows, code).Some?
    ensures Merged(rows, code).value.name == LastName(RowsOf(rows, code), code) != ""
  {
    hide Earliest, Latest, OfferAll;
    var front, last := rows[..|rows| - 1], rows[|rows| - 1];
    var rs := RowsOf(front, code);
    if last.code == code {
      MergedIs(front, code);
      if rs != [] {
        ViewName(front, code);
      }
      assert (rs + [last])[..|rs|] == rs;
    } else {
      ViewName(front, code);
      assert rs + [] == rs;
    }
  }

  // ----- rows of one code -----

  lemma {:induction false} RowsOfWithout(rows: seq<Row>, code: string, c: string)
    ensures RowsOf(Without(rows, code), c) == if c == code then [] else RowsOf(rows, c)
  {
    if rows != [] {
      var front, last := rows[..|rows| - 1], rows[|rows| - 1];
      RowsOfWithout(front, code, c);
      var w := Without(front, code);
      assert (w + [last])[..|w|] == w && w + [] == w;
      assert RowsOf(front, c) + [] == RowsOf(front, c);
    }
  }

  /** After a rewrite a code has the new row alone, and the others have their rows. */
  lemma RowsOfRewritten(rows: seq<Row>, doc: Row, c: string)
    ensures RowsOf(Rewritten(rows, doc), c) == if c == doc.code then [doc] else RowsOf(rows, c)
  {
    RowsOfWithout(rows, doc.code, c);
    assert Rewritten(rows, doc)[..|Rewritten(rows, doc)| - 1] == Without(rows, doc.code);
  }

  /** The merged view of a code depends on its own rows alone. */
  lemma {:induction false} MergedLocal(rows: seq<Row>, code: string)
    ensures Merged(rows, code) == Merged(RowsOf(rows, code), code)
  {
    if rows != [] {
      var front, last := rows[..|rows| - 1], rows[|rows| - 1];
      MergedLocal(front, code);
      var r := RowsOf(front, code);
      assert (r + [last])[..|r|] == r && r + [] == r;
    }
  }

  lemma ViewLocal(rows: seq<Row>, other: seq<Row>, code: string)
    requires RowsOf(rows, code) == RowsOf(other, code)
    ensures View(rows, code) == View(other, code)
  {
    MergedLocal(rows, code);
    MergedLocal(other, code);
  }

  // ----- reading back what was written -----

  /** A row as the operations write it. */
  predicate Written(doc: Row)
  {
    && doc.code != "" && doc.name != "" && doc.symbol != ""
    && doc.memberships.Some? && Distinct(doc.memberships.value) && Ordered(doc.memberships.value)
        && AllNormal(doc.memberships.value)
  }

  /** A written row is read back as it was written, except that an absent time or order is filled in from the
      row's older fields. */
  lemma ReadBack(rows: seq<Row>, doc: Row)
    requires RowsOf(rows, doc.code) == [doc] && Written(doc)
    ensures View(rows, doc.code) == Some(Group(doc.name, doc.symbol, Or(doc.createdAt, doc.datetime),
        Or(doc.updatedAt, doc.datetime),
                                               doc.expireAt, RowOrder(doc), doc.memberships.value))
  {
    MergedLocal(rows, doc.code);
    assert [doc][..0] == [];
    var ms := doc.memberships.value;
    NormalFixed(ms);
    OfferDistinct(ms);
    Sorting.SortedFixed(ms, MembershipLess);
    assert Merged([doc], doc.code) == Some(MergeRow(NewGroup(doc), doc));
  }

  /** The code's rows are exactly one written row. */
  lemma ReadBackMemberships(rows: seq<Row>, doc: Row)
    requires Written(doc)
    ensures MembershipsOf(Rewritten(rows, doc), doc.code) == doc.memberships.value
    ensures forall c :: c != doc.code ==> View(Rewritten(rows, doc), c) == View(rows, c)
  {
    RowsOfRewritten(rows, doc, doc.code);
    ReadBack(Rewritten(rows, doc), doc);
    forall c | c != doc.code ensures View(Rewritten(rows, doc), c) == View(rows, c) {
      RowsOfRewritten(rows, doc, c);
      ViewLocal(Rewritten(rows, doc), rows, c);
    }
  }

  // ----- upsert -----

  lemma {:induction false} ViewNamed(rows: seq<Row>, code: string)
    requires code != "" && View(rows, code).Some?
    ensures View(rows, code).value.name != "" && View(rows, code).value.symbol != ""
  {
    if rows[|rows| - 1].code != code {
      ViewNamed(rows[..|rows| - 1], code);
    }
  }

  lemma UpsertDocWritten(rows: seq<Row>, u: Upsert)
    requires u.code != ""
    ensures Written(UpsertDoc(View(rows, u.code), u))
  {
    var g := View(rows, u.code);
    var d := if g.Some? then g.value.memberships else [];
    ViewShowsLatest(rows, u.code, NewMembership(u).key);
    PutKeys(d, NewMembership(u));
    SortedDistinct(Put(d, NewMembership(u)), NewMembership(u).key);
    SortedIs(Put(d, NewMembership(u)));
    if g.Some? {
      ViewNamed(rows, u.code);
    }
  }

  /** After an upsert the code shows the new membership under its source and category and what it showed before
      under every other; no other code is affected. */
  lemma UpsertShows(rows: seq<Row>, u: Upsert, c: string, k: Key)
    requires u.code != ""
    ensures Shown(Upserted(rows, u), c, k) ==
            if c == u.code && k == NewMembership(u).key then Some(NewMembership(u)) else Shown(rows, c, k)
    ensures c != u.code ==> View(Upserted(rows, u), c) == View(rows, c)
  {
    var doc := UpsertDoc(View(rows, u.code), u);
    UpsertDocWritten(rows, u);
    ReadBackMemberships(rows, doc);
    if c == u.code {
      var d := MembershipsOf(rows, c);
      ViewShowsLatest(rows, c, k);
      PutKeys(d, NewMembership(u));
      SortedDistinct(Put(d, NewMembership(u)), k);
      FindPut(d, NewMembership(u), k);
    }
  }

  /** Time t is one of the two, and not after the other; absent only if both are. */
  predicate EarlierOf(t: Option<Time>, a: Option<Time>, b: Option<Time>)
  {
    && (t == a || t == b)
    && (a.Some? ==> t.Some? && t.value <= a.value)
    && (b.Some? ==> t.Some? && t.value <= b.value)
  }

  predicate LaterOf(t: Option<Time>, a: Option<Time>, b: Option<Time>)
  {
    && (t == a || t == b)
    && (a.Some? ==> t.Some? && a.value <= t.value)
    && (b.Some? ==> t.Some? && b.value <= t.value)
  }

  /** What an upsert of the code starts from. */
  function StartOf(rows: seq<Row>, u: Upsert): Group
  {
    if View(rows, u.code).Some? then View(rows, u.code).value else Blank(u).group
  }

  /** An upsert keeps the earliest creation and the latest update and expiry, and takes name, symbol and order
      from the arguments where they are given. Without any update time the creation time is shown as one. */
  lemma UpsertFields(rows: seq<Row>, u: Upsert)
    requires u.code != ""
    ensures var was, is' := StartOf(rows, u), View(Upserted(rows, u), u.code);
            && is'.Some?
            && is'.value.name == OrElse(OrElse(u.name, was.name), u.code)
            && is'.value.symbol == (if u.symbol != "" then u.symbol else was.symbol)
            && EarlierOf(is'.value.createdAt, was.createdAt, u.addedAt)
            && (if was.updatedAt.None? && u.addedAt.None? then is'.value.updatedAt == is'.value.createdAt
                else LaterOf(is'.value.updatedAt, was.updatedAt, u.addedAt))
            && LaterOf(is'.value.expireAt, was.expireAt, u.expireAt)
            && (u.rowExtra == map[] ==> is'.value.order == Or(u.order, was.order))
  {
    hide View, Earliest, Latest, Sorted, Put, Sources, Categories;
    var was, doc := StartOf(rows, u), UpsertDoc(View(rows, u.code), u);
    UpsertDocWritten(rows, u);
    if View(rows, u.code).Some? {
      ViewNamed(rows, u.code);
    }
    RowsOfRewritten(rows, doc, u.code);
    ReadBack(Upserted(rows, u), doc);
    PicksOne(was.createdAt, u.addedAt);
    PicksOne(was.updatedAt, u.addedAt);
    PicksOne(was.expireAt, u.expireAt);
  }

  lemma PicksOne(a: Option<Time>, b: Option<Time>)
    ensures EarlierOf(Earliest(a, b), a, b) && LaterOf(Latest(a, b), a, b)
    ensures Latest(a, b).None? <==> a.None? && b.None?
  {
  }

  /** What a row's own text field should be after an upsert: what is given, else what the row had. */
  predicate Kept(written: string, given: string, had: string) { written == if given != "" then given else had }

  lemma {:induction false} HasRow(rows: seq<Row>, code: string, r: Row)
    requires r in RowsOf(rows, code)
    ensures View(rows, code).Some?
  {
    if rows[|rows| - 1].code != code {
      HasRow(rows[..|rows| - 1], code, r);
    }
  }

  /** The row's own category, remark and extra are not in the merged view. So an upsert of a code that has rows
      keeps one of them exactly when it is given again, or the row had none to lose. */
  lemma UpsertKeepsRowFieldsWhen(rows: seq<Row>, u: Upsert, r: Row)
    requires r in RowsOf(rows, u.code)
    ensures var after := RowsOf(Upserted(rows, u), u.code);
            && |after| == 1
            && (Kept(after[0].category, u.rowCategory, r.category) <==> u.rowCategory != "" || r.category == "")
            && (Kept(after[0].remark, u.rowRemark, r.remark) <==> u.rowRemark != "" || r.remark == "")
            && (after[0].extra == (if u.rowExtra != map[] then u.rowExtra else r.extra) <==>
                  u.rowExtra != map[] || r.extra == map[])
  {
    HasRow(rows, u.code, r);
    RowsOfRewritten(rows, UpsertDoc(View(rows, u.code), u), u.code);
  }

  /** A unified row with one membership. */
  function SingleRow(c: string, m: Membership): Row
  {
    Row(c, c, c, None, None, None, m.expireAt, "", "", map[], Sources([m]), Categories([m]), Some([m]), None)
  }

  /** A row that loses them: any upsert that does not give them again blanks a category, a remark and an extra. */
  lemma UpsertForgetsRowFields(m: Membership, u: Upsert, category: string, remark: string, extra: Extra)
    requires u.rowCategory == "" && u.rowRemark == "" && u.rowExtra == map[]
    requires category != "" && remark != "" && extra != map[]
    ensures var row := SingleRow(u.code, m).(category := category, remark := remark, extra := extra);
            var after := RowsOf(Upserted([row], u), u.code);
            |after| == 1 && after[0].category == "" && after[0].remark == "" && after[0].extra == map[]
  {
    var row := SingleRow(u.code, m).(category := category, remark := remark, extra := extra);
    assert [row][..0] == [];
    assert RowsOf([row], u.code) == [row];
    HasRow([row], u.code, row);
    RowsOfRewritten([row], UpsertDoc(View([row], u.code), u), u.code);
  }

  // ----- removing -----

  lemma {:induction false} UnselectedIs(d: seq<Membership>, source: string, category: string)
    requires AllNormal(d)
    ensures |Unselected(d, source, category)| <= |d|
    ensures forall m :: m in Unselected(d, source, category) <==> m in d && !Selected(m, source, category)
    ensures |Unselected(d, source, category)| == |d| <==> forall m :: m in d ==> !Selected(m, source, category)
    ensures Distinct(d) ==> Distinct(Unselected(d, source, category))
  {
    hide Selected, Distinct, Normal;
    if d == [] {
      NoneTwice();
    } else {
      var n := |d| - 1;
      UnselectedIs(d[..n], source, category);
      assert d == d[..n] + [d[n]] && forall m :: m in d <==> m in d[..n] || m == d[n];
      NormalFixed([d[n]]);
      assert Normalized(d[n]) == AllNormalized([d[n]])[0] == d[n];
      var r := Unselected(d[..n], source, category);
      assert Unselected(d, source, category) == if Selected(d[n], source, category) then r else r + [d[n]];
      if Distinct(d) {
        StayDistinct(d[..n], r, d[n]);
      }
    }
  }

  lemma StayDistinct(front: seq<Membership>, r: seq<Membership>, m: Membership)
    requires Distinct(front + [m]) && forall x :: x in r ==> x in front
    ensures Distinct(front) && (Distinct(r) ==> Distinct(r + [m]))
  {
    forall i | 0 <= i < |front| ensures front[i].key != m.key {
      assert (front + [m])[i] == front[i] && (front + [m])[|front|] == m;
    }
    forall i, j | 0 <= i < j < |front| ensures front[i].key != front[j].key {
      assert (front + [m])[i] == front[i] && (front + [m])[j] == front[j];
    }
    forall i | 0 <= i < |r| ensures r[i].key != m.key {
      assert r[i] in r;
    }
  }

  lemma UnselectedFind(d: seq<Membership>, source: string, category: string, k: Key)
    requires AllNormal(d) && Distinct(d)
    ensures Find(Unselected(d, source, category), k) ==
            if k.source == source && (category == "" || k.category == category) then None else Find(d, k)
  {
    UnselectedIs(d, source, category);
    FindIs(d, k);
    FindIs(Unselected(d, source, category), k);
  }

  /** The row that is written when some memberships are left. */
  function RemainingDoc(rows: seq<Row>, code: string, source: string, category: string): Row
    requires View(rows, code).Some?
  {
    var g := View(rows, code).value;
    var ms := Sorted(Unselected(g.memberships, source, category));
    RowOfGroup(code, g, ms, if source == "shouban30" then WorkspaceOrder(ms) else g.order)
  }

  lemma RemainingWritten(rows: seq<Row>, code: string, source: string, category: string, k: Key)
    requires code != "" && View(rows, code).Some?
    ensures Written(RemainingDoc(rows, code, source, category))
    ensures Find(RemainingDoc(rows, code, source, category).memberships.value, k) ==
            if k.source == source && (category == "" || k.category == category) then None else Shown(rows, code, k)
  {
    var d := MembershipsOf(rows, code);
    ViewShowsLatest(rows, code, k);
    ViewNamed(rows, code);
    UnselectedIs(d, source, category);
    UnselectedFind(d, source, category, k);
    SortedDistinct(Unselected(d, source, category), k);
    SortedIs(Unselected(d, source, category));
  }

  /** Removing answers whether the code showed a selected membership, and deletes its rows when it shows no other. */
  lemma RemoveAnswers(rows: seq<Row>, code: string, source: string, category: string)
    requires code != "" && source != ""
    ensures var (after, done) := Removed(rows, code, source, category);
            && (done <==> exists m :: m in MembershipsOf(rows, code) && Selected(m, source, category))
            && (done ==> (RowsOf(after, code) == [] <==>
                            forall m :: m in MembershipsOf(rows, code) ==> Selected(m, source, category)))
            && (!done ==> after == rows)
  {
    var d := MembershipsOf(rows, code);
    ViewShowsLatest(rows, code, Key(source, category));
    UnselectedIs(d, source, category);
    var remaining := Unselected(d, source, category);
    RowsOfWithout(rows, code, code);
    if View(rows, code).Some? {
      RowsOfRewritten(rows, RemainingDoc(rows, code, source, category), code);
    }
    assert remaining != [] ==> remaining[0] in remaining;
    assert forall m :: m in d && !Selected(m, source, category) ==> m in remaining;
  }

  /** Removing takes away exactly the selected memberships of the code; nothing else changes. */
  lemma RemoveShows(rows: seq<Row>, code: string, source: string, category: string, c: string, k: Key)
    requires code != "" && source != ""
    ensures var after := Removed(rows, code, source, category).0;
            && Shown(after, c, k) == (if c == code && k.source == source && (category == "" || k.category == category)
                                      then None else Shown(rows, c, k))
            && (c != code ==> View(after, c) == View(rows, c))
  {
    hide Distinct, Ordered, AllNormal, KeyLess;
    var (after, done) := Removed(rows, code, source, category);
    var d := MembershipsOf(rows, code);
    RemoveAnswers(rows, code, source, category);
    ViewShowsLatest(rows, code, k);
    if done {
      var remaining := Unselected(d, source, category);
      RemainingWritten(rows, code, source, category, k);
      if remaining == [] {
        RowsOfWithout(rows, code, c);
        MergedIs(after, code);
        assert Sorted(remaining) == [];
        if c != code {
          ViewLocal(after, rows, c);
        }
      } else {
        ReadBackMemberships(rows, RemainingDoc(rows, code, source, category));
      }
    } else {
      FindIs(d, k);
    }
  }

  // ----- sources and categories -----

  ghost predicate AllAgree(rows: seq<Row>) { forall r :: r in rows ==> Agrees(r) }

  lemma {:induction false} WithoutIn(rows: seq<Row>, code: string)
    ensures forall r :: r in Without(rows, code) ==> r in rows
  {
    if rows != [] {
      WithoutIn(rows[..|rows| - 1], code);
    }
  }

  /** Every operation leaves each unified row naming exactly the sources and categories of its memberships. */
  lemma {:induction false} SourcesAgree(rows: seq<Row>, u: Upsert, code: string, source: string, category: string,
      now: Time)
    requires AllAgree(rows)
    ensures AllAgree(Upserted(rows, u))
    ensures AllAgree(Removed(rows, code, source, category).0)
    ensures AllAgree(Without(rows, code))
    ensures forall row :: AllAgree(PurgeOne(rows, row, now))
  {
    WithoutIn(rows, u.code);
    WithoutIn(rows, code);
    forall row ensures AllAgree(PurgeOne(rows, row, now)) {
      WithoutIn(rows, row.code);
    }
  }
}
