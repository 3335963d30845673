/** The pre-pool service over its collection of rows. */
module PrePoolStore {
  import opened Wrappers
  import opened PrePool
  import L = PrePoolLaws
  import opened PrePoolListing
  import opened PrePoolRuns
  import Sorting

  datatype PurgeReport = PurgeReport(removedMemberships: nat, removedDocs: nat, refreshedDocs: nat)

  datatype Report = Report(targetCount: nat, added: nat, updated: nat, same: nat, removed: nat)

  /** How many expired memberships the unified rows have. */
  function LapsedIn(rows: seq<Row>, now: Time): nat
  {
    if rows == [] then 0
    else
      var last := rows[|rows| - 1];
      LapsedIn(rows[..|rows| - 1], now) +
      if last.code != "" && last.memberships.Some? then LapsedCount(last.memberships.value, now) else 0
  }

  function LapsedCount(d: seq<Membership>, now: Time): nat
  {
    if d == [] then 0 else LapsedCount(d[..|d| - 1], now) + if Lapsed(d[|d| - 1], now) then 1 else 0
  }

  /** How many unified rows lose some memberships and keep others. */
  function RefreshedIn(rows: seq<Row>, now: Time): nat
  {
    if rows == [] then 0
    else
      var last := rows[|rows| - 1];
      RefreshedIn(rows[..|rows| - 1], now) +
      if Touched(last, now) && Live(last.memberships.value, now) != [] then 1 else 0
  }

  /** How many of the deletions of a purge find a row to delete. */
  function DeletedIn(rows: seq<Row>, snapshot: seq<Row>, now: Time): nat
  {
    if snapshot == [] then 0
    else
      var front, last := snapshot[..|snapshot| - 1], snapshot[|snapshot| - 1];
      DeletedIn(rows, front, now) +
      if Touched(last, now) && Live(last.memberships.value, now) == []
          && RowsOf(PurgeAll(rows, front, now), last.code) != []
      then 1 else 0
  }

  class PrePoolService {
    var rows: seq<Row>

    constructor (initial: seq<Row>)
      ensures rows == initial
    {
      rows := initial;
    }

    static method MergeRowIntoGroup(g: Group, row: Row) returns (r: Group)
      ensures r == MergeRow(g, row)
    {
      var offers := Offers(row);
      var memberships := g.memberships;
      for i := 0 to |offers|
        invariant memberships == OfferAll(g.memberships, offers[..i])
      {
        assert offers[..i + 1][..i] == offers[..i];
        var current := Find(memberships, offers[i].key);
        if current.None? || Latest(current.value.addedAt, offers[i].addedAt) == offers[i].addedAt {
          memberships := Put(memberships, offers[i]);
        }
      }
      assert offers[..|offers|] == offers;
      r := Group(OrElse(OrElse(row.name, g.name), row.code), SymbolOf(OrElse(row.symbol, g.symbol), row.code),
                 Earliest(g.createdAt, Or(row.createdAt, row.datetime)), Latest(g.updatedAt, Or(row.updatedAt,
                     row.datetime)),
                 Latest(g.expireAt, row.expireAt), Least(g.order, RowOrder(row)), memberships);
    }

    /** The merged view of every code that is asked for, in listing order. */
    method ListCodes(source: string, category: string, code: string) returns (items: seq<Item>)
      ensures items == Listing(rows, source, category, code)
    {
      hide MergeRow, NewGroup, Sources, Categories, Sorted, ItemLess, Listed;
      var grouped: map<string, Group> := map[];
      var codes: seq<string> := [];
      for i := 0 to |rows|
        invariant codes == FirstSeen(rows[..i])
        invariant forall c :: c in grouped <==> c in codes
        invariant forall c :: c in grouped <==> c != "" && Merged(rows[..i], c).Some?
        invariant forall c :: c in grouped ==> Some(grouped[c]) == Merged(rows[..i], c)
      {
        assert rows[..i + 1][..i] == rows[..i];
        var row := rows[i];
        if row.code != "" {
          var g := MergeRowIntoGroup(if row.code in grouped then grouped[row.code] else NewGroup(row), row);
          if row.code !in grouped {
            codes := codes + [row.code];
          }
          grouped := grouped[row.code := g];
        }
      }
      assert rows[..|rows|] == rows;
      items := FilterItems(codes, grouped, source, category, code);
    }

    /** What is left of the groups, sorted for display. */
    method FilterItems(codes: seq<string>, grouped: map<string, Group>, source: string, category: string, code: string)
      returns (items: seq<Item>)
      requires codes == FirstSeen(rows) && forall c :: c in codes ==> c in grouped && c != ""
      requires forall c :: c in grouped ==> Some(grouped[c]) == Merged(rows, c)
      ensures items == Listing(rows, source, category, code)
    {
      hide ItemLess, Sources, Categories, Sorted, Merged;
      var kept: seq<Item> := [];
      for i := 0 to |codes|
        invariant kept == Items(rows, codes[..i], source, category, code)
      {
        assert codes[..i + 1][..i] == codes[..i];
        var c, g := codes[i], Finalized(grouped[codes[i]]);
        if (code == "" || c == code) && (source == "" || source in Sources(g.memberships))
           && (category == "" || category in Categories(g.memberships)) {
          kept := kept + [Item(c, g)];
        }
      }
      assert codes[..|codes|] == codes;
      items := Sorting.Sorted(kept, ItemLess);
    }

    /** The merged view of a code; for an empty code, which asks for nothing, that of the first code of the listing. */
    method GetCode(code: string) returns (r: Option<Group>)
      ensures code != "" ==> r == View(rows, code)
      ensures code == "" ==> var all := Listing(rows, "", "", ""); r == if all == [] then None else Some(all[0].group)
    {
      var items := ListCodes("", "", code);
      if code != "" {
        ListingOfOne(rows, code);
      }
      r := if items == [] then None else Some(items[0].group);
    }

    method DeleteCode(code: string) returns (deleted: bool)
      modifies this
      ensures rows == if code == "" then old(rows) else Without(old(rows), code)
      ensures deleted <==> code != "" && RowsOf(old(rows), code) != []
    {
      if code == "" {
        return false;
      }
      deleted := RowsOf(rows, code) != [];
      rows := Without(rows, code);
    }

    method ReplaceCodeDocument(document: Row)
      modifies this
      ensures rows == Rewritten(old(rows), document)
    {
      rows := Without(rows, document.code);
      rows := rows + [document];
    }

    /** Store a membership; an empty code is refused. */
    method UpsertCode(u: Upsert) returns (document: Option<Row>)
      modifies this
      ensures document.None? <==> u.code == ""
      ensures u.code == "" ==> rows == old(rows)
      ensures u.code != "" ==> document.value == UpsertDoc(View(old(rows), u.code), u) && rows == Upserted(old(rows), u)
    {
      if u.code == "" {
        return None;
      }
      var existing := GetCode(u.code);
      var doc := UpsertDoc(existing, u);
      ReplaceCodeDocument(doc);
      document := Some(doc);
    }

    method RemoveMembership(code: string, source: string, category: string) returns (done: bool)
      modifies this
      ensures (rows, done) == Removed(old(rows), code, source, category)
    {
      if code == "" || source == "" {
        return false;
      }
      var row := GetCode(code);
      if row.None? {
        return false;
      }
      var d := row.value.memberships;
      var remaining := [];
      var removed := false;
      for i := 0 to |d|
        invariant remaining == Unselected(d[..i], source, category) && |remaining| <= i
        invariant removed <==> |remaining| < i
      {
        assert d[..i + 1][..i] == d[..i];
        if Selected(d[i], source, category) {
          removed := true;
        } else {
          remaining := remaining + [Normalized(d[i])];
        }
      }
      assert d[..|d|] == d;
      if !removed {
        return false;
      }
      if remaining == [] {
        L.MergedIs(rows, code);
        done := DeleteCode(code);
        return;
      }
      var ms := Sorted(remaining);
      var order := if source == "shouban30" then WorkspaceOrder(ms) else row.value.order;
      ReplaceCodeDocument(RowOfGroup(code, row.value, ms, order));
      done := true;
    }

    /** Drop expired memberships from the unified rows, and codes whose row is left without any. */
    method PurgeExpiredMemberships(now: Time) returns (report: PurgeReport)
      modifies this
      ensures rows == PurgeAll(old(rows), old(rows), now)
      ensures report.removedMemberships == LapsedIn(old(rows), now)
      ensures report.removedDocs == DeletedIn(old(rows), old(rows), now)
      ensures report.refreshedDocs == RefreshedIn(old(rows), now)
    {
      var snapshot := rows;
      var removed, docs, refreshed := 0, 0, 0;
      for i := 0 to |snapshot|
        invariant rows == PurgeAll(snapshot, snapshot[..i], now)
        invariant removed == LapsedIn(snapshot[..i], now)
        invariant docs == DeletedIn(snapshot, snapshot[..i], now)
        invariant refreshed == RefreshedIn(snapshot[..i], now)
      {
        assert snapshot[..i + 1][..i] == snapshot[..i];
        var row := snapshot[i];
        if row.code != "" && row.memberships.Some? {
          var d := row.memberships.value;
          var remaining := [];
          var lost := 0;
          for j := 0 to |d|
            invariant remaining == Live(d[..j], now) && |remaining| + lost == j
            invariant lost == LapsedCount(d[..j], now)
          {
            assert d[..j + 1][..j] == d[..j];
            if Lapsed(d[j], now) {
              lost := lost + 1;
            } else {
              remaining := remaining + [Normalized(d[j])];
            }
          }
          assert d[..|d|] == d;
          removed := removed + lost;
          if remaining == [] {
            var deleted := DeleteCode(row.code);
            if deleted {
              docs := docs + 1;
            }
          } else if |remaining| < |d| {
            var ms := Sorted(remaining);
            ReplaceCodeDocument(row.(memberships := Some(ms), sources := Sources(ms), categories := Categories(ms),
                                     expireAt := LatestExpiry(ms)));
            refreshed := refreshed + 1;
          }
        }
      }
      assert snapshot[..|snapshot|] == snapshot;
      report := PurgeReport(removed, docs, refreshed);
    }

    /** Make the holders of the date's membership exactly the targets; an empty date is refused. */
    method ReconcileClxTradeDate(gen: Generation, codes: set<string>) returns (report: Option<Report>)
      modifies this
      ensures report.None? <==> gen.tradeDate == ""
      ensures gen.tradeDate == "" ==> rows == old(rows)
      ensures gen.tradeDate != "" ==>
                var target := codes - {""};
                && Reconciled(old(rows), rows, gen, target)
                && RowsOf(rows, "") == RowsOf(old(rows), "")
                && report.value == Report(|target|, |Targets(old(rows), gen, target, Missing)|,
                                          |Targets(old(rows), gen, target, Outdated)|, |Targets(old(rows), gen,
                                              target, Current)|,
                                          |Surplus(old(rows), gen, target)|)
    {
      if gen.tradeDate == "" {
        return None;
      }
      var target := codes - {""};
      var added, updated, same := ReconcileTargets(gen, target);
      label Upserts:
      var removed := RemoveSurplus(gen, target);
      JoinPasses(old(rows), old@Upserts(rows), rows, gen, target);
      report := Some(Report(|target|, added, updated, same, removed));
    }

    /** One target is given the membership; the answer is the one it had. */
    method ReconcileOne(gen: Generation, code: string) returns (membership: Option<Membership>)
      requires code != ""
      modifies this
      ensures membership == Shown(old(rows), code, DateKey(gen))
      ensures forall c ::
                RowsOf(rows, c) ==
                if c == code then [UpsertDoc(View(old(rows), c), UpsertFor(View(old(rows), c), gen, c))]
                else RowsOf(old(rows), c)
    {
      var existing := GetCode(code);
      membership := if existing.Some? then Find(existing.value.memberships, DateKey(gen)) else None;
      ghost var now := rows;
      var document := UpsertCode(UpsertFor(existing, gen, code));
      forall c ensures RowsOf(rows, c) == if c == code then [document.value] else RowsOf(now, c) {
        L.RowsOfRewritten(now, document.value, c);
      }
    }

    /** The first pass: every target is given the membership. */
    method ReconcileTargets(gen: Generation, target: set<string>) returns (added: nat, updated: nat, same: nat)
      requires "" !in target
      modifies this
      ensures forall c :: RowsOf(rows, c) == if c in target then ReconciledRows(RowsOf(old(rows), c), gen, target, c)
                                             else RowsOf(old(rows), c)
      ensures Counted(old(rows), gen, target, added, updated, same)
    {
      hide *;
      added, updated, same := 0, 0, 0;
      var todo := target;
      ghost var done: set<string> := {};
      ghost var before := rows;
      NoneCounted(rows, gen);
      while todo != {}
        invariant todo !! done && todo + done == target
        invariant forall c :: RowsOf(rows, c) == if c in done then ReconciledRows(RowsOf(before, c), gen, target, c)
                                                 else RowsOf(before, c)
        invariant Counted(before, gen, done, added, updated, same)
        decreases |todo|
      {
        var code :| code in todo;
        ghost var now := rows;
        var membership := ReconcileOne(gen, code);
        L.ViewLocal(now, before, code);
        OneTarget(before, now, gen, target, code);
        CountOne(before, gen, done, code, added, updated, same);
        if membership.Some? && SameGeneration(membership.value, gen) {
          same := same + 1;
        } else if membership.Some? {
          updated := updated + 1;
        } else {
          added := added + 1;
        }
        todo, done := todo - {code}, done + {code};
      }
    }

    /** A code that holds the date's membership loses it. */
    method RemoveOne(gen: Generation, code: string, ghost before: seq<Row>) returns (done: bool)
      requires code != "" && Shown(rows, code, DateKey(gen)).Some? && RowsOf(rows, code) == RowsOf(before, code)
      modifies this
      ensures done
      ensures forall c ::
                RowsOf(rows, c) == if c == code then RowsOf(Removed(before, c, CLX, DateKey(gen).category).0, c)
                                   else RowsOf(old(rows), c)
    {
      ghost var now := rows;
      done := RemoveMembership(code, CLX, DateKey(gen).category);
      RemovesHeld(now, code, gen);
      RemovedLocal(now, code, CLX, DateKey(gen).category);
      RemovedLocal(before, code, CLX, DateKey(gen).category);
      forall c | c != code ensures RowsOf(rows, c) == RowsOf(now, c) {
        RemovedElsewhere(now, code, CLX, DateKey(gen).category, c);
      }
    }

    /** The second pass: every other holder loses it. */
    method RemoveSurplus(gen: Generation, target: set<string>) returns (removed: nat)
      modifies this
      ensures forall c :: RowsOf(rows, c) == if c in Surplus(old(rows), gen, target)
                                             then RowsOf(Removed(old(rows), c, CLX, DateKey(gen).category).0, c)
                                             else RowsOf(old(rows), c)
      ensures removed == |Surplus(old(rows), gen, target)|
    {
      ghost var before := rows;
      hide *;
      NoneSurplus(before, gen, target);
      ghost var gone: set<string> := {};
      var items := ListCodes(CLX, "", "");
      SurplusListed(before, gen, target, items);
      removed := 0;
      assert items[..0] == [];
      for i := 0 to |items|
        invariant gone == SurplusIn(before, gen, target, items[..i])
        invariant forall c ::
                    RowsOf(rows, c) == if c in gone then RowsOf(Removed(before, c, CLX, DateKey(gen).category).0, c)
                                       else RowsOf(before, c)
        invariant removed == |gone|
      {
        var code := items[i].code;
        NextSurplus(before, gen, target, items, i);
        if code !in target && Find(items[i].group.memberships, DateKey(gen)).Some? {
          L.ViewLocal(rows, before, code);
          ShownIn(rows, code, items[i].group, gen);
          var done := RemoveOne(gen, code, before);
          if done {
            removed := removed + 1;
          }
          gone := gone + {code};
        }
      }
      assert items[..|items|] == items;
    }
  }

  lemma ShownIn(rows: seq<Row>, code: string, g: Group, gen: Generation)
    requires View(rows, code) == Some(g)
    ensures Shown(rows, code, DateKey(gen)) == Find(g.memberships, DateKey(gen))
  {
  }

  lemma NoneSurplus(rows: seq<Row>, gen: Generation, target: set<string>)
    ensures SurplusIn(rows, gen, target, []) == {}
  {
  }

  /** The surplus codes among the listed ones. */
  function SurplusIn(rows: seq<Row>, gen: Generation, target: set<string>, items: seq<Item>): set<string>
  {
    set x | x in items && x.code in Surplus(rows, gen, target) :: x.code
  }

  lemma NextSurplus(rows: seq<Row>, gen: Generation, target: set<string>, items: seq<Item>, i: nat)
    requires i < |items| && items == Listing(rows, CLX, "", "")
    ensures var x := items[i];
            && x.code != "" && View(rows, x.code) == Some(x.group)
            && x.code !in SurplusIn(rows, gen, target, items[..i])
            && SurplusIn(rows, gen, target, items[..i + 1]) == SurplusIn(rows, gen, target, items[..i])
                 + if x.code !in target && Find(x.group.memberships, DateKey(gen)).Some? then {x.code} else {}
  {
    hide ItemLess, Listing, Find, DateKey, View;
    ListingIs(rows, CLX, "", "");
    var x := items[i];
    assert x in items && Listed(rows, x.code, CLX, "", "");
    HasRows(rows, x.code);
    SurplusIs(rows, gen, target, x);
    assert items[..i + 1] == items[..i] + [x];
    hide Surplus, Listed;
    forall y | y in items[..i] ensures y.code != x.code {
      var j :| 0 <= j < i && items[..i][j] == y;
    }
    assert forall y :: y in items[..i + 1] <==> y in items[..i] || y == x;
  }

  lemma SurplusIs(rows: seq<Row>, gen: Generation, target: set<string>, x: Item)
    requires x.code != "" && View(rows, x.code) == Some(x.group) && x.code in Codes(rows)
    ensures x.code in Surplus(rows, gen, target) <==> x.code !in target && Find(x.group.memberships, DateKey(gen)).Some?
  {
  }

  /** Every code with a surplus membership is listed under its source. */
  lemma SurplusListed(rows: seq<Row>, gen: Generation, target: set<string>, items: seq<Item>)
    requires items == Listing(rows, CLX, "", "")
    ensures SurplusIn(rows, gen, target, items) == Surplus(rows, gen, target)
  {
    hide ItemLess, Listing;
    ListingIs(rows, CLX, "", "");
    forall c | c in Surplus(rows, gen, target) ensures c in SurplusIn(rows, gen, target, items) {
      L.FindIs(MembershipsOf(rows, c), DateKey(gen));
      assert Shown(rows, c, DateKey(gen)).value in MembershipsOf(rows, c);
      assert Item(c, View(rows, c).value) in items;
    }
  }

  lemma SeenThrough(rows: seq<Row>, code: string, gen: Generation)
    ensures View(RowsOf(rows, code), code) == View(rows, code)
  {
    RowsOfTwice(rows, code);
    L.ViewLocal(RowsOf(rows, code), rows, code);
  }

  /** The counts of targets that were missing, outdated and current. */
  predicate Counted(rows: seq<Row>, gen: Generation, done: set<string>, added: nat, updated: nat, same: nat)
  {
    && added == |Targets(rows, gen, done, Missing)|
    && updated == |Targets(rows, gen, done, Outdated)|
    && same == |Targets(rows, gen, done, Current)|
  }

  lemma NoneCounted(rows: seq<Row>, gen: Generation)
    ensures Counted(rows, gen, {}, 0, 0, 0)
  {
    assert forall standing :: Targets(rows, gen, {}, standing) == {};
  }

  lemma CountOne(rows: seq<Row>, gen: Generation, done: set<string>, code: string, added: nat, updated: nat, same: nat)
    requires code !in done && Counted(rows, gen, done, added, updated, same)
    ensures var m := Shown(rows, code, DateKey(gen));
            if m.Some? && SameGeneration(m.value, gen) then Counted(rows, gen, done + {code}, added, updated, same + 1)
            else if m.Some? then Counted(rows, gen, done + {code}, added, updated + 1, same)
            else Counted(rows, gen, done + {code}, added + 1, updated, same)
  {
    hide Targets, Shown, SameGeneration, DateKey;
    OneMore(rows, gen, done, code, Missing);
    OneMore(rows, gen, done, code, Outdated);
    OneMore(rows, gen, done, code, Current);
  }

  lemma OneMore(rows: seq<Row>, gen: Generation, done: set<string>, code: string, standing: Standing)
    requires code !in done
    ensures |Targets(rows, gen, done + {code}, standing)|
            == |Targets(rows, gen, done, standing)| + (if StandingOf(rows, gen, code) == standing then 1 else 0)
  {
    hide StandingOf;
    assert Targets(rows, gen, done + {code}, standing)
        == Targets(rows, gen, done, standing) + if StandingOf(rows, gen, code) == standing then {code} else {};
  }

  /** Giving a target its membership is what reconciling makes of its rows. */
  lemma OneTarget(before: seq<Row>, now: seq<Row>, gen: Generation, target: set<string>, code: string)
    requires code in target && View(now, code) == View(before, code)
    ensures [UpsertDoc(View(now, code), UpsertFor(View(now, code), gen, code))]
            == ReconciledRows(RowsOf(before, code), gen, target, code)
    ensures Shown(now, code, DateKey(gen)) == Shown(before, code, DateKey(gen))
  {
    SeenThrough(before, code, gen);
  }

  lemma {:induction false} HasRows(rows: seq<Row>, code: string)
    ensures View(rows, code).Some? ==> code in Codes(rows)
  {
    if rows != [] && rows[|rows| - 1].code != code {
      HasRows(rows[..|rows| - 1], code);
    }
  }

  /** A removal that finds the date's membership removes it. */
  lemma RemovesHeld(rows: seq<Row>, code: string, gen: Generation)
    requires code != "" && Shown(rows, code, DateKey(gen)).Some?
    ensures Removed(rows, code, CLX, DateKey(gen).category).1
  {
    DateKeyIs(gen);
    L.RemoveAnswers(rows, code, CLX, DateKey(gen).category);
    L.FindIs(MembershipsOf(rows, code), DateKey(gen));
    assert Selected(Shown(rows, code, DateKey(gen)).value, CLX, DateKey(gen).category);
  }

  lemma RemovedElsewhere(rows: seq<Row>, code: string, source: string, category: string, c: string)
    ensures c != code ==> RowsOf(Removed(rows, code, source, category).0, c) == RowsOf(rows, c)
  {
    L.RowsOfWithout(rows, code, c);
    if View(rows, code).Some? {
      L.RowsOfRewritten(rows, L.RemainingDoc(rows, code, source, category), c);
    }
  }

  /** Both passes together. */
  lemma JoinPasses(before: seq<Row>, between: seq<Row>, after: seq<Row>, gen: Generation, target: set<string>)
    requires "" !in target
    requires forall c ::
               RowsOf(between, c) ==
               if c in target then ReconciledRows(RowsOf(before, c), gen, target, c) else RowsOf(before, c)
    requires forall c :: RowsOf(after, c) == if c in Surplus(between, gen, target)
                                             then RowsOf(Removed(between, c, CLX, DateKey(gen).category).0, c)
                                             else RowsOf(between, c)
    ensures Reconciled(before, after, gen, target)
    ensures RowsOf(after, "") == RowsOf(before, "")
    ensures Surplus(between, gen, target) == Surplus(before, gen, target)
  {
    forall c | c != "" ensures c in Surplus(between, gen, target) <==> c in Surplus(before, gen, target)
      ensures RowsOf(after, c) == ReconciledRows(RowsOf(before, c), gen, target, c)
    {
      if c !in target {
        L.ViewLocal(between, before, c);
        HasRows(between, c);
        HasRows(before, c);
        SeenThrough(before, c, gen);
        RemovedLocal(between, c, CLX, DateKey(gen).category);
        RemovedLocal(before, c, CLX, DateKey(gen).category);
      }
    }
  }
}
