/** Purging and reconciling: what a whole pass over the store does. */
module PrePoolRuns {
  import opened Wrappers
  import opened PrePool
  import opened PrePoolLaws
  import Sorting

  // ----- purging -----

  /** The last of a code's rows that a purge acts on, -1 if there is none. */
  function LastTouched(rs: seq<Row>, now: Time): (t: int)
    ensures -1 <= t < |rs|
  {
    if rs == [] then -1 else if Touched(rs[|rs| - 1], now) then |rs| - 1 else LastTouched(rs[..|rs| - 1], now)
  }

  function Outcome(row: Row, now: Time): seq<Row>
    requires row.memberships.Some?
  {
    if Live(row.memberships.value, now) == [] then [] else [PurgedDoc(row, now)]
  }

  lemma {:induction false} LastIsTouched(rs: seq<Row>, now: Time)
    ensures LastTouched(rs, now) >= 0 ==> Touched(rs[LastTouched(rs, now)], now)
    ensures forall i :: LastTouched(rs, now) < i < |rs| ==> !Touched(rs[i], now)
  {
    if rs != [] && !Touched(rs[|rs| - 1], now) {
      LastIsTouched(rs[..|rs| - 1], now);
    }
  }

  lemma PurgeOneOf(rows: seq<Row>, row: Row, now: Time, c: string)
    ensures RowsOf(PurgeOne(rows, row, now), c) ==
            if row.code == c && Touched(row, now) then Outcome(row, now) else RowsOf(rows, c)
  {
    RowsOfWithout(rows, row.code, c);
    if row.memberships.Some? {
      RowsOfRewritten(rows, PurgedDoc(row, now), c);
    }
  }

  /** A purge leaves a code what the last row it acted on became, or all its rows if it acted on none. */
  lemma {:induction false} PurgeOfCode(rows: seq<Row>, snapshot: seq<Row>, now: Time, c: string)
    ensures var rs := RowsOf(snapshot, c);
            var t := LastTouched(rs, now);
            (t >= 0 ==> rs[t].memberships.Some?) &&
            RowsOf(PurgeAll(rows, snapshot, now), c) == if t < 0 then RowsOf(rows, c) else Outcome(rs[t], now)
  {
    LastIsTouched(RowsOf(snapshot, c), now);
    if snapshot != [] {
      var front, last := snapshot[..|snapshot| - 1], snapshot[|snapshot| - 1];
      PurgeOfCode(rows, front, now, c);
      PurgeOneOf(PurgeAll(rows, front, now), last, now, c);
      var rs := RowsOf(front, c);
      assert (rs + [last])[..|rs|] == rs && rs + [] == rs;
    }
  }

  /** The unexpired memberships of a row, of either form. */
  function RowLive(row: Row, now: Time): seq<Membership>
  {
    Live(if row.memberships.Some? then row.memberships.value else [LegacyMembership(row)], now)
  }

  function AllLive(rs: seq<Row>, now: Time): seq<Membership>
  {
    if rs == [] then [] else AllLive(rs[..|rs| - 1], now) + RowLive(rs[|rs| - 1], now)
  }

  lemma {:induction false} LiveIs(d: seq<Membership>, now: Time)
    ensures |Live(d, now)| <= |d|
    ensures |Live(d, now)| == |d| ==> forall m :: m in d ==> !Lapsed(m, now)
    ensures forall m :: m in Live(d, now) ==> Normal(m) && !Lapsed(m, now)
  {
    if d != [] {
      var n := |d| - 1;
      LiveIs(d[..n], now);
      assert d == d[..n] + [d[n]];
      NormalizedIs(d[n], now);
      hide Normal, Lapsed, Normalized;
    }
  }

  lemma NormalizedIs(m: Membership, now: Time)
    ensures Normal(Normalized(m)) && Lapsed(Normalized(m), now) == Lapsed(m, now)
    ensures Normal(m) ==> Normalized(m) == m
  {
  }

  /** A list without expired memberships is left as it is. */
  lemma {:induction false} LiveFixed(d: seq<Membership>, now: Time)
    requires forall m :: m in d ==> Normal(m) && !Lapsed(m, now)
    ensures Live(d, now) == d
  {
    if d != [] {
      var n := |d| - 1;
      LiveFixed(d[..n], now);
      NormalizedIs(d[n], now);
      assert d == d[..n] + [d[n]];
    }
  }

  /** A purged row holds exactly the unexpired memberships of the row it came from. */
  lemma PurgedDocLive(row: Row, now: Time)
    requires row.memberships.Some?
    ensures multiset(RowLive(PurgedDoc(row, now), now)) == multiset(RowLive(row, now))
    ensures forall m :: m in PurgedDoc(row, now).memberships.value ==> !Lapsed(m, now)
  {
    var live := Live(row.memberships.value, now);
    LiveIs(row.memberships.value, now);
    SortedIs(live);
    LiveFixed(Sorted(live), now);
  }

  lemma {:induction false} AllLiveAdd(a: seq<Row>, b: seq<Row>, now: Time)
    ensures AllLive(a + b, now) == AllLive(a, now) + AllLive(b, now)
  {
    hide RowLive;
    if b == [] {
      assert a + b == a;
    } else {
      var front, last := b[..|b| - 1], RowLive(b[|b| - 1], now);
      AllLiveAdd(a, front, now);
      assert (a + b)[..|a + b| - 1] == a + front;
      assert (AllLive(a, now) + AllLive(front, now)) + last == AllLive(a, now) + (AllLive(front, now) + last);
    }
  }

  lemma {:induction false} NoneLive(rs: seq<Row>, now: Time)
    ensures AllLive(rs, now) == [] <==> forall i :: 0 <= i < |rs| ==> RowLive(rs[i], now) == []
  {
    if rs != [] {
      NoneLive(rs[..|rs| - 1], now);
      assert forall i :: 0 <= i < |rs| - 1 ==> rs[..|rs| - 1][i] == rs[i];
    }
  }

  /** The purge loses no unexpired membership of the code. */
  predicate Lossless(rows: seq<Row>, c: string, now: Time)
  {
    multiset(AllLive(RowsOf(PurgeAll(rows, rows, now), c), now)) == multiset(AllLive(RowsOf(rows, c), now))
  }

  /** No row of the code has unexpired memberships besides the last one the purge acts on. */
  predicate Alone(rows: seq<Row>, c: string, now: Time)
  {
    var rs := RowsOf(rows, c);
    var t := LastTouched(rs, now);
    t < 0 || forall i :: 0 <= i < |rs| && i != t ==> RowLive(rs[i], now) == []
  }

  /** One row accounts for all unexpired memberships exactly when the rows around it have none. */
  lemma LosslessAround(a: seq<Row>, row: Row, b: seq<Row>, now: Time)
    ensures multiset(AllLive(a + [row] + b, now)) == multiset(RowLive(row, now)) <==>
            AllLive(a, now) == [] && AllLive(b, now) == []
  {
    hide RowLive, AllLive;
    AllLiveAdd(a + [row], b, now);
    AllLiveAdd(a, [row], now);
    OneLive(row, now);
    var x, y, z := AllLive(a, now), RowLive(row, now), AllLive(b, now);
    assert |multiset(x + y + z)| == |x| + |y| + |z| && |multiset(y)| == |y|;
    if x == [] && z == [] {
      assert x + y + z == y;
    }
  }

  lemma NoneBetween(rs: seq<Row>, from: nat, till: nat, now: Time)
    requires from <= till <= |rs|
    ensures AllLive(rs[from..till], now) == [] <==> forall i :: from <= i < till ==> RowLive(rs[i], now) == []
  {
    hide RowLive, AllLive;
    var part := rs[from..till];
    NoneLive(part, now);
    assert forall i :: 0 <= i < |part| ==> part[i] == rs[from + i];
    assert forall i :: from <= i < till ==> rs[i] == part[i - from];
  }

  /** A purge removes the expired memberships and keeps the unexpired ones of a code exactly when,
      if it acts on one of the code's rows at all, no other row of the code holds unexpired memberships. */
  lemma PurgeLosesNothingWhen(rows: seq<Row>, c: string, now: Time)
    ensures Lossless(rows, c, now) <==> Alone(rows, c, now)
  {
    hide RowLive, AllLive, RowsOf, PurgeAll, Touched, PurgedDoc;
    var rs := RowsOf(rows, c);
    var t := LastTouched(rs, now);
    PurgeOfCode(rows, rows, now, c);
    if t >= 0 {
      var a, b := rs[0..t], rs[t + 1..|rs|];
      assert rs == a + [rs[t]] + b;
      LosslessAround(a, rs[t], b, now);
      NoneBetween(rs, 0, t, now);
      NoneBetween(rs, t + 1, |rs|, now);
      OutcomeLive(rs[t], now);
    }
  }

  /** What becomes of a row a purge acts on holds exactly its unexpired memberships. */
  lemma OutcomeLive(row: Row, now: Time)
    requires row.memberships.Some?
    ensures multiset(AllLive(Outcome(row, now), now)) == multiset(RowLive(row, now))
  {
    PurgedDocLive(row, now);
    OneLive(PurgedDoc(row, now), now);
  }

  lemma OneLive(row: Row, now: Time)
    ensures AllLive([row], now) == RowLive(row, now)
  {
    assert [row][..0] == [];
  }

  /** With one row per code, a purge keeps what is unexpired, drops what is expired, and deletes exactly the
      unified rows that are left without memberships. */
  lemma PurgeOneRowPerCode(rows: seq<Row>, c: string, now: Time)
    requires c != "" && |RowsOf(rows, c)| == 1
    ensures Lossless(rows, c, now)
    ensures var row := RowsOf(rows, c)[0];
            var after := RowsOf(PurgeAll(rows, rows, now), c);
            && (after == [] <==> row.memberships.Some? && RowLive(row, now) == [])
            && (row.memberships.None? ==> after == [row])
            && (row.memberships.Some? && RowLive(row, now) != [] ==>
                  |after| == 1 && after[0].memberships.Some?
                  && (forall m :: m in after[0].memberships.value ==> !Lapsed(m, now)))
  {
    var rs := RowsOf(rows, c);
    PurgeLosesNothingWhen(rows, c, now);
    PurgeOfCode(rows, rows, now, c);
    LastIsTouched(rs, now);
    RowsOfCode(rows, c);
    if rs[0].memberships.Some? {
      PurgedDocLive(rs[0], now);
      LiveIs(rs[0].memberships.value, now);
    }
  }

  lemma {:induction false} RowsOfCode(rows: seq<Row>, c: string)
    ensures forall r :: r in RowsOf(rows, c) ==> r.code == c
  {
    if rows != [] {
      RowsOfCode(rows[..|rows| - 1], c);
    }
  }

  lemma SingleLive(c: string, m: Membership, now: Time)
    requires c != ""
    ensures RowLive(SingleRow(c, m), now) == if Lapsed(m, now) then [] else [Normalized(m)]
    ensures Touched(SingleRow(c, m), now) <==> Lapsed(m, now)
  {
    hide Normalized, Sources, Categories;
    var d := [m];
    assert d[..0] == [];
    assert Live(d[..0], now) == [];
  }

  /** With two rows for a code it does not keep that promise: when the first has expired and the second has not,
      the code is deleted, and the second one's unexpired membership goes with it. */
  lemma PurgeCanLose(c: string, gone: Membership, live: Membership, now: Time)
    requires c != "" && Lapsed(gone, now) && !Lapsed(live, now)
    ensures var rows := [SingleRow(c, gone), SingleRow(c, live)];
            !Lossless(rows, c, now) && View(PurgeAll(rows, rows, now), c).None?
  {
    hide Live, PurgeAll, RowLive, Lossless, Merged, Touched, Normalized, Sources, Categories;
    var a, b := SingleRow(c, gone), SingleRow(c, live);
    var rows := [a, b];
    SingleLive(c, gone, now);
    SingleLive(c, live, now);
    assert rows[..1] == [a] && [a][..0] == [];
    assert RowsOf([a], c) == [a];
    assert RowsOf(rows, c) == rows;
    assert LastTouched([a], now) == 0;
    assert LastTouched(rows, now) == 0;
    PurgeLosesNothingWhen(rows, c, now);
    PurgeOfCode(rows, rows, now, c);
    EmptyOutcome(a, now);
    MergedIs(PurgeAll(rows, rows, now), c);
  }

  lemma EmptyOutcome(row: Row, now: Time)
    ensures row.memberships.Some? && RowLive(row, now) == [] ==> Outcome(row, now) == []
  {
  }

  // ----- reconciling one trade date -----

  const CLX := "clx_daily_selection"

  datatype Generation = Generation(tradeDate: string, batchId: string, publicationId: string, contentHash: string,
                                   selectionKey: string, addedAt: Time, assets: map<string, string>)

  function DateKey(gen: Generation): Key { Key(CLX, "trade_date:" + gen.tradeDate) }

  function Plain(text: string): Value { Value(text, None) }

  function ExtraFor(gen: Generation, code: string): Extra
  {
    var extra: Extra := map["batch_id" := Plain(gen.batchId), "publication_id" := Plain(gen.publicationId),
                            "content_hash" := Plain(gen.contentHash), "selection_key" := Plain(gen.selectionKey),
                            "direction_mode" := Plain("pure_buy")];
    if code in gen.assets && gen.assets[code] != "" then extra["asset_type" := Plain(gen.assets[code])] else extra
  }

  predicate Carries(extra: Extra, field: string, text: string)
  {
    field in extra && extra[field].text == text
  }

  /** The membership is of the generation that is being reconciled. */
  predicate SameGeneration(m: Membership, gen: Generation)
  {
    Carries(m.extra, "batch_id", gen.batchId) && Carries(m.extra, "publication_id", gen.publicationId)
    && Carries(m.extra, "content_hash", gen.contentHash)
  }

  function UpsertFor(existing: Option<Group>, gen: Generation, code: string): Upsert
  {
    Upsert(code, if existing.Some? then existing.value.name
        else "", if existing.Some? then existing.value.symbol else "",
           CLX, DateKey(gen).category, Some(gen.addedAt), None, "", "", "", map[], ExtraFor(gen, code), None)
  }

  /** What reconciling makes of the rows of one code. */
  function ReconciledRows(rs: seq<Row>, gen: Generation, target: set<string>, c: string): seq<Row>
  {
    if c in target then [UpsertDoc(View(rs, c), UpsertFor(View(rs, c), gen, c))]
    else if Shown(rs, c, DateKey(gen)).Some? then RowsOf(Removed(rs, c, CLX, DateKey(gen).category).0, c)
    else rs
  }

  /** A store after reconciling, code by code. */
  ghost predicate Reconciled(before: seq<Row>, after: seq<Row>, gen: Generation, target: set<string>)
  {
    forall c :: c != "" ==> RowsOf(after, c) == ReconciledRows(RowsOf(before, c), gen, target, c)
  }

  datatype Standing = Missing | Outdated | Current

  /** Where a code stands before it is given the date's membership. */
  function StandingOf(rows: seq<Row>, gen: Generation, c: string): Standing
  {
    var m := Shown(rows, c, DateKey(gen));
    if m.None? then Missing else if SameGeneration(m.value, gen) then Current else Outdated
  }

  function Targets(rows: seq<Row>, gen: Generation, target: set<string>, standing: Standing): set<string>
  {
    set c | c in target && StandingOf(rows, gen, c) == standing
  }

  function Codes(rows: seq<Row>): set<string> { set r | r in rows :: r.code }

  /** The codes that hold the date's membership and should not. */
  function Surplus(rows: seq<Row>, gen: Generation, target: set<string>): set<string>
  {
    set c | c in Codes(rows) && c != "" && c !in target && Shown(rows, c, DateKey(gen)).Some?
  }

  lemma DateKeyIs(gen: Generation)
    ensures DateKey(gen).source != "" && DateKey(gen).category != ""
    ensures forall existing, code :: NewMembership(UpsertFor(existing, gen, code)).key == DateKey(gen)
  {
    assert |CLX| > 0 && |"trade_date:" + gen.tradeDate| > 0;
  }

  lemma {:induction false} RowsOfTwice(rows: seq<Row>, c: string)
    ensures RowsOf(RowsOf(rows, c), c) == RowsOf(rows, c)
  {
    if rows != [] {
      RowsOfTwice(rows[..|rows| - 1], c);
      var r, last := RowsOf(rows[..|rows| - 1], c), rows[|rows| - 1];
      assert (r + [last])[..|r|] == r && r + [] == r;
    }
  }

  /** What a removal makes of a code's rows depends on those rows alone. */
  lemma RemovedLocal(rows: seq<Row>, c: string, source: string, category: string)
    requires c != ""
    ensures RowsOf(Removed(rows, c, source, category).0, c)
        == RowsOf(Removed(RowsOf(rows, c), c, source, category).0, c)
  {
    var rs := RowsOf(rows, c);
    RowsOfTwice(rows, c);
    ViewLocal(rows, rs, c);
    RowsOfWithout(rows, c, c);
    RowsOfWithout(rs, c, c);
    if View(rows, c).Some? {
      RowsOfRewritten(rows, RemainingDoc(rows, c, source, category), c);
      RowsOfRewritten(rs, RemainingDoc(rs, c, source, category), c);
    }
  }

  /** Reconciled, seen from one code: a target holds exactly the new membership, and no other code holds one for the
      date; under every other source and category each code shows what it showed before. */
  lemma ReconcileShows(before: seq<Row>, after: seq<Row>, gen: Generation, target: set<string>, c: string, k: Key)
    requires Reconciled(before, after, gen, target) && c != ""
    ensures Shown(after, c, DateKey(gen)) ==
            if c in target then Some(Membership(DateKey(gen), Some(gen.addedAt), None, ExtraFor(gen, c))) else None
    ensures k != DateKey(gen) ==> Shown(after, c, k) == Shown(before, c, k)
    ensures c in target ==> |RowsOf(after, c)| == 1
  {
    var rs := RowsOf(before, c);
    RowsOfTwice(before, c);
    ViewLocal(before, rs, c);
    DateKeyIs(gen);
    if c in target {
      var u := UpsertFor(View(rs, c), gen, c);
      RowsOfRewritten(rs, UpsertDoc(View(rs, c), u), c);
      ViewLocal(after, Upserted(rs, u), c);
      UpsertShows(rs, u, c, k);
      UpsertShows(rs, u, c, DateKey(gen));
    } else if Shown(rs, c, DateKey(gen)).Some? {
      var removed := Removed(rs, c, CLX, DateKey(gen).category).0;
      RowsOfTwice(removed, c);
      ViewLocal(after, removed, c);
      RemoveShows(rs, c, CLX, DateKey(gen).category, c, k);
      RemoveShows(rs, c, CLX, DateKey(gen).category, c, DateKey(gen));
    } else {
      ViewLocal(after, before, c);
    }
  }

  /** A non-target code that held nothing but the date's membership is deleted; a target keeps its row. */
  lemma ReconcileDeletesEmpty(before: seq<Row>, after: seq<Row>, gen: Generation, target: set<string>, c: string)
    requires Reconciled(before, after, gen, target) && c != "" && c !in target && Shown(before, c, DateKey(gen)).Some?
    ensures RowsOf(after, c) == [] <==> forall m :: m in MembershipsOf(before, c) ==> m.key == DateKey(gen)
  {
    var rs := RowsOf(before, c);
    RowsOfTwice(before, c);
    ViewLocal(before, rs, c);
    DateKeyIs(gen);
    var category := DateKey(gen).category;
    RemoveAnswers(rs, c, CLX, category);
    FindIs(MembershipsOf(rs, c), DateKey(gen));
    assert forall m :: m in MembershipsOf(rs, c) ==> (Selected(m, CLX, category) <==> m.key == DateKey(gen));
    assert Selected(Shown(rs, c, DateKey(gen)).value, CLX, category);
  }

  /** Once written by a reconciliation, a row is written the same by the next one of the same generation. */
  lemma UpsertTwice(rs: seq<Row>, gen: Generation, c: string)
    requires c != ""
    ensures var doc := UpsertDoc(View(rs, c), UpsertFor(View(rs, c), gen, c));
            UpsertDoc(View([doc], c), UpsertFor(View([doc], c), gen, c)) == doc
  {
    var u := UpsertFor(View(rs, c), gen, c);
    var doc := UpsertDoc(View(rs, c), u);
    UpsertDocWritten(rs, u);
    assert [doc][..0] == [];
    assert RowsOf([doc], c) == [doc];
    ReadBack([doc], doc);
    var g := View([doc], c).value;
    var m := NewMembership(u);
    var was := if View(rs, c).Some? then View(rs, c).value.memberships else [];
    ViewShowsLatest(rs, c, m.key);
    FindPut(was, m, m.key);
    PutKeys(was, m);
    SortedDistinct(Put(was, m), m.key);
    PutSame(g.memberships, m);
    Sorting.SortedFixed(g.memberships, MembershipLess);
    var again := UpsertDoc(Some(g), UpsertFor(Some(g), gen, c));
    assert again.memberships == doc.memberships;
    assert again.createdAt == doc.createdAt && again.updatedAt == doc.updatedAt;
    assert again.expireAt == doc.expireAt && again.order == doc.order;
  }

  lemma {:induction false} PutSame(d: seq<Membership>, m: Membership)
    requires Find(d, m.key) == Some(m)
    ensures Put(d, m) == d
  {
    assert d == [d[0]] + d[1..];
    if d[0].key != m.key {
      PutSame(d[1..], m);
    }
  }

  lemma {:induction false} CountInCode(rows: seq<Row>, r: Row)
    ensures multiset(rows)[r] == multiset(RowsOf(rows, r.code))[r]
  {
    if rows != [] {
      var front, last := rows[..|rows| - 1], rows[|rows| - 1];
      CountInCode(front, r);
      assert rows == front + [last];
    }
  }

  /** Stores with the same rows for every code hold the same rows. */
  lemma SameStore(a: seq<Row>, b: seq<Row>)
    requires forall c :: RowsOf(a, c) == RowsOf(b, c)
    ensures multiset(a) == multiset(b)
  {
    forall r: Row ensures multiset(a)[r] == multiset(b)[r] {
      CountInCode(a, r);
      CountInCode(b, r);
    }
  }

  /** Reconciling again with the same arguments leaves the store with the very same rows, finds every target current
      and nothing missing, outdated or surplus. */
  lemma SecondRun(before: seq<Row>, after: seq<Row>, again: seq<Row>, gen: Generation, target: set<string>)
    requires "" !in target && Reconciled(before, after, gen, target) && Reconciled(after, again, gen, target)
    requires RowsOf(again, "") == RowsOf(after, "")
    ensures forall c :: RowsOf(again, c) == RowsOf(after, c)
    ensures multiset(again) == multiset(after)
    ensures Targets(after, gen, target, Missing) == {} && Targets(after, gen, target, Outdated) == {}
    ensures Targets(after, gen, target, Current) == target && Surplus(after, gen, target) == {}
  {
    hide ReconciledRows, UpsertDoc, ExtraFor, SameGeneration;
    forall c | c != "" ensures RowsOf(again, c) == RowsOf(after, c) {
      StaysReconciled(before, after, gen, target, c);
    }
    SameStore(again, after);
    forall c | c != "" ensures Shown(after, c, DateKey(gen)) ==
              if c in target then Some(Membership(DateKey(gen), Some(gen.addedAt), None, ExtraFor(gen, c))) else None
    {
      ReconcileShows(before, after, gen, target, c, DateKey(gen));
    }
    forall c | c in target ensures SameGeneration(Shown(after, c, DateKey(gen)).value, gen) {
      ExtraIsCurrent(gen, c);
    }
  }

  lemma ExtraIsCurrent(gen: Generation, c: string)
    ensures SameGeneration(Membership(DateKey(gen), Some(gen.addedAt), None, ExtraFor(gen, c)), gen)
  {
  }

  lemma StaysReconciled(before: seq<Row>, after: seq<Row>, gen: Generation, target: set<string>, c: string)
    requires c != "" && Reconciled(before, after, gen, target)
    ensures ReconciledRows(RowsOf(after, c), gen, target, c) == RowsOf(after, c)
  {
    hide UpsertDoc, ExtraFor;
    ReconcileShows(before, after, gen, target, c, DateKey(gen));
    var rs := RowsOf(after, c);
    RowsOfTwice(after, c);
    ViewLocal(after, rs, c);
    if c in target {
      UpsertTwice(RowsOf(before, c), gen, c);
    }
  }

  /** Every target is missing, outdated or current, and only one of them. */
  lemma TargetsCounted(rows: seq<Row>, gen: Generation, target: set<string>)
    ensures |Targets(rows, gen, target, Missing)| + |Targets(rows, gen, target, Outdated)|
            + |Targets(rows, gen, target, Current)| == |target|
  {
    hide StandingOf;
    var a, b, c := Targets(rows, gen, target, Missing), Targets(rows, gen, target, Outdated), Targets(rows, gen,
        target, Current);
    assert a + b + c == target && a !! b && (a + b) !! c;
  }
}
