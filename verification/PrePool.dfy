/** The pre-pool rows, their merged view, and what each operation makes of them.
    Text is taken as already stripped. */
module PrePool {
  import opened Wrappers
  import Sorting

  type Time = int

  /** A value in an extra mapping: its text, and its number when it has one. */
  datatype Value = Value(text: string, number: Option<int>)

  type Extra = map<string, Value>

  /** Sources and categories name a membership of a code. */
  datatype Key = Key(source: string, category: string)

  datatype Membership = Membership(key: Key, addedAt: Option<Time>, expireAt: Option<Time>, extra: Extra)

  /** A stored row; a row of the older form has no membership list.
      The sorted lists of distinct sources and categories are represented by sets. */
  datatype Row = Row(code: string, name: string, symbol: string,
                     createdAt: Option<Time>, updatedAt: Option<Time>, datetime: Option<Time>, expireAt: Option<Time>,
                     category: string, remark: string, extra: Extra,
                     sources: set<string>, categories: set<string>,
                     memberships: Option<seq<Membership>>, order: Option<int>)

  /** What all rows of one code say together. */
  datatype Group = Group(name: string, symbol: string,
                         createdAt: Option<Time>, updatedAt: Option<Time>, expireAt: Option<Time>, order: Option<int>,
                         memberships: seq<Membership>)

  // ----- text and times -----

  function Earliest(a: Option<Time>, b: Option<Time>): Option<Time>
  {
    if a.None? then b else if b.None? then a else if b.value < a.value then b else a
  }

  function Latest(a: Option<Time>, b: Option<Time>): Option<Time>
  {
    if a.None? then b else if b.None? then a else if b.value > a.value then b else a
  }

  function SymbolOf(symbol: string, code: string): string
  {
    if symbol != "" then symbol
    else if |code| == 6 && forall c :: c in code ==> '0' <= c <= '9' then (if code[0] == '6' then "sh" else "sz") + code
    else code
  }

  // ----- order of keys -----

  predicate KeyLess(a: Key, b: Key)
  {
    Sorting.Less(a.source, b.source) || (a.source == b.source && Sorting.Less(a.category, b.category))
  }

  /** Keys are totally ordered. */
  lemma KeyOrder(a: Key, b: Key, c: Key)
    ensures !(KeyLess(a, b) && KeyLess(b, a))
    ensures KeyLess(a, b) || KeyLess(b, a) || a == b
    ensures KeyLess(a, c) ==> KeyLess(a, b) || KeyLess(b, c)
  {
    Sorting.LessOrder(a.source, b.source, c.source);
    Sorting.LessOrder(b.source, c.source, a.source);
    Sorting.LessOrder(a.category, b.category, c.category);
    Sorting.LessOrder(b.category, c.category, a.category);
  }

  // ----- lists of memberships -----

  function Find(d: seq<Membership>, k: Key): Option<Membership>
  {
    if d == [] then None else if d[0].key == k then Some(d[0]) else Find(d[1..], k)
  }

  /** Assigning to a key: in place when it is there, else at the end. */
  function Put(d: seq<Membership>, m: Membership): seq<Membership>
  {
    if d == [] then [m] else if d[0].key == m.key then [m] + d[1..] else [d[0]] + Put(d[1..], m)
  }

  predicate Distinct(d: seq<Membership>)
  {
    forall i, j :: 0 <= i < j < |d| ==> d[i].key != d[j].key
  }

  predicate MembershipLess(a: Membership, b: Membership) { KeyLess(a.key, b.key) }

  predicate Ordered(d: seq<Membership>) { Sorting.Ordered(d, MembershipLess) }

  /** The list sorted by key. */
  function Sorted(d: seq<Membership>): seq<Membership> { Sorting.Sorted(d, MembershipLess) }

  function Sources(d: seq<Membership>): set<string> { set m | m in d && m.key.source != "" :: m.key.source }

  function Categories(d: seq<Membership>): set<string> { set m | m in d && m.key.category != "" :: m.key.category }

  // ----- the merged view -----

  function Normalized(m: Membership): Membership
  {
    m.(key := Key(OrElse(m.key.source, "manual"), OrElse(m.key.category, "uncategorized")))
  }

  function AllNormalized(d: seq<Membership>): (r: seq<Membership>)
    ensures |r| == |d| && forall i :: 0 <= i < |d| ==> r[i] == Normalized(d[i])
  {
    if d == [] then [] else AllNormalized(d[..|d| - 1]) + [Normalized(d[|d| - 1])]
  }

  const SHOUBAN30_CATEGORIES := {"三十涨停Pro预选", "三十涨停Pro自选", "三十涨停Pro"}

  predicate IsShouban(row: Row)
  {
    row.category in SHOUBAN30_CATEGORIES || exists k :: k in row.extra && "shouban30_" <= k
  }

  function LegacySource(row: Row): string
  {
    if "daily-screening:" <= row.remark then "daily-screening"
    else if IsShouban(row) then "shouban30"
    else OrElse(row.remark, "manual")
  }

  function LegacyCategory(row: Row): string
  {
    var plate := if "shouban30_plate_key" in row.extra then row.extra["shouban30_plate_key"].text else "";
    if IsShouban(row) && plate != "" then "plate:" + plate
    else if row.category != "" then row.category
    else if "daily-screening:" <= row.remark then OrElse(row.remark[16..], "daily-screening")
    else "uncategorized"
  }

  /** The one membership a row of the older form stands for. */
  function LegacyMembership(row: Row): Membership
  {
    var extra := if row.remark != "" && "source_remark" !in row.extra
                 then row.extra["source_remark" := Value(row.remark, None)] else row.extra;
    Membership(Key(LegacySource(row), LegacyCategory(row)), Or(row.updatedAt, row.datetime), row.expireAt, extra)
  }

  /** The memberships a row offers to the merged view. */
  function Offers(row: Row): seq<Membership>
  {
    AllNormalized(if row.memberships.Some? then row.memberships.value else [LegacyMembership(row)])
  }

  /** An offer replaces what is there unless that was added later. */
  function Offer(d: seq<Membership>, m: Membership): seq<Membership>
  {
    var current := Find(d, m.key);
    if current.None? || Latest(current.value.addedAt, m.addedAt) == m.addedAt then Put(d, m) else d
  }

  function OfferAll(d: seq<Membership>, ms: seq<Membership>): seq<Membership>
  {
    if ms == [] then d else Offer(OfferAll(d, ms[..|ms| - 1]), ms[|ms| - 1])
  }

  function RowOrder(row: Row): Option<int>
  {
    Or(row.order, if "shouban30_order" in row.extra then row.extra["shouban30_order"].number else None)
  }

  function Least(a: Option<int>, b: Option<int>): Option<int>
  {
    if b.Some? && (a.None? || b.value < a.value) then b else a
  }

  function NewGroup(row: Row): Group { Group("", SymbolOf(row.symbol, row.code), None, None, None, None, []) }

  function MergeRow(g: Group, row: Row): Group
  {
    Group(OrElse(OrElse(row.name, g.name), row.code), SymbolOf(OrElse(row.symbol, g.symbol), row.code),
          Earliest(g.createdAt, Or(row.createdAt, row.datetime)), Latest(g.updatedAt, Or(row.updatedAt, row.datetime)),
          Latest(g.expireAt, row.expireAt), Least(g.order, RowOrder(row)), OfferAll(g.memberships, Offers(row)))
  }

  /** The rows of a code merged one after the other. */
  function Merged(rows: seq<Row>, code: string): Option<Group>
  {
    if rows == [] then None
    else
      var front, last := Merged(rows[..|rows| - 1], code), rows[|rows| - 1];
      if last.code != code then front
      else Some(MergeRow(if front.Some? then front.value else NewGroup(last), last))
  }

  function Finalized(g: Group): Group { g.(memberships := Sorted(g.memberships)) }

  /** The merged view of a code. */
  function View(rows: seq<Row>, code: string): Option<Group>
  {
    var g := Merged(rows, code);
    if g.None? then None else Some(Finalized(g.value))
  }

  function MembershipsOf(rows: seq<Row>, code: string): seq<Membership>
  {
    var g := View(rows, code);
    if g.None? then [] else g.value.memberships
  }

  /** The membership of a code under a key, as the merged view shows it. */
  function Shown(rows: seq<Row>, code: string, k: Key): Option<Membership> { Find(MembershipsOf(rows, code), k) }

  // ----- rewriting the rows of one code -----

  function RowsOf(rows: seq<Row>, code: string): seq<Row>
  {
    if rows == [] then []
    else RowsOf(rows[..|rows| - 1], code) + if rows[|rows| - 1].code == code then [rows[|rows| - 1]] else []
  }

  function Without(rows: seq<Row>, code: string): seq<Row>
  {
    if rows == [] then []
    else Without(rows[..|rows| - 1], code) + if rows[|rows| - 1].code == code then [] else [rows[|rows| - 1]]
  }

  function Rewritten(rows: seq<Row>, doc: Row): seq<Row> { Without(rows, doc.code) + [doc] }

  /** A unified row names exactly the sources and categories of its memberships. */
  predicate Agrees(row: Row)
  {
    row.memberships.Some? ==>
      row.sources == Sources(row.memberships.value) && row.categories == Categories(row.memberships.value)
  }

  // ----- upsert -----

  datatype Upsert = Upsert(code: string, name: string, symbol: string, source: string, category: string,
                           addedAt: Option<Time>, expireAt: Option<Time>, sourceRemark: string, rowCategory: string,
                           rowRemark: string, rowExtra: Extra, extra: Extra, order: Option<int>)

  function NewMembership(u: Upsert): Membership
  {
    var extra := if u.sourceRemark != "" && "source_remark" !in u.extra
                 then u.extra["source_remark" := Value(u.sourceRemark, None)] else u.extra;
    Membership(Key(OrElse(u.source, "manual"), OrElse(u.category, "uncategorized")), u.addedAt, u.expireAt, extra)
  }

  /** What an upsert starts from: a merged view, and the row's own category, remark and extra as far as it has them. */
  datatype Existing = Existing(group: Group, category: string, remark: string, extra: Extra)

  /** The merged view of a code that has rows does not carry the rows' own fields. */
  function FromView(g: Group): Existing { Existing(g, "", "", map[]) }

  /** A code without rows starts from the arguments. */
  function Blank(u: Upsert): Existing
  {
    Existing(Group("", SymbolOf(u.symbol, u.code), u.addedAt, u.addedAt, u.expireAt, u.order, []),
             u.rowCategory, u.rowRemark, u.rowExtra)
  }

  function UpsertDoc(existing: Option<Group>, u: Upsert): Row
  {
    var e := if existing.Some? then FromView(existing.value) else Blank(u);
    var g := e.group;
    var ms := Sorted(Put(g.memberships, NewMembership(u)));
    var created := Earliest(g.createdAt, u.addedAt);
    Row(u.code, OrElse(OrElse(u.name, g.name), u.code), SymbolOf(OrElse(u.symbol, g.symbol), u.code),
        created, Latest(g.updatedAt, u.addedAt), created, Latest(g.expireAt, u.expireAt),
        OrElse(u.rowCategory, e.category), OrElse(u.rowRemark, e.remark),
        if u.rowExtra != map[] then u.rowExtra else e.extra,
        Sources(ms), Categories(ms), Some(ms), Or(u.order, g.order))
  }

  function Upserted(rows: seq<Row>, u: Upsert): seq<Row>
  {
    Rewritten(rows, UpsertDoc(View(rows, u.code), u))
  }

  // ----- removing a membership -----

  /** An empty category stands for any. */
  predicate Selected(m: Membership, source: string, category: string)
  {
    m.key.source == source && (category == "" || m.key.category == category)
  }

  function Unselected(d: seq<Membership>, source: string, category: string): seq<Membership>
  {
    if d == [] then []
    else
      var m := d[|d| - 1];
      Unselected(d[..|d| - 1], source, category) + if Selected(m, source, category) then [] else [Normalized(m)]
  }

  /** The smallest order that one of the memberships carries. */
  function WorkspaceOrder(d: seq<Membership>): Option<int>
  {
    if d == [] then None
    else
      var front, extra := WorkspaceOrder(d[..|d| - 1]), d[|d| - 1].extra;
      if "shouban30_order" in extra && extra["shouban30_order"].number.Some?
          && extra["shouban30_order"].number.value >= 0
      then Least(front, extra["shouban30_order"].number) else front
  }

  function RowOfGroup(code: string, g: Group, ms: seq<Membership>, order: Option<int>): Row
  {
    Row(code, g.name, g.symbol, g.createdAt, g.updatedAt, g.createdAt, g.expireAt, "", "", map[],
        Sources(ms), Categories(ms), Some(ms), order)
  }

  function Removed(rows: seq<Row>, code: string, source: string, category: string): (seq<Row>, bool)
  {
    var g := View(rows, code);
    if code == "" || source == "" || g.None? then (rows, false)
    else
      var remaining := Unselected(g.value.memberships, source, category);
      if |remaining| == |g.value.memberships| then (rows, false)
      else if remaining == [] then (Without(rows, code), true)
      else
        var ms := Sorted(remaining);
        (Rewritten(rows, RowOfGroup(code, g.value, ms, if source == "shouban30" then WorkspaceOrder(ms)
            else g.value.order)), true)
  }

  // ----- purging -----

  predicate Lapsed(m: Membership, now: Time) { m.expireAt.Some? && m.expireAt.value < now }

  function Live(d: seq<Membership>, now: Time): seq<Membership>
  {
    if d == [] then []
    else Live(d[..|d| - 1], now) + if Lapsed(d[|d| - 1], now) then [] else [Normalized(d[|d| - 1])]
  }

  function LatestExpiry(d: seq<Membership>): Option<Time>
  {
    if d == [] then None else Latest(LatestExpiry(d[..|d| - 1]), d[|d| - 1].expireAt)
  }

  /** A unified row with its live memberships alone. */
  function PurgedDoc(row: Row, now: Time): Row
    requires row.memberships.Some?
  {
    var ms := Sorted(Live(row.memberships.value, now));
    row.(memberships := Some(ms), sources := Sources(ms), categories := Categories(ms), expireAt := LatestExpiry(ms))
  }

  /** A purge acts on a unified row when it has lost memberships or has none left. */
  predicate Touched(row: Row, now: Time)
  {
    row.code != "" && row.memberships.Some?
    && (row.memberships.value == [] || |Live(row.memberships.value, now)| < |row.memberships.value|)
  }

  /** What one row of the snapshot makes of the stored rows. */
  function PurgeOne(rows: seq<Row>, row: Row, now: Time): seq<Row>
  {
    if !Touched(row, now) then rows
    else if Live(row.memberships.value, now) == [] then Without(rows, row.code)
    else Rewritten(rows, PurgedDoc(row, now))
  }

  function PurgeAll(rows: seq<Row>, snapshot: seq<Row>, now: Time): seq<Row>
  {
    if snapshot == [] then rows
    else PurgeOne(PurgeAll(rows, snapshot[..|snapshot| - 1], now), snapshot[|snapshot| - 1], now)
  }
}
