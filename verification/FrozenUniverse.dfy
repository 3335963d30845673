/** The frozen universe: where each candidate goes, the plan that records it, and the check of such a plan. */
module FrozenUniverse {
  import opened Wrappers
  import opened Universe
  import Sorting
  import Documents

  datatype RawExclusion = RawExclusion(code: string, symbol: string, reason: string)

  /** What the freezing depends on besides the candidates. */
  datatype Setting = Setting(asset: Documents.Asset, exclusions: seq<Exclusion>, credit: Credit,
      probe: string -> Probe, barCount: int)

  // ----- source exclusions -----

  function ExclusionOf(row: RawExclusion): Exclusion { Exclusion(BaseSymbol(OrElse(row.code, row.symbol)), row.reason) }

  predicate ValidExclusion(e: Exclusion) { SixDigits(e.code) && e.reason != "" }

  predicate ExclusionLess(a: Exclusion, b: Exclusion)
  {
    Sorting.Less(a.code, b.code) || (a.code == b.code && Sorting.Less(a.reason, b.reason))
  }

  function Exclusions(rows: seq<RawExclusion>): seq<Exclusion>
  {
    if rows == [] then [] else Exclusions(rows[..|rows| - 1]) + [ExclusionOf(rows[|rows| - 1])]
  }

  function NormalizedExclusions(rows: seq<RawExclusion>): Option<seq<Exclusion>>
  {
    if forall e :: e in Exclusions(rows) ==> ValidExclusion(e)
    then Some(Sorting.Sorted(Exclusions(rows), ExclusionLess)) else None
  }

  method NormalizeSourceExclusions(rows: seq<RawExclusion>) returns (r: Option<seq<Exclusion>>)
    ensures r == NormalizedExclusions(rows)
  {
    var normalized: seq<Exclusion> := [];
    for i := 0 to |rows|
      invariant normalized == Exclusions(rows[..i])
      invariant forall e :: e in normalized ==> ValidExclusion(e)
    {
      assert rows[..i + 1][..i] == rows[..i];
      var e := ExclusionOf(rows[i]);
      if !ValidExclusion(e) {
        ExclusionIn(rows, i);
        return None;
      }
      normalized := normalized + [e];
    }
    assert rows[..|rows|] == rows;
    r := Some(Sorting.Sorted(normalized, ExclusionLess));
  }

  lemma {:induction false} ExclusionIn(rows: seq<RawExclusion>, i: nat)
    requires i < |rows|
    ensures ExclusionOf(rows[i]) in Exclusions(rows)
  {
    if i < |rows| - 1 {
      ExclusionIn(rows[..|rows| - 1], i);
    }
  }

  /** The reasons a code is excluded for, in order and each once. */
  function ReasonsOf(exclusions: seq<Exclusion>, code: string): seq<string>
  {
    if exclusions == [] then []
    else
      var front, last := ReasonsOf(exclusions[..|exclusions| - 1], code), exclusions[|exclusions| - 1];
      if last.code == code && last.reason !in front then front + [last.reason] else front
  }

  function Joined(texts: seq<string>): string
  {
    if texts == [] then "" else if |texts| == 1 then texts[0]
        else Joined(texts[..|texts| - 1]) + "; " + texts[|texts| - 1]
  }

  // ----- where a candidate goes -----

  predicate HasLof(name: string)
  {
    |name| >= 3 && (Upper(name)[..3] == "LOF" || HasLof(name[1..]))
  }

  predicate IsLof(symbol: string, name: string)
  {
    HasLof(name) || "16" <= symbol || "501" <= symbol || "502" <= symbol || "506" <= symbol
  }

  function Policy(code: string, classification: string, reason: string): Isolation
  {
    Isolation(code, classification, "CLX_UNIVERSE_POLICY_EXCLUDED", reason, "clx_universe_policy")
  }

  function PolicyExclusion(x: Setting, c: Candidate): Option<Isolation>
  {
    if c.symbol !in x.credit.lookup then Some(Policy(c.symbol, "non_credit_subject", "not in credit subject snapshot"))
    else if x.credit.lookup[c.symbol] != Some(FINANCING)
    then Some(Policy(c.symbol, "non_financing_credit_subject", "credit subject is not financing eligible"))
    else if x.asset == Documents.Etf
        && IsLof(c.symbol, c.name) then Some(Policy(c.symbol, "lof_subject", "LOF subject excluded"))
    else None
  }

  datatype Place = SourceExcluded(isolation: Isolation) | PolicyExcluded(isolation: Isolation)
                 | ReaderIsolated(isolation: Isolation) | Effective | Unreadable

  function PlaceOf(x: Setting, c: Candidate): Place
  {
    var reasons := ReasonsOf(x.exclusions, c.symbol);
    if reasons != [] then
      SourceExcluded(Isolation(c.symbol, "qfq_marker_source_exclusion", "QFQ_DATA_NOT_READY", Joined(reasons),
                               "qfq_marker_source_exclusion"))
    else if PolicyExclusion(x, c).Some? then PolicyExcluded(PolicyExclusion(x, c).value)
    else match x.probe(c.symbol)
         case NotReady(classification, reason) =>
           ReaderIsolated(Isolation(c.symbol, classification, "QFQ_DATA_NOT_READY", reason, "strict_qfq_reader"))
         case Fine => Effective
         case Broken => Unreadable
  }

  function EffectiveOf(x: Setting, cs: seq<Candidate>): seq<Candidate>
  {
    if cs == [] then []
    else EffectiveOf(x, cs[..|cs| - 1]) + if PlaceOf(x, cs[|cs| - 1]).Effective? then [cs[|cs| - 1]] else []
  }

  datatype Group = BySource | ByPolicy | ByReader

  predicate Belongs(p: Place, g: Group)
  {
    match g
    case BySource => p.SourceExcluded?
    case ByPolicy => p.PolicyExcluded?
    case ByReader => p.ReaderIsolated?
  }

  /** The place is of the group, and recorded by this isolation. */
  predicate RecordedBy(p: Place, g: Group, i: Isolation) { Belongs(p, g) && p.isolation == i }

  /** The isolations of a group, in candidate order. */
  function IsolatedBy(x: Setting, cs: seq<Candidate>, g: Group): seq<Isolation>
  {
    if cs == [] then []
    else
      var p := PlaceOf(x, cs[|cs| - 1]);
      IsolatedBy(x, cs[..|cs| - 1], g) + if Belongs(p, g) then [p.isolation] else []
  }

  predicate Readable(x: Setting, cs: seq<Candidate>) { forall c :: c in cs ==> !PlaceOf(x, c).Unreadable? }

  // ----- the plan -----

  predicate ByReason(a: Isolation, b: Isolation)
  {
    Sorting.Less(a.code, b.code) || (a.code == b.code &&
      (Sorting.Less(a.reason, b.reason) || (a.reason == b.reason && Sorting.Less(a.source, b.source))))
  }

  predicate BySourceFirst(a: Isolation, b: Isolation)
  {
    Sorting.Less(a.code, b.code) || (a.code == b.code &&
      (Sorting.Less(a.source, b.source) || (a.source == b.source && Sorting.Less(a.reason, b.reason))))
  }

  function SortedGroup(x: Setting, cs: seq<Candidate>, g: Group): seq<Isolation>
  {
    Sorting.Sorted(IsolatedBy(x, cs, g), ByReason)
  }

  function PlanOf(x: Setting, cs: seq<Candidate>, effective: seq<Candidate>, source: seq<Isolation>,
      policy: seq<Isolation>,
                  reader: seq<Isolation>): Plan
  {
    var isolations := Sorting.Sorted(source + policy + reader, BySourceFirst);
    var hash := UniverseHash(effective, POLICY_VERSION, x.credit.hash);
    Plan(effective, hash,
         Evidence(|effective| + |source| + |policy| + |reader|, cs, |effective|, effective, hash, POLICY_VERSION,
                  x.credit.ready, x.credit.account, x.credit.count, x.credit.financingCount, x.credit.hash,
                  x.exclusions, |x.exclusions|, x.exclusions, source, |source|, policy, |policy|, policy,
                  reader, |reader|, reader, x.barCount, PROBE_VERSION, isolations, |isolations|, isolations))
  }

  function FrozenPlan(x: Setting, cs: seq<Candidate>): Plan
  {
    PlanOf(x, cs, EffectiveOf(x, cs), SortedGroup(x, cs, BySource), SortedGroup(x, cs, ByPolicy), SortedGroup(x,
        cs, ByReader))
  }

  function CodesOf(isolations: seq<Isolation>): set<string> { set i | i in isolations :: BaseSymbol(i.code) }

  function CandidateCodes(cs: seq<Candidate>): set<string> { set c | c in cs :: BaseSymbol(c.symbol) }

  function ExcludedCodes(exclusions: seq<Exclusion>): set<string> { set e | e in exclusions :: e.code }

  /** The first check that a plan fails. */
  function Check(exclusions: seq<Exclusion>, barCount: int, plan: Plan): Option<Problem>
  {
    var instruments, e := plan.instruments, plan.evidence;
    if e.probeVersion != PROBE_VERSION || e.policyVersion != POLICY_VERSION || e.probeBars != barCount
        || e.creditHash == ""
    then Some(StaleEvidence)
    else if instruments == [] then Some(Empty)
    else if Normalized(AsRows(instruments)) != Some(instruments) then Some(NotCanonical)
    else if e.exclusions != exclusions then Some(ExclusionMismatch)
    else if e.exclusionCount != |exclusions| || e.exclusionsHash != exclusions then Some(ExclusionHashMismatch)
    else if CandidateCodes(instruments) * ExcludedCodes(exclusions) - {""} != {} then Some(ExclusionOverlap)
    else if e.effectiveHash != instruments then Some(InstrumentsHash)
    else if UniverseHash(instruments, POLICY_VERSION, e.creditHash) != plan.universeHash then Some(UniverseHashWrong)
    else if e.universeHash != plan.universeHash then Some(EvidenceHash)
    else if e.isolationHash != e.isolations then Some(IsolationHash)
    else if e.readerIsolationHash != e.readerIsolations then Some(ReaderHash)
    else if e.policyExcludedHash != e.policyExcluded then Some(PolicyHash)
    else if e.isolations != Sorting.Sorted(e.sourceExcluded + e.policyExcluded + e.readerIsolations, BySourceFirst)
    then Some(CombinedIsolations)
    else if CandidateCodes(instruments) * CodesOf(e.isolations) - {""} != {} then Some(IsolationOverlap)
    else if e.effectiveCount != |instruments| || e.sourceExcludedCount != |e.sourceExcluded|
            || e.policyExcludedCount != |e.policyExcluded| || e.readerIsolationCount != |e.readerIsolations|
            || e.isolationCount != |e.isolations| then Some(CountMismatch)
    else if e.candidateCount != |instruments| + |e.sourceExcluded| + |e.policyExcluded| + |e.readerIsolations|
    then Some(Accounting)
    else if !e.creditReady || e.creditCount <= 0 then Some(CreditIncomplete)
    else None
  }

  // ----- each candidate goes to one place -----

  lemma {:induction false} EffectiveIs(x: Setting, cs: seq<Candidate>)
    ensures forall c :: c in EffectiveOf(x, cs) <==> c in cs && PlaceOf(x, c).Effective?
  {
    hide PlaceOf;
    if cs != [] {
      EffectiveIs(x, cs[..|cs| - 1]);
      assert cs == cs[..|cs| - 1] + [cs[|cs| - 1]];
    }
  }

  /** What is in order, and without repetition, stays so when some are taken out. */
  lemma {:induction false} EffectiveCanonical(x: Setting, cs: seq<Candidate>)
    requires Canonical(cs)
    ensures Canonical(EffectiveOf(x, cs))
  {
    hide PlaceOf, SixDigits;
    EffectiveIs(x, cs);
    if cs != [] {
      var n := |cs| - 1;
      var front := EffectiveOf(x, cs[..n]);
      EffectiveCanonical(x, cs[..n]);
      EffectiveIs(x, cs[..n]);
      forall i | 0 <= i < |front| ensures front[i].symbol != cs[n].symbol && !CandidateLess(cs[n], front[i]) {
        assert front[i] in front;
        var j :| 0 <= j < n && cs[..n][j] == front[i];
      }
    }
  }

  lemma IsolationCode(x: Setting, c: Candidate, g: Group)
    ensures forall i :: RecordedBy(PlaceOf(x, c), g, i) ==> i.code == c.symbol && Belongs(PlaceOf(x, c), g)
  {
  }

  lemma RecordOf(p: Place, g: Group) returns (i: Isolation)
    requires Belongs(p, g)
    ensures RecordedBy(p, g, i)
  {
    i := p.isolation;
  }

  lemma {:induction false} IsolatedIs(x: Setting, cs: seq<Candidate>, g: Group)
    ensures forall i :: i in IsolatedBy(x, cs, g) <==> exists c :: c in cs && RecordedBy(PlaceOf(x, c), g, i)
  {
    hide PlaceOf, RecordedBy, Belongs;
    if cs != [] {
      var front, last := cs[..|cs| - 1], cs[|cs| - 1];
      IsolatedIs(x, front, g);
      LastRecord(PlaceOf(x, last), g);
      assert forall c :: c in cs <==> c in front || c == last;
      forall i ensures i in IsolatedBy(x, cs, g) <==> exists c :: c in cs && RecordedBy(PlaceOf(x, c), g, i) {
        if c :| c in cs && RecordedBy(PlaceOf(x, c), g, i) {
          assert c in front || RecordedBy(PlaceOf(x, last), g, i);
        }
        if i in IsolatedBy(x, front, g) {
          var c :| c in front && RecordedBy(PlaceOf(x, c), g, i);
          assert c in cs;
        }
      }
    }
  }

  lemma LastRecord(p: Place, g: Group)
    ensures forall i :: RecordedBy(p, g, i) <==> Belongs(p, g) && i == p.isolation
  {
  }

  lemma {:induction false} PlacesCount(x: Setting, cs: seq<Candidate>)
    requires Readable(x, cs)
    ensures |EffectiveOf(x, cs)| + |IsolatedBy(x, cs, BySource)| + |IsolatedBy(x, cs, ByPolicy)| + |IsolatedBy(x,
        cs, ByReader)| == |cs|
  {
    hide PlaceOf;
    if cs != [] {
      PlacesCount(x, cs[..|cs| - 1]);
      assert cs[|cs| - 1] in cs;
    }
  }

  predicate ListedIn(x: Setting, cs: seq<Candidate>, g: Group, symbol: string)
  {
    exists i :: i in SortedGroup(x, cs, g) && i.code == symbol
  }

  /** A candidate's code is listed in a group exactly when the candidate belongs there. */
  lemma ListedIs(x: Setting, cs: seq<Candidate>, g: Group, c: Candidate)
    requires DistinctSymbols(cs) && c in cs
    ensures ListedIn(x, cs, g, c.symbol) <==> Belongs(PlaceOf(x, c), g)
  {
    hide PlaceOf, RecordedBy, Belongs, IsolatedBy, ByReason;
    IsolatedIs(x, cs, g);
    Sorting.SortedPermutes(IsolatedBy(x, cs, g), ByReason);
    IsolationCode(x, c, g);
    if Belongs(PlaceOf(x, c), g) {
      var i := RecordOf(PlaceOf(x, c), g);
      assert i in SortedGroup(x, cs, g);
    }
    if ListedIn(x, cs, g, c.symbol) {
      var i :| i in SortedGroup(x, cs, g) && i.code == c.symbol;
      var d :| d in cs && RecordedBy(PlaceOf(x, d), g, i);
      IsolationCode(x, d, g);
      SameCandidate(cs, c, d);
    }
  }

  lemma SameCandidate(cs: seq<Candidate>, c: Candidate, d: Candidate)
    requires DistinctSymbols(cs) && c in cs && d in cs && c.symbol == d.symbol
    ensures c == d
  {
  }

  /** The frozen universe accounts for every candidate: it is effective, or listed as source-excluded, policy-excluded
      or reader-isolated, and only one of these; the effective ones keep the canonical order; the counts add up. */
  lemma EveryCandidateOnce(x: Setting, cs: seq<Candidate>, c: Candidate)
    requires Canonical(cs) && Readable(x, cs) && c in cs
    ensures var plan := FrozenPlan(x, cs);
            && (if c in plan.instruments then 1 else 0) + (if ListedIn(x, cs, BySource, c.symbol) then 1 else 0)
               + (if ListedIn(x, cs, ByPolicy, c.symbol) then 1
                   else 0) + (if ListedIn(x, cs, ByReader, c.symbol) then 1 else 0) == 1
            && Canonical(plan.instruments) && (forall d :: d in plan.instruments ==> d in cs)
            && plan.evidence.candidateCount == |cs|
  {
    hide PlaceOf, ListedIn, ByReason, BySourceFirst, SixDigits;
    EffectiveIs(x, cs);
    EffectiveCanonical(x, cs);
    ListedIs(x, cs, BySource, c);
    ListedIs(x, cs, ByPolicy, c);
    ListedIs(x, cs, ByReader, c);
    PlacesCount(x, cs);
    GroupLength(x, cs, BySource);
    GroupLength(x, cs, ByPolicy);
    GroupLength(x, cs, ByReader);
  }

  predicate Either(c: char, capital: char, small: char) { c == capital || c == small }

  /** LOF, in capital or small letters, stands at position k of the name. */
  predicate LofAt(name: string, k: nat)
  {
    k + 3 <= |name| && Either(name[k], 'L', 'l') && Either(name[k + 1], 'O', 'o') && Either(name[k + 2], 'F', 'f')
  }

  /** The name contains LOF, or the code starts like one. */
  ghost predicate LofSubject(symbol: string, name: string)
  {
    || (exists k :: LofAt(name, k))
    || (|symbol| >= 2 && symbol[..2] == "16")
    || (|symbol| >= 3 && symbol[..3] in {"501", "502", "506"})
  }

  lemma Letter(c: char)
    ensures UpperChar(c) == 'L' <==> Either(c, 'L', 'l')
    ensures UpperChar(c) == 'O' <==> Either(c, 'O', 'o')
    ensures UpperChar(c) == 'F' <==> Either(c, 'F', 'f')
  {
  }

  lemma StartsWithLof(name: string)
    ensures |name| >= 3 && Upper(name)[..3] == "LOF" <==> LofAt(name, 0)
  {
    hide Upper, UpperChar, Either;
    if |name| >= 3 {
      Letter(name[0]);
      Letter(name[1]);
      Letter(name[2]);
      var u := Upper(name)[..3];
      assert u == [UpperChar(name[0]), UpperChar(name[1]), UpperChar(name[2])];
    }
  }

  lemma {:induction false} HasLofIs(name: string)
    ensures HasLof(name) <==> exists k :: LofAt(name, k)
  {
    hide Upper, Either;
    StartsWithLof(name);
    if |name| >= 3 {
      HasLofIs(name[1..]);
      if k: nat :| LofAt(name[1..], k) {
        assert LofAt(name, k + 1);
      }
      if k: nat :| LofAt(name, k) && k > 0 {
        assert LofAt(name[1..], k - 1);
      }
    }
  }

  /** The code may be traded on credit: it is in the lookup with financing status 48. */
  predicate Financed(x: Setting, symbol: string)
  {
    symbol in x.credit.lookup && x.credit.lookup[symbol] == Some(48)
  }

  predicate Excluded(x: Setting, symbol: string) { exists e :: e in x.exclusions && e.code == symbol }

  /** Which candidates are effective: those the source does not exclude, which may be traded on credit, are no LOF among
      ETFs, and whose bars can be read. The rest are listed where the first of these fails. */
  lemma EffectiveWhen(x: Setting, cs: seq<Candidate>, c: Candidate)
    requires Canonical(cs) && Readable(x, cs) && c in cs
    ensures var allowed := Financed(x, c.symbol) && !(x.asset == Documents.Etf && LofSubject(c.symbol, c.name));
            && (ListedIn(x, cs, BySource, c.symbol) <==> Excluded(x, c.symbol))
            && (ListedIn(x, cs, ByPolicy, c.symbol) <==> !Excluded(x, c.symbol) && !allowed)
            && (ListedIn(x, cs, ByReader, c.symbol) <==>
                  !Excluded(x, c.symbol) && allowed && !x.probe(c.symbol).Fine?)
            && (c in FrozenPlan(x, cs).instruments <==>
                  !Excluded(x, c.symbol) && allowed && x.probe(c.symbol).Fine?)
  {
    hide ListedIn, ByReason, BySourceFirst, SixDigits, HasLof, LofSubject, Excluded, ReasonsOf;
    EffectiveIs(x, cs);
    ListedIs(x, cs, BySource, c);
    ListedIs(x, cs, ByPolicy, c);
    ListedIs(x, cs, ByReader, c);
    ExcludedIs(x, c.symbol);
    LofIs(c.symbol, c.name);
  }

  lemma LofIs(symbol: string, name: string)
    ensures IsLof(symbol, name) <==> LofSubject(symbol, name)
  {
    HasLofIs(name);
    Starts("16", symbol);
    Starts("501", symbol);
    Starts("502", symbol);
    Starts("506", symbol);
  }

  lemma Starts(prefix: string, s: string)
    ensures prefix <= s <==> |s| >= |prefix| && s[..|prefix|] == prefix
  {
  }

  lemma ExcludedIs(x: Setting, symbol: string)
    ensures Excluded(x, symbol) <==> ReasonsOf(x.exclusions, symbol) != []
  {
    ReasonsWhen(x.exclusions, symbol);
  }

  lemma GroupLength(x: Setting, cs: seq<Candidate>, g: Group)
    ensures |SortedGroup(x, cs, g)| == |IsolatedBy(x, cs, g)|
  {
    Sorting.SortedPermutes(IsolatedBy(x, cs, g), ByReason);
  }

  // ----- the plan passes its check -----

  lemma {:induction false} ReasonsWhen(exclusions: seq<Exclusion>, code: string)
    ensures ReasonsOf(exclusions, code) == [] <==> code !in ExcludedCodes(exclusions)
  {
    if exclusions != [] {
      var n := |exclusions| - 1;
      ReasonsWhen(exclusions[..n], code);
      assert exclusions == exclusions[..n] + [exclusions[n]];
      assert ExcludedCodes(exclusions) == ExcludedCodes(exclusions[..n]) + {exclusions[n].code};
    }
  }

  lemma NotExcluded(x: Setting, cs: seq<Candidate>)
    requires Canonical(cs)
    ensures CandidateCodes(EffectiveOf(x, cs)) * ExcludedCodes(x.exclusions) == {}
  {
    EffectiveIs(x, cs);
    forall c | c in EffectiveOf(x, cs) ensures BaseSymbol(c.symbol) !in ExcludedCodes(x.exclusions) {
      hide SixDigits, BaseSymbol;
      BaseSymbolFixed(c.symbol);
      ReasonsWhen(x.exclusions, c.symbol);
    }
  }

  lemma NotIsolated(x: Setting, cs: seq<Candidate>, g: Group, i: Isolation)
    requires Canonical(cs) && i in SortedGroup(x, cs, g)
    ensures BaseSymbol(i.code) !in CandidateCodes(EffectiveOf(x, cs))
  {
    hide PlaceOf, RecordedBy, Belongs, ByReason, BaseSymbol, SixDigits;
    EffectiveIs(x, cs);
    Sorting.SortedPermutes(IsolatedBy(x, cs, g), ByReason);
    IsolatedIs(x, cs, g);
    var d :| d in cs && RecordedBy(PlaceOf(x, d), g, i);
    IsolationCode(x, d, g);
    BelongsElsewhere(x, d, g);
    BaseSymbolFixed(d.symbol);
    forall c | c in EffectiveOf(x, cs) ensures BaseSymbol(c.symbol) != BaseSymbol(i.code) {
      BaseSymbolFixed(c.symbol);
      if c.symbol == d.symbol {
        SameCandidate(cs, c, d);
      }
    }
  }

  lemma BelongsElsewhere(x: Setting, c: Candidate, g: Group)
    requires Belongs(PlaceOf(x, c), g)
    ensures !PlaceOf(x, c).Effective?
  {
  }

  lemma NoneIsolated(x: Setting, cs: seq<Candidate>)
    requires Canonical(cs)
    ensures CandidateCodes(EffectiveOf(x, cs)) * CodesOf(FrozenPlan(x, cs).evidence.isolations) == {}
  {
    hide PlaceOf, RecordedBy, Belongs, ByReason, BaseSymbol, SixDigits, BySourceFirst, SortedGroup, EffectiveOf,
        Canonical, CandidateCodes;
    var all := SortedGroup(x, cs, BySource) + SortedGroup(x, cs, ByPolicy) + SortedGroup(x, cs, ByReader);
    Sorting.SortedPermutes(all, BySourceFirst);
    forall i | i in FrozenPlan(x, cs).evidence.isolations
      ensures BaseSymbol(i.code) !in CandidateCodes(EffectiveOf(x, cs))
    {
      assert i in all;
      if i in SortedGroup(x, cs, BySource) {
        NotIsolated(x, cs, BySource, i);
      } else if i in SortedGroup(x, cs, ByPolicy) {
        NotIsolated(x, cs, ByPolicy, i);
      } else {
        NotIsolated(x, cs, ByReader, i);
      }
    }
  }

  /** A frozen plan passes every check exactly when some instrument is effective and the credit snapshot has a hash. */
  lemma FrozenPlanPasses(x: Setting, cs: seq<Candidate>)
    requires Canonical(cs) && x.credit.ready && x.credit.count > 0
    ensures Check(x.exclusions, x.barCount, FrozenPlan(x, cs)) ==
            if x.credit.hash == "" then Some(StaleEvidence) else if EffectiveOf(x, cs) == [] then Some(Empty) else None
  {
    hide Canonical, SortedGroup, EffectiveOf, CandidateCodes, CodesOf, ExcludedCodes, Normalized, AsRows;
    EffectiveCanonical(x, cs);
    CanonicalFixed(EffectiveOf(x, cs));
    NotExcluded(x, cs);
    NoneIsolated(x, cs);
  }

  // ----- freezing -----

  datatype Freezing = Frozen(plan: Plan) | Refused(problem: Problem)

  /** Freeze the universe of a partition. */
  method FreezeEffectiveUniverse(asset: Documents.Asset, rows: seq<Raw>, rawExclusions: seq<RawExclusion>,
      credit: Credit,
                                 probe: string -> Probe, barCount: int) returns (r: Freezing)
    ensures Normalized(rows).None? ==> r.Refused? && Some(r.problem) == ProblemIn(Candidates(rows))
    ensures Normalized(rows).Some? && NormalizedExclusions(rawExclusions).None? ==> r == Refused(BadExclusion)
    ensures Normalized(rows).Some? && NormalizedExclusions(rawExclusions).Some? ==>
              var x := Setting(asset, NormalizedExclusions(rawExclusions).value, credit, probe, barCount);
              var cs := Normalized(rows).value;
              r == if !credit.ready || credit.count <= 0 then Refused(CreditNotReady)
                   else if !Readable(x, cs) then Refused(ProbeFailed)
                   else if credit.hash == "" then Refused(StaleEvidence)
                   else if EffectiveOf(x, cs) == [] then Refused(Empty)
                   else Frozen(FrozenPlan(x, cs))
  {
    var normalized, problem := NormalizeUniverseCandidates(rows);
    if normalized.None? {
      return Refused(problem.value);
    }
    var exclusions := NormalizeSourceExclusions(rawExclusions);
    if exclusions.None? {
      return Refused(BadExclusion);
    }
    if !credit.ready || credit.count <= 0 {
      return Refused(CreditNotReady);
    }
    var x := Setting(asset, exclusions.value, credit, probe, barCount);
    var cs := normalized.value;
    var placed := PlaceCandidates(x, cs);
    if placed.None? {
      return Refused(ProbeFailed);
    }
    NormalizedIs(rows);
    FrozenPlanPasses(x, cs);
    var (effective, source, policy, reader) := placed.value;
    var plan := PlanOf(x, cs, effective, Sorting.Sorted(source, ByReason), Sorting.Sorted(policy, ByReason),
                       Sorting.Sorted(reader, ByReason));
    var failed := Check(x.exclusions, x.barCount, plan);
    r := if failed.Some? then Refused(failed.value) else Frozen(plan);
  }

  method PlaceCandidates(x: Setting, cs: seq<Candidate>)
    returns (r: Option<(seq<Candidate>, seq<Isolation>, seq<Isolation>, seq<Isolation>)>)
    ensures r.Some? <==> Readable(x, cs)
    ensures r.Some? ==> r.value == (EffectiveOf(x, cs), IsolatedBy(x, cs, BySource), IsolatedBy(x, cs, ByPolicy),
        IsolatedBy(x, cs, ByReader))
  {
    hide PlaceOf;
    var effective, source, policy, reader := [], [], [], [];
    for i := 0 to |cs|
      invariant Readable(x, cs[..i])
      invariant effective == EffectiveOf(x, cs[..i]) && source == IsolatedBy(x, cs[..i], BySource)
      invariant policy == IsolatedBy(x, cs[..i], ByPolicy) && reader == IsolatedBy(x, cs[..i], ByReader)
    {
      assert cs[..i + 1][..i] == cs[..i] && cs[..i + 1] == cs[..i] + [cs[i]];
      match PlaceOf(x, cs[i]) {
        case SourceExcluded(isolation) => source := source + [isolation];
        case PolicyExcluded(isolation) => policy := policy + [isolation];
        case ReaderIsolated(isolation) => reader := reader + [isolation];
        case Effective => effective := effective + [cs[i]];
        case Unreadable => return None;
      }
    }
    assert cs[..|cs|] == cs;
    r := Some((effective, source, policy, reader));
  }

  /** What the plan says of a candidate that is not effective: its code, which rule it fails, and where that comes
      from. */
  lemma IsolationSays(x: Setting, c: Candidate)
    ensures var p := PlaceOf(x, c);
            && (p.SourceExcluded? ==>
                  && p.isolation.code == c.symbol && p.isolation.errorCode == "QFQ_DATA_NOT_READY"
                  && p.isolation.classification == p.isolation.source == "qfq_marker_source_exclusion")
            && (p.PolicyExcluded? ==>
                  && p.isolation.code == c.symbol && p.isolation.errorCode == "CLX_UNIVERSE_POLICY_EXCLUDED"
                  && p.isolation.source == "clx_universe_policy"
                  && (p.isolation.classification, p.isolation.reason) ==
                     if c.symbol !in x.credit.lookup then ("non_credit_subject", "not in credit subject snapshot")
                     else if !Financed(x, c.symbol)
                     then ("non_financing_credit_subject", "credit subject is not financing eligible")
                     else ("lof_subject", "LOF subject excluded"))
            && (p.ReaderIsolated? ==>
                  && p.isolation.code == c.symbol && p.isolation.errorCode == "QFQ_DATA_NOT_READY"
                  && p.isolation.source == "strict_qfq_reader"
                  && x.probe(c.symbol) == NotReady(p.isolation.classification, p.isolation.reason))
  {
    hide ReasonsOf, Joined, IsLof;
  }

  predicate Given(exclusions: seq<Exclusion>, code: string, reason: string)
  {
    exists e :: e in exclusions && e.code == code && e.reason == reason
  }

  /** And where the source excludes it, for each reason it gives once, in their order. */
  lemma {:induction false} ReasonsAre(exclusions: seq<Exclusion>, code: string)
    ensures var rs := ReasonsOf(exclusions, code);
            && (forall r :: r in rs <==> Given(exclusions, code, r))
            && forall i, j :: 0 <= i < j < |rs| ==> rs[i] != rs[j]
  {
    if exclusions != [] {
      var front, last := exclusions[..|exclusions| - 1], exclusions[|exclusions| - 1];
      ReasonsAre(front, code);
      assert exclusions == front + [last] && forall e :: e in exclusions <==> e in front || e == last;
      forall r ensures r in ReasonsOf(exclusions, code) <==> Given(exclusions, code, r) {
        assert Given(exclusions, code, r) <==> Given(front, code, r) || (last.code == code && last.reason == r);
      }
    }
  }

  // ----- which plans are accepted -----

  /** The plan was made under the current versions, with as many bars, and with a credit snapshot that was ready. */
  predicate IsCurrent(e: Evidence, barCount: int)
  {
    && e.probeVersion == "full-profile-window-v1" && e.policyVersion == "credit-lof-v1" && e.probeBars == barCount
    && e.creditHash != "" && e.creditReady && e.creditCount > 0
  }

  /** All hashes are those of what they stand for. */
  predicate HashesAgree(plan: Plan)
  {
    var e := plan.evidence;
    && e.exclusionsHash == e.exclusions && e.effectiveHash == plan.instruments && e.isolationHash == e.isolations
    && e.readerIsolationHash == e.readerIsolations && e.policyExcludedHash == e.policyExcluded
    && plan.universeHash == UniverseHash(plan.instruments, "credit-lof-v1", e.creditHash)
    && e.universeHash == plan.universeHash
  }

  /** All counts are those of what they count, and the candidates are the effective and the three kinds of others. */
  predicate CountsAgree(plan: Plan)
  {
    var e := plan.evidence;
    && e.exclusionCount == |e.exclusions| && e.effectiveCount == |plan.instruments|
    && e.sourceExcludedCount == |e.sourceExcluded| && e.policyExcludedCount == |e.policyExcluded|
    && e.readerIsolationCount == |e.readerIsolations| && e.isolationCount == |e.isolations|
    && e.candidateCount == |plan.instruments| + |e.sourceExcluded| + |e.policyExcluded| + |e.readerIsolations|
  }

  /** No effective instrument is excluded by the source or isolated. */
  predicate NothingTwice(plan: Plan)
  {
    forall c :: c in plan.instruments ==>
      && (forall e :: e in plan.evidence.exclusions ==> e.code != c.symbol)
      && (forall i :: i in plan.evidence.isolations ==> BaseSymbol(i.code) != c.symbol)
  }

  /** A plan is accepted exactly when it is current, its instruments are canonical and not empty, it names the
      exclusions there are, its isolations are those of the three kinds in order, and hashes and counts agree and
      nothing is in it twice. */
  lemma AcceptedWhen(exclusions: seq<Exclusion>, barCount: int, plan: Plan)
    ensures var e := plan.evidence;
            Check(exclusions, barCount, plan).None? <==>
              && IsCurrent(e, barCount) && plan.instruments != [] && Canonical(plan.instruments)
              && e.exclusions == exclusions
              && e.isolations == Sorting.Sorted(e.sourceExcluded + e.policyExcluded + e.readerIsolations, BySourceFirst)
              && HashesAgree(plan) && CountsAgree(plan) && NothingTwice(plan)
  {
    hide Normalized, Canonical, CandidateCodes, ExcludedCodes, CodesOf, NothingTwice, BySourceFirst, AsRows;
    var e := plan.evidence;
    CanonicalFixed(plan.instruments);
    if Canonical(plan.instruments) && e.exclusions == exclusions {
      TwiceIs(plan);
    }
  }

  lemma TwiceIs(plan: Plan)
    requires Canonical(plan.instruments)
    ensures var codes := CandidateCodes(plan.instruments);
            NothingTwice(plan) <==> codes * ExcludedCodes(plan.evidence.exclusions) - {""} == {}
                                    && codes * CodesOf(plan.evidence.isolations) - {""} == {}
  {
    hide BaseSymbol;
    var codes, e := CandidateCodes(plan.instruments), plan.evidence;
    forall c | c in plan.instruments ensures BaseSymbol(c.symbol) == c.symbol && c.symbol != "" && c.symbol in codes {
      assert SixDigits(c.symbol);
      BaseSymbolFixed(c.symbol);
    }
    if NothingTwice(plan) {
      forall x | x in codes ensures x !in ExcludedCodes(e.exclusions) && x !in CodesOf(e.isolations) {
        var c :| c in plan.instruments && BaseSymbol(c.symbol) == x;
      }
    }
    if codes * ExcludedCodes(e.exclusions) - {""} == {} && codes * CodesOf(e.isolations) - {""} == {} {
      forall c | c in plan.instruments
        ensures c.symbol !in ExcludedCodes(e.exclusions) && c.symbol !in CodesOf(e.isolations)
      {
        assert c.symbol in codes;
        assert c.symbol !in codes * ExcludedCodes(e.exclusions) - {""};
        assert c.symbol !in codes * CodesOf(e.isolations) - {""};
      }
    }
  }
}
