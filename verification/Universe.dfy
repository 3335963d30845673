/** Freezing the universe of a partition, and the check that a frozen plan has to pass.
    canonical_hash is taken as injective: a hashed value stands for its own hash. Text is taken as already stripped. */
module Universe {
  import opened Wrappers
  import Sorting

  /** A row as the market data provider lists it. */
  datatype Raw = Raw(symbol: string, code: string, name: string)

  datatype Candidate = Candidate(symbol: string, name: string)

  datatype Exclusion = Exclusion(code: string, reason: string)

  datatype Isolation = Isolation(code: string, classification: string, errorCode: string, reason: string,
      source: string)

  /** The credit subjects: for each code the financing status, when it is a number. */
  datatype Credit = Credit(lookup: map<string, Option<int>>, ready: bool, account: string, count: int,
                           financingCount: int, hash: string)

  /** What probing one instrument gives: bars that match the snapshot, QFQ data that is not ready, or another error. */
  datatype Probe = Fine | NotReady(classification: string, reason: string) | Broken

  datatype UniverseHash = UniverseHash(instruments: seq<Candidate>, policyVersion: string, creditHash: string)

  datatype Evidence = Evidence(
    candidateCount: int, candidatesHash: seq<Candidate>,
    effectiveCount: int, effectiveHash: seq<Candidate>, universeHash: UniverseHash,
    policyVersion: string, creditReady: bool, creditAccount: string, creditCount: int, financingCount: int,
        creditHash: string,
    exclusions: seq<Exclusion>, exclusionCount: int, exclusionsHash: seq<Exclusion>,
    sourceExcluded: seq<Isolation>, sourceExcludedCount: int,
    policyExcluded: seq<Isolation>, policyExcludedCount: int, policyExcludedHash: seq<Isolation>,
    readerIsolations: seq<Isolation>, readerIsolationCount: int, readerIsolationHash: seq<Isolation>,
    probeBars: int, probeVersion: string,
    isolations: seq<Isolation>, isolationCount: int, isolationHash: seq<Isolation>)

  datatype Plan = Plan(instruments: seq<Candidate>, universeHash: UniverseHash, evidence: Evidence)

  datatype Problem =
    | BadRow | DuplicateSymbol | BadExclusion | CreditNotReady | ProbeFailed
    | StaleEvidence | Empty | NotCanonical | ExclusionMismatch | ExclusionHashMismatch | ExclusionOverlap
    | InstrumentsHash | UniverseHashWrong | EvidenceHash | IsolationHash | ReaderHash | PolicyHash
    | CombinedIsolations | IsolationOverlap | CountMismatch | Accounting | CreditIncomplete

  const PROBE_VERSION := "full-profile-window-v1"
  const POLICY_VERSION := "credit-lof-v1"
  const FINANCING := 48

  // ----- codes -----

  predicate IsDigit(c: char) { '0' <= c <= '9' }

  predicate AllDigits(s: string) { forall c :: c in s ==> IsDigit(c) }

  predicate SixDigits(s: string) { |s| == 6 && AllDigits(s) }

  function UpperChar(c: char): char { if 'a' <= c <= 'z' then c - 32 as char else c }

  function Upper(s: string): (r: string)
    ensures |r| == |s| && forall i :: 0 <= i < |s| ==> r[i] == UpperChar(s[i])
  {
    if s == "" then "" else Upper(s[..|s| - 1]) + [UpperChar(s[|s| - 1])]
  }

  function Digits(s: string): (r: string)
    ensures AllDigits(s) ==> r == s
    ensures AllDigits(r)
  {
    if s == "" then "" else Digits(s[..|s| - 1]) + if IsDigit(s[|s| - 1]) then [s[|s| - 1]] else []
  }

  function BeforeDot(s: string): string
  {
    if s == "" || s[0] == '.' then "" else [s[0]] + BeforeDot(s[1..])
  }

  function Padded(s: string): (r: string)
    ensures |s| >= 6 ==> r == s
    decreases 6 - |s|
  {
    if |s| >= 6 then s else Padded("0" + s)
  }

  /** The six-digit base code of a code with or without market prefix or suffix. */
  function BaseSymbol(code: string): string
  {
    if code == "" then ""
    else
      var u := Upper(code);
      var v := if ("SZ" <= u || "SH" <= u) && |u| >= 8 then u[2..] else u;
      var w := if '.' in v && BeforeDot(v) != "" && AllDigits(BeforeDot(v)) then BeforeDot(v) else v;
      if Digits(w) != "" then Padded(Digits(w)) else w
  }

  /** A base code is its own base code. */
  lemma BaseSymbolFixed(s: string)
    requires SixDigits(s)
    ensures BaseSymbol(s) == s
  {
    forall i | 0 <= i < |s| ensures UpperChar(s[i]) == s[i] {
      assert s[i] in s;
    }
    assert Upper(s) == s;
    assert '.' !in s && s[0] in s;
  }

  // ----- candidates -----

  function CandidateOf(row: Raw): Candidate
  {
    var symbol := BaseSymbol(OrElse(row.symbol, row.code));
    Candidate(symbol, OrElse(row.name, symbol))
  }

  predicate CandidateLess(a: Candidate, b: Candidate) { Sorting.Less(a.symbol, b.symbol) }

  function Candidates(rows: seq<Raw>): (r: seq<Candidate>)
    ensures |r| == |rows| && forall i :: 0 <= i < |rows| ==> r[i] == CandidateOf(rows[i])
  {
    if rows == [] then [] else Candidates(rows[..|rows| - 1]) + [CandidateOf(rows[|rows| - 1])]
  }

  predicate DistinctSymbols(cs: seq<Candidate>)
  {
    forall i, j :: 0 <= i < j < |cs| ==> cs[i].symbol != cs[j].symbol
  }

  predicate AllValid(cs: seq<Candidate>) { forall c :: c in cs ==> SixDigits(c.symbol) }

  /** The candidates in canonical form, if every row is valid and no symbol comes twice. */
  function Normalized(rows: seq<Raw>): Option<seq<Candidate>>
  {
    var cs := Candidates(rows);
    if AllValid(cs) && DistinctSymbols(cs) then Some(Sorting.Sorted(cs, CandidateLess)) else None
  }

  /** Sorted by symbol, symbols valid and distinct, names not empty. */
  predicate Canonical(cs: seq<Candidate>)
  {
    Sorting.Ordered(cs, CandidateLess) && AllValid(cs) && DistinctSymbols(cs) && forall c :: c in cs ==> c.name != ""
  }

  function AsRow(c: Candidate): Raw { Raw(c.symbol, "", c.name) }

  function AsRows(cs: seq<Candidate>): (r: seq<Raw>)
    ensures |r| == |cs| && forall i :: 0 <= i < |cs| ==> r[i] == AsRow(cs[i])
  {
    if cs == [] then [] else AsRows(cs[..|cs| - 1]) + [AsRow(cs[|cs| - 1])]
  }

  lemma CandidateOrder()
    ensures Sorting.Orders(CandidateLess)
  {
    forall a: Candidate, b: Candidate ensures !(CandidateLess(a, b) && CandidateLess(b, a)) {
      Sorting.LessOrder(a.symbol, b.symbol, a.symbol);
    }
    forall a: Candidate, b: Candidate, c: Candidate
      ensures CandidateLess(a, c) ==> CandidateLess(a, b) || CandidateLess(b, c)
    {
      Sorting.LessOrder(a.symbol, b.symbol, c.symbol);
    }
  }

  lemma {:induction false} InsertKeepsDistinct(s: seq<Candidate>, c: Candidate)
    requires DistinctSymbols(s) && forall x :: x in s ==> x.symbol != c.symbol
    ensures DistinctSymbols(Sorting.Insert(s, c, CandidateLess))
  {
    if s != [] && !CandidateLess(c, s[0]) {
      InsertKeepsDistinct(s[1..], c);
      Sorting.InsertIn(s[1..], c, CandidateLess);
      var r := Sorting.Insert(s[1..], c, CandidateLess);
      forall j | 0 <= j < |r| ensures r[j].symbol != s[0].symbol {
        assert r[j] in r;
        if r[j] != c {
          var i :| 0 <= i < |s[1..]| && s[1..][i] == r[j];
          assert s[i + 1] == r[j];
        }
      }
    }
  }

  lemma {:induction false} SortedDistinct(cs: seq<Candidate>)
    requires DistinctSymbols(cs)
    ensures DistinctSymbols(Sorting.Sorted(cs, CandidateLess))
  {
    if cs != [] {
      var n := |cs| - 1;
      SortedDistinct(cs[..n]);
      Sorting.SortedPermutes(cs[..n], CandidateLess);
      forall x | x in cs[..n] ensures x.symbol != cs[n].symbol {
        var i :| 0 <= i < n && cs[..n][i] == x;
      }
      InsertKeepsDistinct(Sorting.Sorted(cs[..n], CandidateLess), cs[n]);
    }
  }

  /** Normalizing yields the canonical form of the rows, one candidate for each. */
  lemma NormalizedIs(rows: seq<Raw>)
    ensures Normalized(rows).Some? ==> Canonical(Normalized(rows).value)
    ensures Normalized(rows).Some? ==> multiset(Normalized(rows).value) == multiset(Candidates(rows))
  {
    var cs := Candidates(rows);
    if AllValid(cs) && DistinctSymbols(cs) {
      CandidateOrder();
      Sorting.SortedOrdered(cs, CandidateLess);
      Sorting.SortedPermutes(cs, CandidateLess);
      SortedDistinct(cs);
      forall c | c in cs ensures c.name != "" {
        assert SixDigits(c.symbol);
      }
    }
  }

  /** A list is its own canonical form exactly when it is canonical. */
  lemma CanonicalFixed(cs: seq<Candidate>)
    ensures Normalized(AsRows(cs)) == Some(cs) <==> Canonical(cs)
  {
    var rows := AsRows(cs);
    NormalizedIs(rows);
    if Canonical(cs) {
      forall i | 0 <= i < |cs| ensures Candidates(rows)[i] == cs[i] {
        assert cs[i] in cs;
        BaseSymbolFixed(cs[i].symbol);
      }
      assert Candidates(rows) == cs;
      Sorting.SortedFixed(cs, CandidateLess);
    }
  }

  function Symbols(cs: seq<Candidate>): set<string> { set c | c in cs :: c.symbol }

  /** The first thing that is wrong with a list of candidates. */
  function ProblemIn(cs: seq<Candidate>): Option<Problem>
  {
    if cs == [] then None
    else
      var front, last := cs[..|cs| - 1], cs[|cs| - 1];
      if ProblemIn(front).Some? then ProblemIn(front)
      else if !SixDigits(last.symbol) then Some(BadRow)
      else if last.symbol in Symbols(front) then Some(DuplicateSymbol)
      else None
  }

  lemma {:induction false} ProblemIs(cs: seq<Candidate>)
    ensures ProblemIn(cs).None? <==> AllValid(cs) && DistinctSymbols(cs)
  {
    if cs != [] {
      var n := |cs| - 1;
      ProblemIs(cs[..n]);
      assert cs == cs[..n] + [cs[n]];
      assert forall i :: 0 <= i < n ==> cs[i] in cs[..n];
    }
  }

  lemma {:induction false} ProblemStays(cs: seq<Candidate>, n: nat)
    requires n <= |cs| && ProblemIn(cs[..n]).Some?
    ensures ProblemIn(cs) == ProblemIn(cs[..n])
  {
    if n == |cs| {
      assert cs[..n] == cs;
    } else {
      assert cs[..|cs| - 1][..n] == cs[..n];
      ProblemStays(cs[..|cs| - 1], n);
    }
  }

  lemma NextProblem(front: seq<Candidate>, c: Candidate)
    requires ProblemIn(front).None?
    ensures ProblemIn(front + [c]) == if !SixDigits(c.symbol) then Some(BadRow)
                                      else if c.symbol in Symbols(front) then Some(DuplicateSymbol) else None
  {
    hide SixDigits, Symbols;
    assert (front + [c])[..|front|] == front;
  }

  lemma NextSymbol(front: seq<Candidate>, c: Candidate)
    ensures Symbols(front + [c]) == Symbols(front) + {c.symbol}
  {
    assert c in front + [c];
    assert forall d :: d in front + [c] <==> d in front || d == c;
  }

  method NormalizeUniverseCandidates(rows: seq<Raw>) returns (r: Option<seq<Candidate>>, problem: Option<Problem>)
    ensures r == Normalized(rows) && problem == ProblemIn(Candidates(rows))
    ensures r.None? <==> problem.Some?
  {
    hide CandidateOf, ProblemIn, SixDigits, Symbols, AllValid, DistinctSymbols;
    ghost var all := Candidates(rows);
    ProblemIs(all);
    NoProblem();
    var candidates: seq<Candidate> := [];
    var seen: set<string> := {};
    for i := 0 to |rows|
      invariant candidates == all[..i] && ProblemIn(candidates).None? && seen == Symbols(candidates)
    {
      var c := CandidateOf(rows[i]);
      NextProblem(candidates, c);
      NextSymbol(candidates, c);
      assert all[..i + 1] == candidates + [c];
      if !SixDigits(c.symbol) {
        ProblemStays(all, i + 1);
        return None, Some(BadRow);
      }
      if c.symbol in seen {
        ProblemStays(all, i + 1);
        return None, Some(DuplicateSymbol);
      }
      seen := seen + {c.symbol};
      candidates := candidates + [c];
    }
    assert all[..|rows|] == all;
    r, problem := Some(Sorting.Sorted(candidates, CandidateLess)), None;
  }

  lemma NoProblem()
    ensures ProblemIn([]).None? && Symbols([]) == {}
  {
  }

  // ----- codes with a market -----

  lemma UpperDigits(s: string)
    requires AllDigits(s)
    ensures Upper(s) == s && Digits(s) == s
  {
    forall i | 0 <= i < |s| ensures UpperChar(s[i]) == s[i] {
      assert s[i] in s;
    }
  }

  lemma {:induction false} BeforeDotIs(s: string, rest: string)
    requires '.' !in s
    ensures BeforeDot(s + "." + rest) == s
  {
    var all := s + "." + rest;
    if s != "" {
      assert s[0] in s && all[1..] == s[1..] + "." + rest;
      BeforeDotIs(s[1..], rest);
    }
  }

  lemma UpperJoins(a: string, b: string)
    ensures Upper(a + b) == Upper(a) + Upper(b)
  {
  }

  lemma NoDot(s: string)
    requires AllDigits(s)
    ensures '.' !in s
  {
  }

  /** The base code of a six-digit code with a market before it, in capital or small letters, or behind it after a
      dot, is that code. */
  lemma BaseSymbolForms(s: string, market: string)
    requires SixDigits(s) && (Upper(market) == "SH" || Upper(market) == "SZ")
    ensures BaseSymbol(market + s) == s
    ensures BaseSymbol(s + "." + market) == s
  {
    MarketBefore(s, market);
    MarketBehind(s, market);
  }

  lemma MarketBefore(s: string, market: string)
    requires SixDigits(s) && (Upper(market) == "SH" || Upper(market) == "SZ")
    ensures BaseSymbol(market + s) == s
  {
    hide Upper, Digits, BeforeDot, AllDigits;
    UpperDigits(s);
    NoDot(s);
    var u := Upper(market + s);
    assert u == Upper(market) + s by {
      UpperJoins(market, s);
    }
    assert u[2..] == s && (u[..2] == "SH" || u[..2] == "SZ");
  }

  lemma MarketBehind(s: string, market: string)
    requires SixDigits(s)
    ensures BaseSymbol(s + "." + market) == s
  {
    hide Upper, Digits, BeforeDot;
    UpperDigits(s);
    NoDot(s);
    UpperJoins(s, "." + market);
    assert s + "." + market == s + ("." + market);
    var u := Upper(s + "." + market);
    assert u == s + "." + Upper(market) by {
      UpperJoins(".", market);
      assert UpperChar('.') == '.' && Upper(".") == ".";
    }
    BeforeDotIs(s, Upper(market));
    assert u[6] == '.' && u[0] == s[0] && s[0] in s;
    assert !("SZ" <= u) && !("SH" <= u);
  }
}
