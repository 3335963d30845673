/** Decoding the signals of the models, and the counting over one partition. */
module Counting {
  import Universe

  // ----- decoding -----

  datatype Direction = Buy | Sell

  datatype Decoded = Valid(direction: Direction, occurrence: nat, entrypoint: nat,
      reencoded: int) | Invalid(direction: Direction)

  function Abs(x: int): nat { if x < 0 then -x else x }

  function Encode(direction: Direction, model: nat, occurrence: nat, entrypoint: nat): int
  {
    var magnitude := model * 1000 + occurrence * 100 + entrypoint;
    if direction == Buy then magnitude else -magnitude
  }

  function DecodeSignal(raw: int, model: nat): Decoded
  {
    var occurrence := (Abs(raw) - model * 1000) / 100;
    var entrypoint := Abs(raw) % 100;
    var direction := if raw > 0 then Buy else Sell;
    if raw != 0 && 1 <= occurrence <= 99 && 1 <= entrypoint <= 9
        && model * 1000 + occurrence * 100 + entrypoint == Abs(raw)
    then Valid(direction, occurrence, entrypoint,
               if raw < 0 then -(model * 1000 + occurrence * 100 + entrypoint)
                   else model * 1000 + occurrence * 100 + entrypoint)
    else Invalid(direction)
  }

  /** Decoding gives back what was encoded. */
  lemma DecodeEncode(direction: Direction, model: nat, occurrence: nat, entrypoint: nat)
    requires 1 <= occurrence <= 99 && 1 <= entrypoint <= 9
    ensures var raw := Encode(direction, model, occurrence, entrypoint);
            DecodeSignal(raw, model) == Valid(direction, occurrence, entrypoint, raw)
  {
    Hundreds(occurrence, entrypoint);
    Hundreds(model * 10 + occurrence, entrypoint);
  }

  lemma Hundreds(a: nat, b: nat)
    requires b < 100
    ensures (a * 100 + b) / 100 == a && (a * 100 + b) % 100 == b
  {
  }

  /** A signal is valid under a model exactly when it encodes something under it, and re-encodes to itself. */
  lemma EncodeDecode(raw: int, model: nat)
    ensures DecodeSignal(raw, model).Valid? <==>
            exists d, o: nat, e: nat :: 1 <= o <= 99 && 1 <= e <= 9 && Encode(d, model, o, e) == raw
    ensures var s := DecodeSignal(raw, model);
            s.Valid? ==> s.reencoded == raw && Encode(s.direction, model, s.occurrence, s.entrypoint) == raw
                         && 1 <= s.occurrence <= 99 && 1 <= s.entrypoint <= 9
  {
    var s := DecodeSignal(raw, model);
    if s.Valid? {
      assert Encode(s.direction, model, s.occurrence, s.entrypoint) == raw;
    }
    if d, o: nat, e: nat :| 1 <= o <= 99 && 1 <= e <= 9 && Encode(d, model, o, e) == raw {
      DecodeEncode(d, model, o, e);
    }
  }

  /** A raw value does not tell its model: valid under one model, it is valid under another exactly when the
      occurrence, shifted by ten per model, is still in range. */
  lemma OtherModels(raw: int, model: nat, other: nat)
    requires DecodeSignal(raw, model).Valid?
    ensures DecodeSignal(raw, other).Valid? <==> 1 <= DecodeSignal(raw, model).occurrence + 10 * (model - other) <= 99
  {
    var s := DecodeSignal(raw, model);
    var shifted := s.occurrence + 10 * (model - other);
    assert Abs(raw) == other * 1000 + shifted * 100 + s.entrypoint;
    assert (Abs(raw) - other * 1000) / 100 == shifted;
  }

  /** Such a value: 1101 is the eleventh occurrence of model 0 and the first of model 1. */
  lemma OneValueTwoModels()
    ensures DecodeSignal(1101, 0) == Valid(Buy, 11, 1, 1101)
    ensures DecodeSignal(1101, 1) == Valid(Buy, 1, 1, 1101)
  {
    DecodeEncode(Buy, 0, 11, 1);
    DecodeEncode(Buy, 1, 1, 1);
  }

  // ----- one instrument -----

  const MODELS: nat := 18

  type Instrument = Universe.Candidate

  /** What the structural evidence of model 2 says at the last bar; a blank trigger is none. */
  datatype Structure = Structure(code: int, trigger: string)

  /** What reading and evaluating an instrument gives: an error, or the last value of each model, the structural
      evidence, and how it was calculated. */
  datatype Evaluation = Failed | Evaluated(latest: seq<int>, shape: Structure, mode: string)

  datatype Condition = Triggered(trigger: string) | StructureUnknown | AtEntrypoint(code: nat) | Undecoded

  datatype Status = Confirmed | Unknown | DecoderUnknown

  /** The evidence beside the re-encoding: the structure found, and whether it is confirmed. */
  datatype Evidence = Evidence(structure: Structure, confirmed: bool)

  datatype Membership = Membership(symbol: string, model: nat, raw: int, decoded: Decoded,
                                   condition: Condition, status: Status, evidence: seq<Evidence>)

  datatype Snapshot = Snapshot(symbol: string, models: set<nat>, distinct: nat, events: nat)

  /** Entrypoint 3 of model 2 is the one that needs a structure. */
  predicate NeedsStructure(model: nat, d: Decoded) { model == 2 && d.Valid? && d.entrypoint == 3 }

  function ConditionOf(model: nat, d: Decoded, shape: Structure): Condition
  {
    if NeedsStructure(model, d) then (if shape.trigger != "" then Triggered(shape.trigger) else StructureUnknown)
    else if d.Valid? then AtEntrypoint(d.entrypoint) else Undecoded
  }

  function StatusOf(model: nat, d: Decoded, shape: Structure): Status
  {
    if NeedsStructure(model, d) then (if shape.trigger != "" then Confirmed else Unknown)
    else if d.Valid? then Confirmed else DecoderUnknown
  }

  function EvidenceOf(model: nat, d: Decoded, shape: Structure): seq<Evidence>
  {
    if NeedsStructure(model, d) then [Evidence(shape, shape.code != 0 && shape.trigger != "")] else []
  }

  function MembershipOf(symbol: string, model: nat, raw: int, shape: Structure): Membership
  {
    var d := DecodeSignal(raw, model);
    Membership(symbol, model, raw, d,
               ConditionOf(model, d, shape), StatusOf(model, d, shape), EvidenceOf(model, d, shape))
  }

  /** The memberships of the first n models. */
  function Fired(symbol: string, latest: seq<int>, shape: Structure, n: nat): seq<Membership>
    requires n <= |latest|
  {
    if n == 0 then []
    else Fired(symbol, latest, shape, n - 1) +
         if latest[n - 1] == 0 then [] else [MembershipOf(symbol, n - 1, latest[n - 1], shape)]
  }

  function Models(ms: seq<Membership>): set<nat> { set m | m in ms :: m.model }

  lemma NoModels()
    ensures Models([]) == {}
  {
  }

  lemma ModelsAdd(ms: seq<Membership>, last: Membership)
    ensures Models(ms + [last]) == Models(ms) + {last.model}
  {
    assert forall m :: m in ms + [last] <==> m in ms || m == last;
    assert last in ms + [last];
  }

  /** An instrument is in a model once at most: the models it fired in are as many as its memberships. */
  lemma {:induction false} FiredDistinct(symbol: string, latest: seq<int>, shape: Structure, n: nat)
    requires n <= |latest|
    ensures |Models(Fired(symbol, latest, shape, n))| == |Fired(symbol, latest, shape, n)|
    ensures forall m: nat :: m in Models(Fired(symbol, latest, shape, n)) <==> m < n && latest[m] != 0
  {
    hide MembershipOf, Models;
    if n == 0 {
      NoModels();
    } else {
      FiredDistinct(symbol, latest, shape, n - 1);
      var front := Fired(symbol, latest, shape, n - 1);
      if latest[n - 1] == 0 {
        assert Fired(symbol, latest, shape, n) == front;
      } else {
        ModelOf(symbol, n - 1, latest[n - 1], shape);
        ModelsAdd(front, MembershipOf(symbol, n - 1, latest[n - 1], shape));
      }
    }
  }

  lemma ModelOf(symbol: string, model: nat, raw: int, shape: Structure)
    ensures MembershipOf(symbol, model, raw, shape).model == model
  {
  }

  method LatestMemberships(symbol: string, latest: seq<int>, shape: Structure) returns (memberships: seq<Membership>)
    ensures memberships == Fired(symbol, latest, shape, |latest|)
  {
    memberships := [];
    for model := 0 to |latest|
      invariant memberships == Fired(symbol, latest, shape, model)
    {
      var raw := latest[model];
      if raw == 0 {
        continue;
      }
      var decoded := DecodeSignal(raw, model);
      var structured := model == 2 && decoded.Valid? && decoded.entrypoint == 3;
      var condition, status;
      if structured && shape.trigger != "" {
        condition, status := Triggered(shape.trigger), Confirmed;
      } else if structured {
        condition, status := StructureUnknown, Unknown;
      } else {
        status := if decoded.Valid? then Confirmed else DecoderUnknown;
        condition := if decoded.Valid? then AtEntrypoint(decoded.entrypoint) else Undecoded;
      }
      var evidence := [];
      if structured {
        evidence := [Evidence(shape, shape.code != 0 && shape.trigger != "")];
      }
      memberships := memberships + [Membership(symbol, model, raw, decoded, condition, status, evidence)];
    }
  }

  /** A membership is confirmed exactly when its signal decodes and, where a structure is needed, one was found;
      its evidence says so too exactly when the structure also has a code. */
  lemma {:induction false} ConfirmedWhen(symbol: string, latest: seq<int>, shape: Structure, n: nat, m: Membership)
    requires n <= |latest| && m in Fired(symbol, latest, shape, n)
    ensures m.symbol == symbol && m.model < n && m.raw == latest[m.model] && m.raw != 0
    ensures m.decoded == DecodeSignal(m.raw, m.model)
    ensures var third := m.decoded.Valid? && m.model == 2 && m.decoded.entrypoint == 3;
            && (forall code :: m.condition == AtEntrypoint(code) <==>
                  m.decoded.Valid? && m.decoded.entrypoint == code && !third)
            && (forall text :: m.condition == Triggered(text) <==> third && shape.trigger == text && text != "")
            && (m.condition == StructureUnknown <==> third && shape.trigger == "")
            && (third <==> NeedsStructure(m.model, m.decoded))
    ensures m.evidence != [] ==> |m.evidence| == 1 && m.evidence[0].structure == shape
    ensures m.status == Confirmed <==> m.decoded.Valid? && (NeedsStructure(m.model, m.decoded) ==> shape.trigger != "")
    ensures m.status == DecoderUnknown <==> !m.decoded.Valid?
    ensures m.condition == Undecoded <==> !m.decoded.Valid?
    ensures m.evidence != [] <==> NeedsStructure(m.model, m.decoded)
    ensures m.evidence != [] ==> (m.evidence[0].confirmed <==> m.status == Confirmed && shape.code != 0)
  {
    hide DecodeSignal;
    if m in Fired(symbol, latest, shape, n - 1) {
      ConfirmedWhen(symbol, latest, shape, n - 1, m);
    }
  }

  // ----- the whole partition -----

  datatype Failure = HashMismatch | EmptyUniverse | InstrumentErrors(count: nat) | NothingEvaluated | MixedModes

  datatype Outcome = Computed(memberships: seq<Membership>, snapshots: seq<Snapshot>, hits: seq<nat>, evaluated: nat)
                   | Rejected(failure: Failure)

  /** The instrument can be evaluated. */
  predicate Good(instrument: Instrument, e: Evaluation)
  {
    instrument.symbol != "" && e.Evaluated? && |e.latest| == MODELS
  }

  predicate AllGood(instruments: seq<Instrument>, es: seq<Evaluation>)
    requires |es| == |instruments|
  {
    forall i :: 0 <= i < |es| ==> Good(instruments[i], es[i])
  }

  function SnapshotOf(symbol: string, ms: seq<Membership>): Snapshot
  {
    Snapshot(symbol, Models(ms), |Models(ms)|, |ms|)
  }

  function AllFired(instruments: seq<Instrument>, es: seq<Evaluation>): seq<Membership>
    requires |es| == |instruments|
  {
    if es == [] then []
    else
      var n := |es| - 1;
      AllFired(instruments[..n], es[..n]) +
      if Good(instruments[n], es[n]) then Fired(instruments[n].symbol, es[n].latest, es[n].shape, MODELS) else []
  }

  function AllSnapshots(instruments: seq<Instrument>, es: seq<Evaluation>): seq<Snapshot>
    requires |es| == |instruments|
  {
    if es == [] then []
    else
      var n := |es| - 1;
      AllSnapshots(instruments[..n], es[..n]) +
      if Good(instruments[n], es[n])
      then [SnapshotOf(instruments[n].symbol, Fired(instruments[n].symbol, es[n].latest, es[n].shape, MODELS))] else []
  }

  function Bad(instruments: seq<Instrument>, es: seq<Evaluation>): nat
    requires |es| == |instruments|
  {
    if es == [] then 0
    else
      var n := |es| - 1;
      Bad(instruments[..n], es[..n]) + if Good(instruments[n], es[n]) then 0 else 1
  }

  function ModesOf(instruments: seq<Instrument>, es: seq<Evaluation>): set<string>
    requires |es| == |instruments|
  {
    if es == [] then {}
    else
      var n := |es| - 1;
      ModesOf(instruments[..n], es[..n]) + if Good(instruments[n], es[n]) then {es[n].mode} else {}
  }

  function HitsOf(ms: seq<Membership>, model: nat): nat
  {
    if ms == [] then 0 else HitsOf(ms[..|ms| - 1], model) + if ms[|ms| - 1].model == model then 1 else 0
  }

  /** One more membership raises one counter. */
  method CountHits(hits: seq<nat>, ms: seq<Membership>, ghost before: seq<Membership>) returns (r: seq<nat>)
    requires |hits| == MODELS && (forall m: nat :: m < MODELS ==> hits[m] == HitsOf(before, m))
    requires forall m :: m in ms ==> m.model < MODELS
    ensures |r| == MODELS && forall m: nat :: m < MODELS ==> r[m] == HitsOf(before + ms, m)
  {
    r := hits;
    assert before + ms[..0] == before;
    for i := 0 to |ms|
      invariant |r| == MODELS && forall m: nat :: m < MODELS ==> r[m] == HitsOf(before + ms[..i], m)
    {
      assert (before + ms[..i + 1])[..|before| + i] == before + ms[..i];
      assert ms[i] in ms;
      r := r[ms[i].model := r[ms[i].model] + 1];
    }
    assert before + ms[..|ms|] == before + ms;
  }

  /** Evaluate every instrument of a frozen universe. */
  method CalculatePartition(instruments: seq<Instrument>, frozen: seq<Instrument>,
      es: seq<Evaluation>) returns (r: Outcome)
    requires |es| == |instruments|
    ensures r.Computed? <==>
              instruments == frozen && instruments != [] && AllGood(instruments, es) && |ModesOf(instruments, es)| == 1
    ensures r.Computed? ==>
              && r.memberships == AllFired(instruments, es)
              && r.snapshots == AllSnapshots(instruments, es)
              && |r.hits| == MODELS && (forall m: nat :: m < MODELS ==> r.hits[m] == HitsOf(r.memberships, m))
              && r.evaluated == |instruments| == |r.snapshots|
    ensures r.Rejected? ==> r.failure != NothingEvaluated
  {
    if instruments != frozen {
      return Rejected(HashMismatch);
    }
    if instruments == [] {
      return Rejected(EmptyUniverse);
    }
    var memberships, snapshots, errors := [], [], 0;
    var hits: seq<nat> := seq(MODELS, _ => 0);
    var modes: set<string> := {};
    for i := 0 to |instruments|
      invariant memberships == AllFired(instruments[..i], es[..i])
      invariant snapshots == AllSnapshots(instruments[..i], es[..i])
      invariant errors == Bad(instruments[..i], es[..i])
      invariant modes == ModesOf(instruments[..i], es[..i])
      invariant |hits| == MODELS && forall m: nat :: m < MODELS ==> hits[m] == HitsOf(memberships, m)
    {
      var instrument, e := instruments[i], es[i];
      assert instruments[..i + 1][..i] == instruments[..i] && es[..i + 1][..i] == es[..i];
      if instrument.symbol == "" || !e.Evaluated? || |e.latest| != MODELS {
        errors := errors + 1;
      } else {
        modes := modes + {e.mode};
        var fired := LatestMemberships(instrument.symbol, e.latest, e.shape);
        FiredDistinct(instrument.symbol, e.latest, e.shape, MODELS);
        forall m | m in fired ensures m.model < MODELS {
          assert m.model in Models(fired);
        }
        hits := CountHits(hits, fired, memberships);
        memberships := memberships + fired;
        snapshots := snapshots + [SnapshotOf(instrument.symbol, fired)];
      }
    }
    assert instruments[..|instruments|] == instruments && es[..|es|] == es;
    BadIs(instruments, es);
    if errors > 0 {
      return Rejected(InstrumentErrors(errors));
    }
    if |snapshots| == 0 {
      return Rejected(NothingEvaluated);
    }
    if |modes| != 1 {
      return Rejected(MixedModes);
    }
    r := Computed(memberships, snapshots, hits, |snapshots|);
  }

  /** No instrument failed exactly when there is one snapshot for each. */
  lemma {:induction false} BadIs(instruments: seq<Instrument>, es: seq<Evaluation>)
    requires |es| == |instruments|
    ensures Bad(instruments, es) == 0 <==> AllGood(instruments, es)
    ensures |AllSnapshots(instruments, es)| + Bad(instruments, es) == |instruments|
  {
    if es != [] {
      var n := |es| - 1;
      BadIs(instruments[..n], es[..n]);
      assert AllGood(instruments, es) <==> AllGood(instruments[..n], es[..n]) && Good(instruments[n], es[n]);
    }
  }

  // ----- conservation -----

  function SumHits(ms: seq<Membership>, n: nat): nat
  {
    if n == 0 then 0 else SumHits(ms, n - 1) + HitsOf(ms, n - 1)
  }

  function SumDistinct(snapshots: seq<Snapshot>): nat
  {
    if snapshots == [] then 0 else SumDistinct(snapshots[..|snapshots| - 1]) + snapshots[|snapshots| - 1].distinct
  }

  /** How many symbols were hit by k models. */
  function CountOf(snapshots: seq<Snapshot>, k: nat): nat
  {
    if snapshots == [] then 0
    else CountOf(snapshots[..|snapshots| - 1], k) + if snapshots[|snapshots| - 1].distinct == k then 1 else 0
  }

  /** The sum of k times the number of symbols hit by k models, over k below n. */
  function Weighted(snapshots: seq<Snapshot>, n: nat): nat
  {
    if n == 0 then 0 else Weighted(snapshots, n - 1) + (n - 1) * CountOf(snapshots, n - 1)
  }

  method ResonanceDistribution(snapshots: seq<Snapshot>) returns (counts: map<nat, nat>)
    ensures forall k: nat :: (if k in counts then counts[k] else 0) == CountOf(snapshots, k)
    ensures forall k :: k in counts ==> counts[k] > 0
  {
    counts := map[];
    for i := 0 to |snapshots|
      invariant forall k: nat :: (if k in counts then counts[k] else 0) == CountOf(snapshots[..i], k)
      invariant forall k :: k in counts ==> counts[k] > 0
    {
      assert snapshots[..i + 1][..i] == snapshots[..i];
      var k := snapshots[i].distinct;
      counts := counts[k := (if k in counts then counts[k] else 0) + 1];
    }
    assert snapshots[..|snapshots|] == snapshots;
  }

  lemma {:induction false} SumHitsStep(ms: seq<Membership>, last: Membership, n: nat)
    ensures SumHits(ms + [last], n) == SumHits(ms, n) + if last.model < n then 1 else 0
  {
    if n > 0 {
      SumHitsStep(ms, last, n - 1);
      assert (ms + [last])[..|ms|] == ms;
    }
  }

  lemma {:induction false} SumHitsIs(ms: seq<Membership>, n: nat)
    requires forall m :: m in ms ==> m.model < n
    ensures SumHits(ms, n) == |ms|
  {
    if ms == [] {
      NoHits(n);
    } else {
      var front, last := ms[..|ms| - 1], ms[|ms| - 1];
      SumHitsIs(front, n);
      SumHitsStep(front, last, n);
      assert ms == front + [last];
    }
  }

  lemma {:induction false} NoHits(n: nat)
    ensures SumHits([], n) == 0
  {
    if n > 0 {
      NoHits(n - 1);
    }
  }

  lemma {:induction false} WeightedStep(snapshots: seq<Snapshot>, last: Snapshot, n: nat)
    ensures Weighted(snapshots + [last], n) == Weighted(snapshots, n) + if last.distinct < n then last.distinct else 0
  {
    if n > 0 {
      WeightedStep(snapshots, last, n - 1);
      assert (snapshots + [last])[..|snapshots|] == snapshots;
      var c := CountOf(snapshots, n - 1);
      assert last.distinct == n - 1 ==> (n - 1) * (c + 1) == (n - 1) * c + (n - 1);
    }
  }

  lemma {:induction false} NoWeight(n: nat)
    ensures Weighted([], n) == 0
  {
    if n > 0 {
      NoWeight(n - 1);
    }
  }

  lemma {:induction false} WeightedIs(snapshots: seq<Snapshot>, n: nat)
    requires forall s :: s in snapshots ==> s.distinct < n
    ensures Weighted(snapshots, n) == SumDistinct(snapshots)
  {
    if snapshots == [] {
      NoWeight(n);
    } else {
      var front, last := snapshots[..|snapshots| - 1], snapshots[|snapshots| - 1];
      WeightedIs(front, n);
      WeightedStep(front, last, n);
      assert snapshots == front + [last];
    }
  }

  /** The snapshots and memberships of a partition account for each other. */
  lemma {:induction false} SnapshotsAccount(instruments: seq<Instrument>, es: seq<Evaluation>)
    requires |es| == |instruments|
    ensures SumDistinct(AllSnapshots(instruments, es)) == |AllFired(instruments, es)|
    ensures forall m :: m in AllFired(instruments, es) ==> m.model < MODELS
    ensures forall s :: s in AllSnapshots(instruments, es) ==> s.distinct <= MODELS && s.distinct == s.events
  {
    if es != [] {
      var n := |es| - 1;
      SnapshotsAccount(instruments[..n], es[..n]);
      if Good(instruments[n], es[n]) {
        var fired := Fired(instruments[n].symbol, es[n].latest, es[n].shape, MODELS);
        FiredDistinct(instruments[n].symbol, es[n].latest, es[n].shape, MODELS);
        var front := AllSnapshots(instruments[..n], es[..n]);
        assert AllSnapshots(instruments, es)[..|front|] == front;
        forall m | m in fired ensures m.model < MODELS {
          assert m.model in Models(fired);
        }
        BoundedModels(Models(fired), MODELS);
      } else {
        assert AllSnapshots(instruments, es) == AllSnapshots(instruments[..n], es[..n]);
        assert AllFired(instruments, es) == AllFired(instruments[..n], es[..n]);
      }
    }
  }

  lemma {:induction false} BoundedModels(s: set<nat>, n: nat)
    requires forall m :: m in s ==> m < n
    ensures |s| <= n
  {
    if n > 0 {
      BoundedModels(s - {n - 1}, n - 1);
    } else {
      assert s == {};
    }
  }

  /** Nothing is counted twice or lost: over a partition the model hit counts, the memberships, the distinct model
      counts of the symbols and the weighted resonance distribution all add up to the same number. */
  lemma Conservation(instruments: seq<Instrument>, es: seq<Evaluation>)
    requires |es| == |instruments|
    ensures var ms, snapshots := AllFired(instruments, es), AllSnapshots(instruments, es);
            SumHits(ms, MODELS) == |ms| == SumDistinct(snapshots) == Weighted(snapshots, MODELS + 1)
  {
    SnapshotsAccount(instruments, es);
    SumHitsIs(AllFired(instruments, es), MODELS);
    WeightedIs(AllSnapshots(instruments, es), MODELS + 1);
  }

  function Signalling(instruments: seq<Instrument>, es: seq<Evaluation>, model: nat): nat
    requires |es| == |instruments| && model < MODELS
  {
    if es == [] then 0
    else
      var n := |es| - 1;
      Signalling(instruments[..n], es[..n], model) + if Good(instruments[n], es[n])
          && es[n].latest[model] != 0 then 1 else 0
  }

  lemma {:induction false} HitsAdd(a: seq<Membership>, b: seq<Membership>, model: nat)
    ensures HitsOf(a + b, model) == HitsOf(a, model) + HitsOf(b, model)
  {
    if b == [] {
      assert a + b == a;
    } else {
      HitsAdd(a, b[..|b| - 1], model);
      assert (a + b)[..|a + b| - 1] == a + b[..|b| - 1];
    }
  }

  lemma {:induction false} HitsOfFired(symbol: string, latest: seq<int>, shape: Structure, n: nat, model: nat)
    requires n <= |latest|
    ensures HitsOf(Fired(symbol, latest, shape, n), model) == if model < n && latest[model] != 0 then 1 else 0
  {
    hide MembershipOf, HitsOf;
    if n == 0 {
      NoHit(model);
    } else {
      HitsOfFired(symbol, latest, shape, n - 1, model);
      var front := Fired(symbol, latest, shape, n - 1);
      if latest[n - 1] == 0 {
        assert Fired(symbol, latest, shape, n) == front;
      } else {
        ModelOf(symbol, n - 1, latest[n - 1], shape);
        HitsLast(front, MembershipOf(symbol, n - 1, latest[n - 1], shape), model);
      }
    }
  }

  lemma NoHit(model: nat)
    ensures HitsOf([], model) == 0
  {
  }

  lemma HitsLast(ms: seq<Membership>, last: Membership, model: nat)
    ensures HitsOf(ms + [last], model) == HitsOf(ms, model) + if last.model == model then 1 else 0
  {
    assert (ms + [last])[..|ms|] == ms;
  }

  /** A model's hit count is the number of evaluated instruments whose last signal of that model is not zero. */
  lemma {:induction false} HitCount(instruments: seq<Instrument>, es: seq<Evaluation>, model: nat)
    requires |es| == |instruments| && model < MODELS
    ensures HitsOf(AllFired(instruments, es), model) == Signalling(instruments, es, model)
  {
    if es != [] {
      var n := |es| - 1;
      HitCount(instruments[..n], es[..n], model);
      if Good(instruments[n], es[n]) {
        HitsOfFired(instruments[n].symbol, es[n].latest, es[n].shape, MODELS, model);
        var fired := Fired(instruments[n].symbol, es[n].latest, es[n].shape, MODELS);
        HitsAdd(AllFired(instruments[..n], es[..n]), fired, model);
      } else {
        assert AllFired(instruments, es) == AllFired(instruments[..n], es[..n]);
      }
    }
  }

  /** A partition's snapshots: one for each instrument in order, with the models whose last signal is not zero. */
  lemma {:induction false} SnapshotsAre(instruments: seq<Instrument>, es: seq<Evaluation>)
    requires |es| == |instruments| && AllGood(instruments, es)
    ensures |AllSnapshots(instruments, es)| == |instruments|
    ensures forall i :: 0 <= i < |instruments| ==>
              var x := AllSnapshots(instruments, es)[i];
              && x.symbol == instruments[i].symbol && x.distinct == |x.models|
              && forall m: nat :: m in x.models <==> m < MODELS && es[i].latest[m] != 0
  {
    if es != [] {
      var n := |es| - 1;
      assert forall i :: 0 <= i < n ==> Good(instruments[..n][i], es[..n][i]);
      SnapshotsAre(instruments[..n], es[..n]);
      assert Good(instruments[n], es[n]);
      FiredDistinct(instruments[n].symbol, es[n].latest, es[n].shape, MODELS);
    }
  }
}
