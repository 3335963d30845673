/** Finalizations that are refused: when their partitions do not fit, or the day has moved on to another batch. The
    refusal is noted under the batch that was found, and a final batch met there completes the attempt all the same. */
module Refusals {
  import opened Wrappers
  import opened Documents
  import opened Batches
  import opened BatchProtocol
  import opened BatchInvariant
  import opened BatchTheorems
  import P = Protocol
  import PI = ProtocolInvariant

  // ----- why a claimed finalization is refused -----

  /** A claimed finalization that finds its batch reads the partitions it was planned with, so the checks for drifted
      partitions and a drifted order never stop it. The check for mismatching partitions stops it exactly when the
      process that executes it has other contract versions than the partitions, which its batch id does not tell. */
  lemma PlannedMaterialStays(s: State, steps: seq<Step>, p: P.Proc, body: string)
    requires Sound(s)
    requires var w := Run(s, steps).At(p); w.Busy? && w.stage.Joining? && w.job.claim.Some?
    ensures var t := Run(s, steps);
            var job, stock := t.At(p).job, t.At(p).stage.stock;
            && BothComplete(t.core, job.batch)
            && var etf := t.core.store.partitions[job.batch.etf.value];
            && !Drifted(t, job, stock, etf)
            && (Fits(job.batch, job.contract, stock, etf) <==> job.contract == stock.contract)
            && Do(t, ReadEtf(p, body)) ==
               t.Move(p, if job.contract == stock.contract then Paired(stock, etf)
                         else Refusing(job.batch, Partial(CONTRACT_MISMATCH, body)))
  {
    hide Sound, Evolved, DoFinals, DoRefusal, DoPublication, PI.Inv;
    EveryRun(s, steps);
    var t := Run(s, steps);
    WorkerIs(t, p);
    FinalIs(t, t.At(p).job.claim.value.id);
  }

  // ----- other processes -----

  /** The process a step is a step of, if any. */
  function MoverOf(step: Step): Option<P.Proc>
  {
    if step.Core? || step.StorePartial? || step.ExpireFinal? then None else Some(step.p)
  }

  predicate NotBy(p: P.Proc, steps: seq<Step>)
  {
    forall i :: 0 <= i < |steps| ==> MoverOf(steps[i]) != Some(p)
  }

  lemma CrashMoves(step: Step)
    requires step.Crash?
    ensures MoverOf(step) == Some(step.p)
  {
  }

  lemma StaysPut(s: State, step: Step, p: P.Proc)
    requires MoverOf(step) != Some(p)
    ensures Do(s, step).At(p) == s.At(p)
  {
    hide DoFinals, DoBatches, DoRefusal, DoPublication, Do, MoverOf, OfFinals, OfBatches, OfRefusal, OfPublication;
    StepIs(s, step);
    if step.Core? {
    } else if step.Crash? {
      CrashMoves(step);
    } else if OfFinals(step) {
      FinalsMove(s, step, p);
    } else if OfBatches(step) {
      BatchesMove(s, step, p);
    } else if OfRefusal(step) {
      RefusalMoves(s, step, p);
    } else {
      PublicationMoves(s, step, p);
    }
  }

  lemma FinalsMove(s: State, step: Step, p: P.Proc)
    requires OfFinals(step) && MoverOf(step) != Some(p)
    ensures DoFinals(s, step).At(p) == s.At(p)
  {
  }

  lemma BatchesMove(s: State, step: Step, p: P.Proc)
    requires OfBatches(step) && MoverOf(step) != Some(p)
    ensures DoBatches(s, step).At(p) == s.At(p)
  {
  }

  lemma RefusalMoves(s: State, step: Step, p: P.Proc)
    requires OfRefusal(step) && MoverOf(step) != Some(p)
    ensures DoRefusal(s, step).At(p) == s.At(p)
  {
  }

  lemma PublicationMoves(s: State, step: Step, p: P.Proc)
    requires OfPublication(step) && MoverOf(step) != Some(p)
    ensures DoPublication(s, step).At(p) == s.At(p)
  {
  }

  lemma {:induction false} OthersRun(s: State, steps: seq<Step>, p: P.Proc)
    requires NotBy(p, steps)
    ensures Run(s, steps).At(p) == s.At(p)
  {
    hide Do;
    if steps != [] {
      OthersRun(s, steps[..|steps| - 1], p);
      StaysPut(Run(s, steps[..|steps| - 1]), steps[|steps| - 1], p);
    }
  }

  // ----- what a refused process does -----

  predicate FinalIn(s: State, b: BatchId) { b in s.batches && s.batches[b].isFinal }

  lemma ReadRefusedIs(s: State, p: P.Proc)
    requires s.At(p).Busy? && s.At(p).stage.Refusing?
    ensures var Refusing(b, doc) := s.At(p).stage;
            Do(s, ReadRefused(p)) == s.Move(p, if FinalIn(s, b) then Broken else Noting(b, doc))
  {
    hide DoFinals, DoBatches, DoPublication;
  }

  lemma StoreRefusedIs(s: State, p: P.Proc)
    requires s.At(p).Busy?
    ensures Do(s, StoreRefused(p)) ==
            if s.At(p).stage.Noting? then
              var Noting(b, doc) := s.At(p).stage;
              s.(batches := UpsertedIn(s.batches, b, doc)).Move(p, Noted(b))
            else s
  {
    hide DoFinals, DoBatches, DoPublication;
  }

  lemma ReadBackIs(s: State, p: P.Proc)
    requires s.At(p).Busy?
    ensures Do(s, ReadBack(p)) ==
            if s.At(p).stage.Noted?
            then s.Move(p, if FinalIn(s, s.At(p).stage.batch) then Met(s.At(p).stage.batch) else Broken)
            else s
  {
    hide DoFinals, DoBatches, DoPublication;
  }

  lemma FinishIs(s: State, p: P.Proc, now: nat)
    requires s.At(p).Busy? && s.At(p).job.claim.Some?
    ensures var c := s.At(p).job.claim.value;
            Do(s, Finish(p, now)).batches == s.batches
            && Do(s, Finish(p, now)).finals ==
               if AnswerOf(s.At(p)).Some? && now <= s.core.clock
               then UpdatedUnder(s.finals, c.id, FinHeld(c, LeaseAfter(now)), AnswerOf(s.At(p)).value,
                                 x => ToEnded(x, Completed))
               else s.finals
  {
    hide DoBatches, DoRefusal, DoPublication, UpdatedUnder, Completable;
  }

  /** A refused attempt completes exactly when its batch was not final at the first look, but is final by the second,
      after the refusal was to be stored; and its claim and lease still hold, and its number is free under that
      batch. It is then recorded under that batch. Any steps of others may come in between. */
  lemma RefusedCompletes(s: State, p: P.Proc, before: seq<Step>, between: seq<Step>, after: seq<Step>, now: nat)
    requires Sound(s) && s.At(p).Busy? && s.At(p).stage.Refusing? && s.At(p).job.claim.Some?
    requires NotBy(p, before) && NotBy(p, between) && NotBy(p, after)
    ensures var b, c := s.At(p).stage.batch, s.At(p).job.claim.value;
            var stored := Run(Do(Run(Do(s, ReadRefused(p)), before), StoreRefused(p)), between);
            var last := Run(Do(stored, ReadBack(p)), after);
            var end := Do(last, Finish(p, now));
            && c.id in last.finals && c.id in end.finals
            && (last.finals[c.id].claim.status.Active() && end.finals[c.id].claim.status == Completed <==>
                  && !FinalIn(s, b) && FinalIn(stored, b) && now <= last.core.clock
                  && Completable(last.finals, c.id, FinHeld(c, LeaseAfter(now)), b))
            && (last.finals[c.id].claim.status.Active() && end.finals[c.id].claim.status == Completed ==>
                  end.finals[c.id].batch == b && HasFinal(end, b))
  {
    hide Sound, Do, Run, NumberFree, FinalIn, Evolved;
    var b, c := s.At(p).stage.batch, s.At(p).job.claim.value;
    var s1 := Do(s, ReadRefused(p));
    ReadRefusedIs(s, p);
    EveryStep(s, ReadRefused(p));
    var s2 := Run(s1, before);
    OthersRun(s1, before, p);
    EveryRun(s1, before);
    var s3 := Do(s2, StoreRefused(p));
    StoreRefusedIs(s2, p);
    EveryStep(s2, StoreRefused(p));
    var s4 := Run(s3, between);
    OthersRun(s3, between, p);
    EveryRun(s3, between);
    var s5 := Do(s4, ReadBack(p));
    ReadBackIs(s4, p);
    EveryStep(s4, ReadBack(p));
    var s6 := Run(s5, after);
    OthersRun(s5, after, p);
    EveryRun(s5, after);
    WorkerIs(s6, p);
    FinishIs(s6, p, now);
    if AnswerOf(s6.At(p)).Some? {
      assert HasFinal(s6, b);
    }
  }

  lemma FailIs(s: State, p: P.Proc)
    requires s.At(p).Busy? && s.At(p).stage.Broken? && s.At(p).job.claim.Some?
    ensures var c, t := s.At(p).job.claim.value, Do(s, Fail(p));
            && t.At(p) == Resting && t.batches == s.batches
            && t.finals == FinalUpdatedIf(s.finals, c.id, FinHeld(c, AnyLease), x => ToEnded(x, Failed))
  {
    hide DoBatches, DoRefusal, DoPublication, FinalUpdatedIf;
  }

  /** A refused process that is left alone. */
  ghost function LeftAlone(s: State, p: P.Proc): State
  {
    Do(Do(Do(Do(s, ReadRefused(p)), StoreRefused(p)), ReadBack(p)), Fail(p))
  }

  /** Left alone, it fails its attempt. The refusal becomes the batch document unless that is final already, and no
      other batch changes. */
  lemma RefusedFails(s: State, p: P.Proc)
    requires Sound(s) && s.At(p).Busy? && s.At(p).stage.Refusing? && s.At(p).job.claim.Some?
    ensures var c, t := s.At(p).job.claim.value, LeftAlone(s, p);
            && t.At(p) == Resting
            && t.batches == UpsertedIn(s.batches, s.At(p).stage.batch, s.At(p).stage.doc)
            && t.finals == FinalUpdatedIf(s.finals, c.id, FinHeld(c, AnyLease), x => ToEnded(x, Failed))
  {
    hide Sound, Do, FinalUpdatedIf;
    WorkerIs(s, p);
    ReadRefusedIs(s, p);
    var s1 := Do(s, ReadRefused(p));
    StoreRefusedIs(s1, p);
    var s2 := Do(s1, StoreRefused(p));
    ReadBackIs(s2, p);
    FailIs(Do(s2, ReadBack(p)), p);
  }

  /** So a finalization executed by a process of other contract versions fails when it is left alone, and a batch that
      is not final shows the mismatch. */
  lemma UpgradeFailsFinalization(s: State, steps: seq<Step>, p: P.Proc, body: string)
    requires Sound(s)
    requires var w := Run(s, steps).At(p);
             w.Busy? && w.stage.Joining? && w.job.claim.Some? && w.job.contract != w.stage.stock.contract
    ensures var t := Run(s, steps);
            var b, c := t.At(p).job.batch, t.At(p).job.claim.value;
            var u := LeftAlone(Do(t, ReadEtf(p, body)), p);
            && c.id in t.finals && c.id.batch == b && u.At(p) == Resting
            && u.batches == UpsertedIn(t.batches, b, Partial(CONTRACT_MISMATCH, body))
            && u.finals == FinalUpdatedIf(t.finals, c.id, FinHeld(c, AnyLease), x => ToEnded(x, Failed))
  {
    hide Sound, Evolved, Do, Run, FinalUpdatedIf, LeftAlone;
    PlannedMaterialStays(s, steps, p, body);
    EveryRun(s, steps);
    var t := Run(s, steps);
    WorkerIs(t, p);
    EveryStep(t, ReadEtf(p, body));
    RefusedFails(Do(t, ReadEtf(p, body)), p);
  }

  // ----- a final batch met at the last moment -----

  /** A direct finalization from its start to the stored batch. */
  function DirectSteps(q: P.Proc, b: BatchId, publisher: bool, contract: Contract, body: string, now: nat): seq<Step>
  {
    [Direct(q, b, publisher, contract), ReadStock(q), ReadEtf(q, body), ReadBatch(q, body), Renew(q, now), Write(q)]
  }

  predicate CanJoin(s: State, b: BatchId, contract: Contract)
  {
    && BothComplete(s.core, b) && !FinalIn(s, b)
    && Fits(b, contract, s.core.store.partitions[b.stock.value], s.core.store.partitions[b.etf.value])
  }

  function Joined(s: State, b: BatchId, publisher: bool, body: string): Batch
    requires BothComplete(s.core, b)
  {
    FinalBatch(b, s.core.store.partitions[b.stock.value], s.core.store.partitions[b.etf.value], publisher, body)
  }

  /** Left alone, it stores the final batch of the two partitions and changes nothing else. */
  lemma DirectRun(s: State, q: P.Proc, b: BatchId, publisher: bool, contract: Contract, body: string, now: nat)
    requires s.At(q).Resting? && CanJoin(s, b, contract) && now <= s.core.clock
    ensures var t := Run(s, DirectSteps(q, b, publisher, contract, body, now));
            && t.batches == s.batches[b := Joined(s, b, publisher, body)]
            && t.finals == s.finals && t.core == s.core
  {
    hide Do, Run, Fits;
    var steps := DirectSteps(q, b, publisher, contract, body, now);
    var stock, etf := s.core.store.partitions[b.stock.value], s.core.store.partitions[b.etf.value];
    DirectReads(s, q, b, publisher, contract, body);
    var s3 := Do(Do(Do(s, steps[0]), steps[1]), steps[2]);
    DirectWrites(s3, q, body, now);
    RunOfSix(s, steps);
  }

  lemma DirectReads(s: State, q: P.Proc, b: BatchId, publisher: bool, contract: Contract, body: string)
    requires s.At(q).Resting? && CanJoin(s, b, contract)
    ensures var t := Do(Do(Do(s, Direct(q, b, publisher, contract)), ReadStock(q)), ReadEtf(q, body));
            && t.batches == s.batches && t.finals == s.finals && t.core == s.core
            && t.At(q) == Busy(Job(None, b, publisher, contract),
                               Paired(s.core.store.partitions[b.stock.value], s.core.store.partitions[b.etf.value]))
            && !FinalIn(t, b)
  {
    hide DoRefusal, DoPublication;
  }

  lemma DirectWrites(s: State, q: P.Proc, body: string, now: nat)
    requires s.At(q).Busy? && s.At(q).stage.Paired? && s.At(q).job.claim.None? && !FinalIn(s, s.At(q).job.batch)
    requires now <= s.core.clock
    ensures var t := Do(Do(Do(s, ReadBatch(q, body)), Renew(q, now)), Write(q));
            var job, Paired(stock, etf) := s.At(q).job, s.At(q).stage;
            && t.batches == s.batches[job.batch := FinalBatch(job.batch, stock, etf, job.publisher, body)]
            && t.finals == s.finals && t.core == s.core
  {
    hide DoFinals, DoRefusal;
  }

  lemma RunOfSix(s: State, steps: seq<Step>)
    requires |steps| == 6
    ensures Run(s, steps) == Do(Do(Do(Do(Do(Do(s, steps[0]), steps[1]), steps[2]), steps[3]), steps[4]), steps[5])
  {
    hide Do, Run;
    NoSteps(s);
    forall k | 0 <= k < 6 ensures Run(s, steps[..k + 1]) == Do(Run(s, steps[..k]), steps[k]) {
      assert steps[..k] + [steps[k]] == steps[..k + 1];
      RunNext(s, steps[..k], steps[k]);
    }
    assert steps[..6] == steps && steps[..0] == [];
  }

  predicate CompletedUnder(s: State, id: FinId, b: BatchId)
  {
    id in s.finals && s.finals[id].claim.status == Completed && s.finals[id].batch == b
  }

  /** A process p that was refused for b, when another process q finalizes b right after p looked. */
  ghost function Overtaken(s: State, p: P.Proc, q: P.Proc, b: BatchId, publisher: bool, contract: Contract,
                           body: string, now: nat): State
  {
    var steps := DirectSteps(q, b, publisher, contract, body, now);
    Do(Do(Do(Run(Do(s, ReadRefused(p)), steps), StoreRefused(p)), ReadBack(p)), Finish(p, now))
  }

  /** Then the refused attempt completes, under the batch of the refusal. If q publishes, the publication of that batch
      is still pending. */
  lemma OvertakenCompletes(s: State, p: P.Proc, q: P.Proc, publisher: bool, contract: Contract, body: string, now: nat)
    requires Sound(s) && s.At(p).Busy? && s.At(p).stage.Refusing? && s.At(p).job.claim.Some?
    requires p != q && s.At(q).Resting? && CanJoin(s, s.At(p).stage.batch, contract) && now <= s.core.clock
    requires var c := s.At(p).job.claim.value;
             Completable(s.finals, c.id, FinHeld(c, LeaseAfter(now)), s.At(p).stage.batch)
    ensures var b, c := s.At(p).stage.batch, s.At(p).job.claim.value;
            var t := Overtaken(s, p, q, b, publisher, contract, body, now);
            && t.finals == UpdatedUnder(s.finals, c.id, FinHeld(c, LeaseAfter(now)), b, x => ToEnded(x, Completed))
            && CompletedUnder(t, c.id, b) && t.batches == s.batches[b := Joined(s, b, publisher, body)]
  {
    hide Sound, Do, Run, NumberFree, HitsFinal, Fits;
    var b, c := s.At(p).stage.batch, s.At(p).job.claim.value;
    var steps := DirectSteps(q, b, publisher, contract, body, now);
    ReadRefusedIs(s, p);
    var s1 := Do(s, ReadRefused(p));
    DirectRun(s1, q, b, publisher, contract, body, now);
    OthersRun(s1, steps, p);
    var s2 := Run(s1, steps);
    StoreRefusedIs(s2, p);
    var s3 := Do(s2, StoreRefused(p));
    ReadBackIs(s3, p);
    var s4 := Do(s3, ReadBack(p));
    FinishIs(s4, p, now);
    assert AnswerOf(s4.At(p)) == Some(b) && s4.finals == s.finals;
    assert Completable(s.finals, c.id, FinHeld(c, LeaseAfter(now)), b);
    assert c.id in s.finals by {
      WorkerIs(s, p);
    }
  }

  predicate Unpublished(s: State, b: BatchId)
  {
    HasFinal(s, b) && s.batches[b].publication.value.status == Pending
  }

  /** A publishing finalization executed after an upgrade, and overtaken so by a direct one of the old versions,
      completes while the publication of its batch is pending. */
  lemma UpgradeCompletesPending(s: State, p: P.Proc, q: P.Proc, refusal: string, body: string, now: nat)
    requires Sound(s) && p != q && s.At(q).Resting? && now <= s.core.clock
    requires var w := s.At(p);
             && w.Busy? && w.stage.Joining? && w.job.claim.Some? && w.job.publisher
             && w.job.contract != w.stage.stock.contract && !FinalIn(s, w.job.batch)
             && Completable(s.finals, w.job.claim.value.id, FinHeld(w.job.claim.value, LeaseAfter(now)), w.job.batch)
    ensures var b, c := s.At(p).job.batch, s.At(p).job.claim.value;
            var t := Overtaken(Do(s, ReadEtf(p, refusal)), p, q, b, true, s.At(p).stage.stock.contract, body, now);
            c.id.batch == b && CompletedUnder(t, c.id, b) && Unpublished(t, b)
  {
    hide Sound, Do, Run, NumberFree, HitsFinal, CanJoin, Overtaken, UpdatedUnder;
    var b, c := s.At(p).job.batch, s.At(p).job.claim.value;
    var contract := s.At(p).stage.stock.contract;
    var t := Do(s, ReadEtf(p, refusal));
    UpgradeRefused(s, p, refusal);
    OvertakenCompletes(t, p, q, true, contract, body, now);
    assert Joined(t, b, true, body).publication.value.status == Pending;
  }

  lemma UpgradeRefused(s: State, p: P.Proc, refusal: string)
    requires Sound(s)
    requires var w := s.At(p);
             && w.Busy? && w.stage.Joining? && w.job.claim.Some? && w.job.contract != w.stage.stock.contract
             && !FinalIn(s, w.job.batch)
    ensures var w, t := s.At(p), Do(s, ReadEtf(p, refusal));
            && Sound(t) && w.job.claim.value.id.batch == w.job.batch
            && t == s.Move(p, Refusing(w.job.batch, Partial(CONTRACT_MISMATCH, refusal)))
            && CanJoin(t, w.job.batch, w.stage.stock.contract) && BothComplete(t.core, w.job.batch)
  {
    hide Sound, Do, Run, Evolved;
    NoSteps(s);
    PlannedMaterialStays(s, [], p, refusal);
    EveryStep(s, ReadEtf(p, refusal));
    WorkerIs(s, p);
    FinalIs(s, s.At(p).job.claim.value.id);
  }

  /** A finalization that finds another batch and is overtaken so by a direct one of that batch completes under it,
      though the batch it was planned for is not final. Its number is then no longer in use there. */
  lemma DriftCompletesElsewhere(s: State, p: P.Proc, q: P.Proc, b: BatchId, refusal: string, publisher: bool,
                                contract: Contract, body: string, now: nat)
    requires Sound(s) && p != q && s.At(q).Resting? && now <= s.core.clock && CanJoin(s, b, contract)
    requires var w := s.At(p);
             && w.Busy? && w.stage.Opening? && w.job.claim.Some? && w.job.batch != b && !FinalIn(s, w.job.batch)
             && Completable(s.finals, w.job.claim.value.id, FinHeld(w.job.claim.value, LeaseAfter(now)), b)
             && NumberFree(s.finals, w.job.claim.value.id, w.job.batch)
    ensures var was, c := s.At(p).job.batch, s.At(p).job.claim.value;
            var t := Overtaken(Do(s, Drift(p, b, refusal)), p, q, b, publisher, contract, body, now);
            && c.id.batch == was && CompletedUnder(t, c.id, b)
            && !HasFinal(t, was) && !HasNumber(t.finals, was, c.id.no) && t.finals.Keys == s.finals.Keys
  {
    hide Sound, Do, Run, HitsFinal, Fits, Overtaken;
    var was, c := s.At(p).job.batch, s.At(p).job.claim.value;
    var t := Do(s, Drift(p, b, refusal));
    DriftIs(s, p, b, refusal);
    OvertakenCompletes(t, p, q, publisher, contract, body, now);
  }

  lemma DriftIs(s: State, p: P.Proc, b: BatchId, refusal: string)
    requires Sound(s) && s.At(p).Busy? && s.At(p).stage.Opening? && s.At(p).job.claim.Some? && b != s.At(p).job.batch
    ensures var t, c := Do(s, Drift(p, b, refusal)), s.At(p).job.claim.value;
            && Sound(t) && c.id.batch == s.At(p).job.batch && c.id in s.finals
            && t == s.Move(p, Refusing(b, Partial(GENERATION_DRIFT, refusal)))
  {
    hide Sound, DoFinals, DoBatches, DoPublication;
    EveryStep(s, Drift(p, b, refusal));
    WorkerIs(s, p);
  }
}
