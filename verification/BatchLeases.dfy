/** The claims on finalizations and publications and their leases: what may change them, and when. */
module BatchLeases {
  import opened Wrappers
  import opened Documents
  import opened Batches
  import opened BatchProtocol
  import opened BatchInvariant
  import opened BatchTheorems
  import opened Leases
  import P = Protocol
  import PI = ProtocolInvariant

  // ----- finalization attempts -----

  /** Process p claims the finalization under the owner and token it has. */
  predicate HoldsFinal(s: State, p: P.Proc, id: FinId, a: Attempt)
  {
    && s.At(p).Busy? && s.At(p).job.claim.Some?
    && var c := s.At(p).job.claim.value;
    && c.id == id && a.owner == Some(c.owner) && a.token == Some(c.token)
  }

  /** A claim is taken, renewed or ended. Each time it is given ten minutes. */
  predicate FinalAdvanced(s: State, step: Step, id: FinId, f: Finalization, g: Finalization)
  {
    var a := f.claim;
    match step
    case TakeFinal(_, _, owner, _, now, _, _) =>
      && a.status == Scheduled && LiveAt(a, now, s.core.clock)
      && g == f.(claim := a.(status := Running, owner := Some(owner), token := Some(Token(s.drawn)),
                             lease := Some(now + 600)))
    case Renew(p, now) =>
      && HoldsFinal(s, p, id, a) && a.status == Running && LiveAt(a, now, s.core.clock)
      && g == f.(claim := a.(lease := Some(now + 600)))
    case Finish(p, now) =>
      && HoldsFinal(s, p, id, a) && a.status == Running && LiveAt(a, now, s.core.clock)
      && AnswerOf(s.At(p)) == Some(g.batch)
      && g == Finalization(g.batch, f.planned, a.(status := Completed, lease := None))
    case Fail(p) =>
      HoldsFinal(s, p, id, a) && a.status == Running && g == f.(claim := a.(status := Failed, lease := None))
    case _ => false
  }

  /** All that can happen to a finalization. It is declared expired only when its lease is past. */
  predicate FinalChanges(s: State, step: Step, id: FinId, f: Finalization, g: Finalization)
  {
    || g == f
    || (f.claim.status.Active() && PastLease(f.claim, s.core.clock)
        && g == f.(claim := f.claim.(status := ClaimExpired)))
    || FinalAdvanced(s, step, id, f, g)
  }

  lemma FinalsChange(s: State, step: Step, id: FinId)
    requires OfFinals(step) && Sound(s) && id in s.finals
    ensures var t := DoFinals(s, step);
            id in t.finals && FinalChanges(s, step, id, s.finals[id], t.finals[id])
  {
    hide Sound, NumberFree, LargestFinal, BothComplete, Fits, Insertable;
    FinalIs(s, id);
    InsertOther(s, step, id);
  }

  lemma InsertOther(s: State, step: Step, id: FinId)
    requires id in s.finals
    ensures forall j, m, now :: InsertedFinal(s.finals, j, m, now)[id] == s.finals[id]
  {
  }

  lemma RenewalChanges(s: State, step: Step, id: FinId)
    requires OfPublication(step) && id in s.finals
    ensures var t := DoPublication(s, step);
            id in t.finals && FinalChanges(s, step, id, s.finals[id], t.finals[id])
  {
  }

  /** Nothing else happens to a finalization, whatever step is made. */
  lemma FinalizationChanges(s: State, step: Step, id: FinId)
    requires Sound(s) && id in s.finals
    ensures var t := Do(s, step);
            id in t.finals && FinalChanges(s, step, id, s.finals[id], t.finals[id])
  {
    hide Sound, Do, DoFinals, DoBatches, DoRefusal, DoPublication, FinalAdvanced, OfFinals, OfBatches, OfRefusal,
        OfPublication;
    StepIs(s, step);
    if step.Core? || step.Crash? {
    } else if OfFinals(step) {
      FinalsChange(s, step, id);
    } else if OfBatches(step) {
      BatchesTouch(s, step);
    } else if OfRefusal(step) {
      RefusalTouches(s, step);
    } else {
      RenewalChanges(s, step, id);
    }
  }

  /** While the clock has not reached its lease, no step of anyone declares a finalization expired. */
  lemma LiveFinalizationStays(s: State, step: Step, id: FinId)
    requires Sound(s) && id in s.finals && s.finals[id].claim.status.Active()
    ensures s.finals[id].claim.lease.Some?
    ensures var t := Do(s, step);
            && id in t.finals
            && (s.core.clock < s.finals[id].claim.lease.value ==> t.finals[id].claim.status != ClaimExpired)
  {
    hide Sound, Do, FinalAdvanced;
    FinalIs(s, id);
    FinalizationChanges(s, step, id);
    AdvancingExpiresNone(s, step, id, s.finals[id], Do(s, step).finals[id]);
  }

  lemma AdvancingExpiresNone(s: State, step: Step, id: FinId, f: Finalization, g: Finalization)
    ensures FinalAdvanced(s, step, id, f, g) ==> g.claim.status != ClaimExpired
  {
  }

  /** Anyone who reads an active finalization can declare it expired exactly when its lease is past. */
  lemma CanExpireFinalExactly(s: State, id: FinId, now: nat)
    requires Sound(s) && id in s.finals && s.finals[id].claim.status.Active() && now <= s.core.clock
    ensures s.finals[id].claim.lease.Some?
    ensures var f := s.finals[id];
            Do(s, ExpireFinal(id, AsRead(f.claim), now)).finals ==
            if now < f.claim.lease.value then s.finals
            else s.finals[id := f.(claim := f.claim.(status := ClaimExpired))]
  {
    hide Sound, DoBatches, DoRefusal, DoPublication;
    FinalIs(s, id);
  }

  /** A process at rest that reads a finalization can claim it exactly when it is scheduled and its lease is not past.
      */
  lemma CanClaimFinalExactly(s: State, p: P.Proc, id: FinId, owner: string, now: nat, publisher: bool,
                             contract: Contract)
    requires s.At(p).Resting? && id in s.finals && now <= s.core.clock && s.finals[id].claim.lease.Some?
    ensures var f := s.finals[id];
            var t := Do(s, TakeFinal(p, id, owner, f.claim.lease, now, publisher, contract));
            if f.claim.status == Scheduled && now < f.claim.lease.value then
              && t.At(p) == Busy(Job(Some(FinClaim(id, owner, Token(s.drawn))), f.batch, publisher, contract), Opening)
              && t.finals[id] == f.(claim := f.claim.(status := Running, owner := Some(owner),
                                                      token := Some(Token(s.drawn)), lease := Some(now + 600)))
            else t == s
  {
    hide DoBatches, DoRefusal, DoPublication;
  }

  // ----- publications -----

  /** A publication is claimed for two minutes: one that is being published only when its lease is past. */
  predicate PubTaken(s: State, step: Step, b: BatchId, x: Publication, y: Publication)
  {
    && step.ClaimPublication? && s.At(step.p).Busy? && s.At(step.p).job.batch == b && step.now <= s.core.clock
    && (x.status == Pending || x.status == Rejected || (x.status == Publishing && x.lease.Some?
        && x.lease.value <= step.now))
    && y == Publication(Publishing, x.attemptCount + 1, Some(step.owner), Some(Token(s.drawn)), Some(step.now + 120),
                        None, x.identity)
  }

  /** Its holder records what the call came to, and gives the claim back. */
  predicate PubRecorded(s: State, step: Step, b: BatchId, x: Publication, y: Publication)
    requires HasFinal(s, b)
  {
    && step.Record? && HoldsCurrent(s, step.p, b) && step.now <= s.core.clock
    && y == if s.At(step.p).stage.ok
            then Publication(Published, x.attemptCount, None, None, None, Some(step.now), x.identity)
            else Publication(Rejected, x.attemptCount, None, None, None, None, x.identity)
  }

  /** Nothing else happens to the publication of a final batch, whatever step is made. */
  lemma PublicationChanges(s: State, step: Step, b: BatchId)
    requires Sound(s) && HasFinal(s, b)
    ensures var t := Do(s, step);
            && HasFinal(t, b)
            && var x, y := s.batches[b].publication.value, t.batches[b].publication.value;
            y == x || PubTaken(s, step, b, x, y) || PubRecorded(s, step, b, x, y)
  {
    hide Sound, Do, DoFinals, DoBatches, DoRefusal, DoPublication, PubTaken, PubRecorded, OfFinals, OfBatches,
        OfRefusal, OfPublication;
    StepIs(s, step);
    if step.Core? || step.Crash? {
    } else if OfFinals(step) {
      FinalsTouch(s, step);
    } else if OfBatches(step) {
      StoringKeepsFinal(s, step, b);
    } else if OfRefusal(step) {
      RefusingKeepsFinal(s, step, b);
    } else if step.ClaimPublication? {
      ClaimingChanges(s, step, b);
    } else if step.Record? {
      RecordingChanges(s, step, b);
    } else {
      OtherPublication(step);
      QuietPublication(s, step);
    }
  }

  lemma ClaimingChanges(s: State, step: Step, b: BatchId)
    requires Sound(s) && HasFinal(s, b) && step.ClaimPublication?
    ensures var t := DoPublication(s, step);
            && HasFinal(t, b)
            && var x, y := s.batches[b].publication.value, t.batches[b].publication.value;
            y == x || PubTaken(s, step, b, x, y)
  {
    hide Sound;
    BatchIs(s, b);
  }

  lemma RecordingChanges(s: State, step: Step, b: BatchId)
    requires HasFinal(s, b) && step.Record?
    ensures var t := DoPublication(s, step);
            && HasFinal(t, b)
            && var x, y := s.batches[b].publication.value, t.batches[b].publication.value;
            y == x || PubRecorded(s, step, b, x, y)
  {
  }

  /** While the clock has not reached its lease, only its holder changes a publication, by recording the outcome. */
  lemma LivePublicationStays(s: State, step: Step, b: BatchId)
    requires Sound(s) && HasFinal(s, b) && s.batches[b].publication.value.status == Publishing
    ensures s.batches[b].publication.value.lease.Some?
    ensures var t := Do(s, step);
            && HasFinal(t, b)
            && (s.core.clock < s.batches[b].publication.value.lease.value ==>
                  t.batches[b].publication == s.batches[b].publication || (step.Record? && HoldsCurrent(s, step.p, b)))
  {
    hide Sound, Do;
    BatchIs(s, b);
    PublicationChanges(s, step, b);
  }

  /** A publisher that sees the record as it is takes it exactly when it is not complete and not being published under a
      live lease. From a complete one it goes on to finish; under a live claim of another it gives up. */
  lemma CanPublishExactly(s: State, p: P.Proc, owner: string, now: nat)
    requires Sound(s) && s.At(p).Busy? && HasFinal(s, s.At(p).job.batch) && now <= s.core.clock
    requires s.At(p).stage == Viewing(s.batches[s.At(p).job.batch])
    ensures var b := s.At(p).job.batch;
            var x, t := s.batches[b].publication.value, Do(s, ClaimPublication(p, owner, now));
            && (x.status == Publishing ==> x.lease.Some?)
            && if x.status == Published || x.status == NotRequired then t == s.Move(p, Finished)
               else if x.status == Publishing && now < x.lease.value then t == s.Move(p, Broken)
               else
                 var c := PubClaim(x.attemptCount + 1, owner, Token(s.drawn), now + 120);
                 && t.At(p) == s.At(p).(stage := Holding(c))
                 && t.batches == s.batches[b := s.batches[b].(publication := Some(
                      Publication(Publishing, c.count, Some(owner), Some(c.token), Some(c.lease), None, x.identity)))]
  {
    hide Sound, DoFinals, DoBatches, DoRefusal;
    if s.batches[s.At(p).job.batch].publication.value.status == Publishing {
      PublishingHasLease(s, s.At(p).job.batch);
    }
  }

  lemma PublishingHasLease(s: State, b: BatchId)
    requires Sound(s) && HasFinal(s, b) && s.batches[b].publication.value.status == Publishing
    ensures s.batches[b].publication.value.lease.Some?
  {
    hide Sound;
    BatchIs(s, b);
  }

  /** A publisher that sees a record which has changed since cannot claim it; it finishes when the record is complete
      by the time it looks again, and gives up else. */
  lemma LateViewer(s: State, p: P.Proc, owner: string, now: nat)
    requires s.At(p).Busy? && s.At(p).stage.Viewing? && now <= s.core.clock && HasFinal(s, s.At(p).job.batch)
    requires s.At(p).stage.seen.publication.Some?
    requires var seen, pub := s.At(p).stage.seen.publication.value, s.batches[s.At(p).job.batch].publication.value;
             && !seen.status.Published? && !seen.status.NotRequired?
             && (seen.status.Publishing? ==> seen.lease.None? || seen.lease.value <= now)
             && (seen.status != pub.status || seen.attemptCount != pub.attemptCount)
    ensures var b := s.At(p).job.batch;
            var t := Do(Do(s, ClaimPublication(p, owner, now)), ReadMissed(p));
            var pub := s.batches[b].publication.value;
            && t.batches == s.batches && t.At(p).Busy?
            && t.At(p).stage == if pub.status == Published || pub.status == NotRequired then Finished else Broken
  {
    hide DoFinals, DoBatches, DoRefusal;
  }

  /** A publisher that has lost its finalization claim does not call: it records that the publication failed, and
      gives up. */
  lemma LostClaimIsRecorded(s: State, p: P.Proc, now: nat, after: nat, c: PubClaim)
    requires s.At(p).Busy? && s.At(p).stage == Holding(c) && now <= s.core.clock && after <= s.core.clock
    requires s.At(p).job.claim.Some? && HasFinal(s, s.At(p).job.batch)
    requires !HitsFinal(s.finals, s.At(p).job.claim.value.id, FinHeld(s.At(p).job.claim.value, LeaseAfter(now)))
    requires PubMatches(s.batches, s.At(p).job.batch, StillHeld(c))
    ensures var b := s.At(p).job.batch;
            var t := Do(Do(s, Renew(p, now)), Record(p, after));
            var x := s.batches[b].publication.value;
            && t.At(p) == s.At(p).(stage := Broken) && t.finals == s.finals
            && t.batches == s.batches[b := s.batches[b].(publication := Some(
                 Publication(Rejected, c.count, None, None, None, None, x.identity)))]
  {
    hide DoFinals, DoBatches, DoRefusal, HitsFinal, FinHeld;
  }
}
