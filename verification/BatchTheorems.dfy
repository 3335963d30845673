/** The promises of finalizing and publishing, over every run. */
module BatchTheorems {
  import opened Wrappers
  import opened Documents
  import opened Batches
  import opened BatchProtocol
  import opened BatchInvariant
  import P = Protocol
  import PI = ProtocolInvariant

  lemma {:induction false} EveryRun(s: State, steps: seq<Step>)
    requires Sound(s)
    ensures Sound(Run(s, steps)) && Evolved(s, Run(s, steps))
  {
    hide Sound, Evolved, Do;
    if steps == [] {
      Same(s);
    } else {
      var t := Run(s, steps[..|steps| - 1]);
      EveryRun(s, steps[..|steps| - 1]);
      EveryStep(t, steps[|steps| - 1]);
      EvolvedTransitive(s, t, Do(t, steps[|steps| - 1]));
    }
  }

  // ----- what a step touches -----

  /** Every step is of one group. */
  lemma StepIs(s: State, step: Step)
    ensures var t := Do(s, step);
            if step.Core? then t == s.(core := P.Do(s.core, step.step))
            else if step.Crash? then t == s.With(step.p, Resting)
            else if OfFinals(step) then t == DoFinals(s, step)
            else if OfBatches(step) then t == DoBatches(s, step)
            else if OfRefusal(step) then t == DoRefusal(s, step)
            else OfPublication(step) && t == DoPublication(s, step)
  {
    hide DoFinals, DoBatches, DoRefusal, DoPublication;
  }

  lemma FinalsTouch(s: State, step: Step)
    requires OfFinals(step)
    ensures DoFinals(s, step).batches == s.batches && !step.ClaimPublication?
  {
  }

  lemma BatchesTouch(s: State, step: Step)
    requires OfBatches(step)
    ensures DoBatches(s, step).finals == s.finals && !step.Finish?
  {
  }

  /** Refusing stores at most the refusal, over a batch that is not final. */
  lemma RefusalTouches(s: State, step: Step)
    requires OfRefusal(step)
    ensures var t := DoRefusal(s, step);
            && t.finals == s.finals && t.core == s.core && !step.Finish?
            && t.batches == if step.StoreRefused? && s.At(step.p).Busy? && s.At(step.p).stage.Noting?
                            then UpsertedIn(s.batches, s.At(step.p).stage.batch, s.At(step.p).stage.doc)
                            else s.batches
  {
  }

  /** Renewing, calling and looking again change no batch. */
  lemma QuietPublication(s: State, step: Step)
    requires step.Renew? || step.Call? || step.ReadMissed?
    ensures DoPublication(s, step).batches == s.batches
  {
  }

  /** A claim that is taken moves its publication record on; otherwise no batch changes. */
  lemma ClaimTouches(s: State, step: Step)
    requires step.ClaimPublication?
    ensures var t := DoPublication(s, step);
            if Claims(s, step, t) then
              var b := s.At(step.p).job.batch;
              && PubMatches(s.batches, b, AsSeen(s.At(step.p).stage.seen.publication.value))
              && !s.batches[b].publication.value.status.Complete()
              && t.batches == s.batches[b := s.batches[b].(publication :=
                   Some(ToPublishing(s.batches[b].publication.value, t.At(step.p).stage.pub)))]
              && t.At(step.p).stage.pub.count == s.batches[b].publication.value.attemptCount + 1
            else t.batches == s.batches
  {
  }

  lemma RecordTouches(s: State, step: Step)
    requires step.Record?
    ensures DoPublication(s, step).batches ==
            if s.At(step.p).Busy? && s.At(step.p).stage.Called? && step.now <= s.core.clock then
              var c, ok := s.At(step.p).stage.pub, s.At(step.p).stage.ok;
              PubUpdatedIf(s.batches, s.At(step.p).job.batch, StillHeld(c), x => ToOutcome(x, c, ok, step.now))
            else s.batches
  {
  }

  // ----- one content per batch -----

  /** The final batch a process is about to store, or has tried to store. */
  function FinalDocOf(w: Worker): Option<Batch>
  {
    match w
    case Busy(_, Renewing(ToWrite(doc))) => Some(doc)
    case Busy(_, Writing(doc)) => Some(doc)
    case Busy(_, Written(doc, _)) => Some(doc)
    case _ => None
  }

  /** Any two finalizations of one batch compute the same content, order and publication identity,
      and those of the final batch that is stored. */
  lemma OneContent(s: State, steps: seq<Step>, p: P.Proc, q: P.Proc)
    requires Sound(s)
    requires var t := Run(s, steps);
             FinalDocOf(t.At(p)).Some? && FinalDocOf(t.At(q)).Some? && t.At(p).job.batch == t.At(q).job.batch
    ensures var t := Run(s, steps);
            var d, e, b := FinalDocOf(t.At(p)).value, FinalDocOf(t.At(q)).value, t.At(p).job.batch;
            && d.Final() && e.Final() && d.content == e.content
            && d.publication.value.identity == e.publication.value.identity
            && (b in t.batches && t.batches[b].isFinal ==>
                  t.batches[b].content == d.content
                  && t.batches[b].publication.Some?
                      && t.batches[b].publication.value.identity == d.publication.value.identity)
  {
    hide PI.Inv, PI.Evolves, FinalOk, CountsDistinct;
    var t := Run(s, steps);
    EveryRun(s, steps);
    WorkerIs(t, p);
    WorkerIs(t, q);
    if t.At(p).job.batch in t.batches {
      BatchIs(t, t.At(p).job.batch);
    }
  }

  /** The conflict of two final contents cannot occur: storing a final batch is never answered by it,
      and a process that finds a final batch in place goes on with that one. */
  lemma NoFinalConflict(s: State, steps: seq<Step>, p: P.Proc)
    requires Sound(s) && FinalDocOf(Run(s, steps).At(p)).Some?
    ensures var t := Run(s, steps);
            var b := t.At(p).job.batch;
            && UpsertAnswer(t.batches, b, FinalDocOf(t.At(p)).value).Upserted?
            && (t.At(p).stage.Written? ==> !Do(t, ReadWritten(p)).At(p).stage.Broken?)
  {
    hide Sound, Evolved, DoFinals, DoRefusal, DoPublication;
    OneContent(s, steps, p, p);
    var t := Run(s, steps);
    if t.At(p).stage.Written? {
      EveryRun(s, steps);
      WorkerIs(t, p);
    }
  }

  /** Once a batch is final, its content, its other fields and its publication identity never change again,
      no later finalization takes its publication record back, and a complete publication stays as it is. */
  lemma FinalForever(s: State, steps: seq<Step>, b: BatchId)
    requires Sound(s) && HasFinal(s, b)
    ensures HasFinal(Run(s, steps), b)
    ensures var was, is' := s.batches[b], Run(s, steps).batches[b];
            && is'.content == was.content && is'.body == was.body && is'.status == was.status
            && is'.publication.value.identity == was.publication.value.identity
            && was.publication.value.attemptCount <= is'.publication.value.attemptCount
            && (is'.publication.value.status == Pending ==> was.publication == is'.publication)
            && (was.Complete() ==> is'.publication == was.publication)
  {
    hide PI.Inv, PI.Evolves, FinalOk, WorkerOk, CountsDistinct, Run, Sound;
    EveryRun(s, steps);
    var t := Run(s, steps);
    assert BatchFollows(s.batches[b], t.batches[b]);
    BatchIs(s, b);
    BatchIs(t, b);
  }

  // ----- publication claims -----

  /** The step, which leads to t, claims a publication with success. */
  predicate Claims(s: State, step: Step, t: State)
  {
    && step.ClaimPublication? && s.At(step.p).Busy? && s.At(step.p).stage.Viewing?
    && t.At(step.p).Busy? && t.At(step.p).stage.Holding?
  }

  /** It claims the publication of b. */
  ghost predicate ClaimsOf(s: State, step: Step, b: BatchId)
  {
    Claims(s, step, Do(s, step)) && s.At(step.p).job.batch == b
  }

  function CountOf(s: State, b: BatchId): nat
  {
    if HasFinal(s, b) then s.batches[b].publication.value.attemptCount else 0
  }

  lemma SameCount(s: State, t: State, b: BatchId)
    requires t.batches == s.batches
    ensures CountOf(t, b) == CountOf(s, b)
  {
  }

  /** Storing a batch document leaves a final batch alone, and a new final batch starts with no claims. */
  lemma StoringKeepsFinal(s: State, step: Step, b: BatchId)
    requires Sound(s) && OfBatches(step)
    ensures HasFinal(s, b) ==> HasFinal(DoBatches(s, step), b) && DoBatches(s, step).batches[b] == s.batches[b]
    ensures CountOf(DoBatches(s, step), b) == CountOf(s, b) && !step.ClaimPublication?
  {
    hide Sound, PI.Inv, FinalOk;
    if b in s.batches {
      BatchIs(s, b);
    }
    if step.StorePartial? {
      StoredCount(s.batches, step.batch, Partial(step.status, step.body), b);
    } else {
      ReadingStores(s, step);
      if step.Write? && s.At(step.p).Busy? && s.At(step.p).stage.Writing? {
        WorkerIs(s, step.p);
        StoredCount(s.batches, s.At(step.p).job.batch, s.At(step.p).stage.doc, b);
      }
    }
  }

  lemma RefusingKeepsFinal(s: State, step: Step, b: BatchId)
    requires Sound(s) && OfRefusal(step)
    ensures HasFinal(s, b) ==> HasFinal(DoRefusal(s, step), b) && DoRefusal(s, step).batches[b] == s.batches[b]
    ensures CountOf(DoRefusal(s, step), b) == CountOf(s, b) && !step.ClaimPublication?
  {
    hide Sound, DoRefusal;
    RefusalTouches(s, step);
    if step.StoreRefused? && s.At(step.p).Busy? && s.At(step.p).stage.Noting? {
      WorkerIs(s, step.p);
      StoredCount(s.batches, s.At(step.p).stage.batch, s.At(step.p).stage.doc, b);
    }
  }

  function CountIn(batches: BatchMap, b: BatchId): nat
  {
    if b in batches && batches[b].Final() then batches[b].publication.value.attemptCount else 0
  }

  /** Storing a document that is partial, or final without claims. */
  lemma StoredCount(batches: BatchMap, id: BatchId, doc: Batch, b: BatchId)
    requires doc.Final() ==> doc.publication.value.attemptCount == 0
    ensures CountIn(UpsertedIn(batches, id, doc), b) == CountIn(batches, b)
    ensures b in batches && batches[b].Final() ==> UpsertedIn(batches, id, doc)[b] == batches[b]
  {
  }

  /** Of the other steps only the write stores something. */
  lemma ReadingStores(s: State, step: Step)
    requires OfBatches(step) && !step.StorePartial?
    ensures DoBatches(s, step).batches ==
            if step.Write? && s.At(step.p).Busy? && s.At(step.p).stage.Writing?
            then UpsertedIn(s.batches, s.At(step.p).job.batch, s.At(step.p).stage.doc) else s.batches
  {
  }

  /** The attempt count of a batch rises by exactly one when its publication is claimed, and else does not change. */
  lemma CountStep(s: State, step: Step, b: BatchId)
    requires Sound(s)
    ensures CountOf(Do(s, step), b) == CountOf(s, b) + if ClaimsOf(s, step, b) then 1 else 0
  {
    hide Sound, DoFinals, DoBatches, DoRefusal, DoPublication, Do, CountOf, OfFinals, OfBatches, OfRefusal,
        OfPublication;
    StepIs(s, step);
    if step.Core? || step.Crash? {
      SameCount(s, Do(s, step), b);
    } else if OfFinals(step) {
      FinalsTouch(s, step);
      SameCount(s, Do(s, step), b);
    } else if OfBatches(step) {
      StoringKeepsFinal(s, step, b);
    } else if OfRefusal(step) {
      RefusingKeepsFinal(s, step, b);
    } else {
      CountByPublication(s, step, b);
    }
  }

  lemma CountByPublication(s: State, step: Step, b: BatchId)
    requires Sound(s) && OfPublication(step)
    ensures var t := DoPublication(s, step);
            CountOf(t, b) == CountOf(s, b) + if Claims(s, step, t) && s.At(step.p).job.batch == b then 1 else 0
  {
    hide Sound, DoPublication, PI.Inv;
    if b in s.batches {
      BatchIs(s, b);
    }
    if step.ClaimPublication? {
      ClaimTouches(s, step);
    } else if step.Record? {
      RecordTouches(s, step);
    } else {
      QuietPublication(s, step);
    }
  }

  /** How often the publication of b was claimed in a run. */
  ghost function ClaimsIn(s: State, steps: seq<Step>, b: BatchId): nat
  {
    if steps == [] then 0
    else
      var t := Run(s, steps[..|steps| - 1]);
      ClaimsIn(s, steps[..|steps| - 1], b) + if ClaimsOf(t, steps[|steps| - 1], b) then 1 else 0
  }

  /** The attempt count of a batch is the number of times its publication has been claimed. */
  lemma {:induction false} CountIsClaims(s: State, steps: seq<Step>, b: BatchId)
    requires Initial(s)
    ensures CountOf(Run(s, steps), b) == ClaimsIn(s, steps, b)
  {
    hide Sound, Evolved, Do, ClaimsOf;
    if steps != [] {
      var front := steps[..|steps| - 1];
      CountIsClaims(s, front, b);
      InitialSound(s);
      EveryRun(s, front);
      CountStep(Run(s, front), steps[|steps| - 1], b);
    }
  }

  /** The process holds the current publication claim of b and has called the publisher. */
  predicate HoldsCurrent(s: State, p: P.Proc, b: BatchId)
    requires HasFinal(s, b)
  {
    && s.At(p).Busy? && s.At(p).job.batch == b && s.At(p).stage.Called?
    && var c, pub := s.At(p).stage.pub, s.batches[b].publication.value;
    && pub.status == Publishing && pub.attemptCount == c.count
    && pub.owner == Some(c.owner) && pub.token == Some(c.token) && pub.lease == Some(c.lease)
  }

  lemma RecordedByHolder(s: State, step: Step, b: BatchId, t: State)
    requires step.Record? && t == DoPublication(s, step) && HasFinal(s, b) && HasFinal(t, b)
    requires t.batches[b].publication != s.batches[b].publication
    ensures HoldsCurrent(s, step.p, b)
    ensures t.batches[b].publication.value.status == if s.At(step.p).stage.ok then Published else Rejected
  {
    hide DoPublication;
    RecordTouches(s, step);
  }

  lemma ClaimedIsPublishing(s: State, step: Step, b: BatchId, t: State)
    requires step.ClaimPublication? && t == DoPublication(s, step) && HasFinal(s, b) && HasFinal(t, b)
    requires t.batches[b].publication != s.batches[b].publication
    ensures t.batches[b].publication.value.status == Publishing
  {
    hide DoPublication;
    ClaimTouches(s, step);
  }

  /** The outcome of a publication is recorded only by the process whose claim is the current one:
      same attempt count, owner, token and lease. What it records is what its call came to. */
  lemma OnlyTheHolderRecords(s: State, step: Step, b: BatchId, t: State)
    requires Sound(s) && HasFinal(s, b) && t == Do(s, step) && HasFinal(t, b)
    requires t.batches[b].publication != s.batches[b].publication && !t.batches[b].publication.value.status.Publishing?
    ensures step.Record? && HoldsCurrent(s, step.p, b)
    ensures t.batches[b].publication.value.status == if s.At(step.p).stage.ok then Published else Rejected
  {
    hide Sound, DoFinals, DoBatches, DoRefusal, DoPublication, Do, OfFinals, OfBatches, OfRefusal, OfPublication;
    StepIs(s, step);
    if step.Core? || step.Crash? {
    } else if OfFinals(step) {
      FinalsTouch(s, step);
    } else if OfBatches(step) {
      StoringKeepsFinal(s, step, b);
    } else if OfRefusal(step) {
      RefusingKeepsFinal(s, step, b);
    } else if step.ClaimPublication? {
      ClaimedIsPublishing(s, step, b, t);
    } else if step.Record? {
      RecordedByHolder(s, step, b, t);
    } else {
      OtherPublication(step);
      QuietPublication(s, step);
    }
  }

  lemma OtherPublication(step: Step)
    requires OfPublication(step) && !step.ClaimPublication? && !step.Record?
    ensures step.Renew? || step.Call? || step.ReadMissed?
  {
  }

  /** A publisher whose claim is no longer the current one never records anything again:
      whatever happens, its write misses and leaves all batches as they are. */
  lemma SupersededForever(s: State, steps: seq<Step>, p: P.Proc, now: nat)
    requires Sound(s) && PubClaimOf(s.At(p)).Some?
    requires !PubMatches(s.batches, s.At(p).job.batch, StillHeld(PubClaimOf(s.At(p)).value))
    ensures var t := Run(s, steps);
            var c, b := PubClaimOf(s.At(p)).value, s.At(p).job.batch;
            && !PubMatches(t.batches, b, StillHeld(c))
            && (PubClaimOf(t.At(p)) == Some(c) && t.At(p).job.batch == b ==> Do(t, Record(p, now)).batches == t.batches)
  {
    hide DoFinals, DoBatches, DoRefusal, Sound, PI.Evolves, PI.Inv, Run;
    var b, c := s.At(p).job.batch, PubClaimOf(s.At(p)).value;
    ClaimsBelow(s, p, b);
    EveryRun(s, steps);
    var t := Run(s, steps);
    assert BatchFollows(s.batches[b], t.batches[b]);
    hide Evolved;
    RecordMisses(t, p, now, b, c);
  }

  lemma RecordMisses(t: State, p: P.Proc, now: nat, b: BatchId, c: PubClaim)
    requires !PubMatches(t.batches, b, StillHeld(c))
    ensures PubClaimOf(t.At(p)) == Some(c) && t.At(p).job.batch == b ==> Do(t, Record(p, now)).batches == t.batches
  {
    hide DoFinals, DoBatches, DoRefusal;
  }

  /** No two processes hold publication claims of one batch under the same attempt count,
      so at most one of them is the current one. */
  lemma OneCurrentPublisher(s: State, steps: seq<Step>, p: P.Proc, q: P.Proc)
    requires Sound(s) && p != q
    requires var t := Run(s, steps);
             PubClaimOf(t.At(p)).Some? && PubClaimOf(t.At(q)).Some? && t.At(p).job.batch == t.At(q).job.batch
    ensures var t := Run(s, steps);
            var b := t.At(p).job.batch;
            !(PubMatches(t.batches, b, StillHeld(PubClaimOf(t.At(p)).value))
              && PubMatches(t.batches, b, StillHeld(PubClaimOf(t.At(q)).value)))
  {
    EveryRun(s, steps);
    var t := Run(s, steps);
    assert Apart(t.workers[p], t.workers[q]);
  }

  /** The steps of a publication that nothing interrupts. */
  function PublishSteps(p: P.Proc, owner: string, now: nat, ok: bool): seq<Step>
  {
    [ClaimPublication(p, owner, now), Renew(p, now), Call(p, ok), Record(p, now)]
  }

  /** A process that sees the batch as it is, unpublished and not being published, and whose finalization claim holds,
      publishes it: the count rises by one, the outcome is that of the call, and the claim is given back. */
  lemma PublishUninterrupted(s: State, p: P.Proc, owner: string, now: nat, ok: bool)
    requires Sound(s) && s.At(p).Busy? && HasFinal(s, s.At(p).job.batch)
        && s.At(p).stage == Viewing(s.batches[s.At(p).job.batch])
    requires now <= s.core.clock
    requires var pub := s.batches[s.At(p).job.batch].publication.value;
             !pub.status.Complete() && (pub.status == Publishing ==> Expired(pub.lease, now))
    requires s.At(p).job.claim.Some? ==>
               HitsFinal(s.finals, s.At(p).job.claim.value.id, FinHeld(s.At(p).job.claim.value, LeaseAfter(now)))
    ensures var b := s.At(p).job.batch;
            var t := Run(s, PublishSteps(p, owner, now, ok));
            var was := s.batches[b].publication.value;
            && HasFinal(t, b) && t.At(p).Busy? && t.At(p).stage == (if ok then Finished else Broken)
            && var pub := t.batches[b].publication.value;
            && pub.status == (if ok then Published else Rejected) && pub.attemptCount == was.attemptCount + 1
            && pub.owner.None? && pub.token.None? && pub.lease.None? && pub.identity == was.identity
            && pub.publishedAt == (if ok then Some(now) else None)
  {
    hide Do, Run, Sound, PubMatches, HitsFinal;
    var w, b := s.At(p), s.At(p).job.batch;
    var pub := s.batches[b].publication.value;
    var c := PubClaim(pub.attemptCount + 1, owner, Token(s.drawn), now + PUBLICATION_TTL);
    ClaimAsSeen(s, p, owner, now, pub, c);
    var s1 := Do(s, ClaimPublication(p, owner, now));
    RenewHeld(s1, p, now, c);
    var s2 := Do(s1, Renew(p, now));
    CallPublisher(s2, p, ok, c);
    var s3 := Do(s2, Call(p, ok));
    RecordHeld(s3, p, now, c);
    RunOfFour(s, PublishSteps(p, owner, now, ok));
  }

  lemma ClaimAsSeen(s: State, p: P.Proc, owner: string, now: nat, pub: Publication, c: PubClaim)
    requires s.At(p).Busy? && HasFinal(s, s.At(p).job.batch) && s.At(p).stage == Viewing(s.batches[s.At(p).job.batch])
    requires pub == s.batches[s.At(p).job.batch].publication.value && now <= s.core.clock
    requires !pub.status.Complete() && (pub.status == Publishing ==> Expired(pub.lease, now))
    requires c == PubClaim(pub.attemptCount + 1, owner, Token(s.drawn), now + PUBLICATION_TTL)
    ensures var b := s.At(p).job.batch;
            var t := Do(s, ClaimPublication(p, owner, now));
            && t.At(p) == s.At(p).(stage := Holding(c)) && t.core == s.core && t.finals == s.finals
            && t.batches == s.batches[b := s.batches[b].(publication := Some(ToPublishing(pub, c)))]
  {
    hide DoFinals, DoBatches, DoRefusal;
  }

  lemma RenewHeld(s: State, p: P.Proc, now: nat, c: PubClaim)
    requires s.At(p).Busy? && s.At(p).stage == Holding(c) && now <= s.core.clock
    requires s.At(p).job.claim.Some? ==>
               HitsFinal(s.finals, s.At(p).job.claim.value.id, FinHeld(s.At(p).job.claim.value, LeaseAfter(now)))
    ensures var t := Do(s, Renew(p, now));
            t.At(p) == s.At(p).(stage := Armed(c)) && t.core == s.core && t.batches == s.batches
  {
    hide DoFinals, DoBatches, DoRefusal, HitsFinal, FinHeld;
  }

  lemma CallPublisher(s: State, p: P.Proc, ok: bool, c: PubClaim)
    requires s.At(p).Busy? && s.At(p).stage == Armed(c)
    ensures var t := Do(s, Call(p, ok));
            t.At(p) == s.At(p).(stage := Called(c, ok)) && t.core == s.core && t.batches == s.batches
  {
    hide DoFinals, DoBatches, DoRefusal;
  }

  lemma RecordHeld(s: State, p: P.Proc, now: nat, c: PubClaim)
    requires s.At(p).Busy? && s.At(p).stage.Called? && s.At(p).stage.pub == c && now <= s.core.clock
    requires var b := s.At(p).job.batch;
             HasFinal(s, b) && exists was :: s.batches[b].publication == Some(ToPublishing(was, c))
    ensures var b, ok := s.At(p).job.batch, s.At(p).stage.ok;
            var t := Do(s, Record(p, now));
            && t.At(p) == s.At(p).(stage := if ok then Finished else Broken)
            && var pub := s.batches[b].publication.value;
            && t.batches == s.batches[b := s.batches[b].(publication := Some(ToOutcome(pub, c, ok, now)))]
  {
    hide DoFinals, DoBatches, DoRefusal;
  }

  lemma RunNext(s: State, front: seq<Step>, step: Step)
    ensures Run(s, front + [step]) == Do(Run(s, front), step)
  {
    hide Do;
    assert (front + [step])[..|front|] == front;
  }

  lemma NoSteps(s: State)
    ensures Run(s, []) == s
  {
  }

  lemma {:induction false} RunBoth(s: State, a: seq<Step>, b: seq<Step>)
    ensures Run(s, a + b) == Run(Run(s, a), b)
  {
    hide Do;
    if b == [] {
      assert a + b == a;
    } else {
      RunBoth(s, a, b[..|b| - 1]);
      assert (a + b)[..|a + b| - 1] == a + b[..|b| - 1];
    }
  }

  lemma RunTwo(s: State, a: Step, b: Step)
    ensures Run(s, [a]) == Do(s, a) && Run(s, [a, b]) == Do(Do(s, a), b)
  {
    hide Do;
    assert [a, b][..1] == [a] && [a][..0] == [];
  }

  lemma RunOfFour(s: State, steps: seq<Step>)
    requires |steps| == 4
    ensures Run(s, steps) == Do(Do(Do(Do(s, steps[0]), steps[1]), steps[2]), steps[3])
  {
    hide Do, Run;
    RunTwo(s, steps[0], steps[1]);
    RunTwo(Run(s, [steps[0], steps[1]]), steps[2], steps[3]);
    RunBoth(s, [steps[0], steps[1]], [steps[2], steps[3]]);
    assert steps == [steps[0], steps[1]] + [steps[2], steps[3]];
  }

  // ----- the publisher runs under a renewed claim -----

  lemma ArmedByFinals(s: State, step: Step, p: P.Proc)
    requires OfFinals(step) && DoFinals(s, step).At(p).Busy? && DoFinals(s, step).At(p).stage.Armed?
    ensures s.At(p) == DoFinals(s, step).At(p)
  {
  }

  lemma ArmedByBatches(s: State, step: Step, p: P.Proc)
    requires OfBatches(step) && DoBatches(s, step).At(p).Busy? && DoBatches(s, step).At(p).stage.Armed?
    ensures s.At(p) == DoBatches(s, step).At(p)
  {
  }

  lemma ArmedByRefusal(s: State, step: Step, p: P.Proc)
    requires OfRefusal(step) && DoRefusal(s, step).At(p).Busy? && DoRefusal(s, step).At(p).stage.Armed?
    ensures s.At(p) == DoRefusal(s, step).At(p)
  {
  }

  /** The process has just renewed its finalization claim, if it runs under one. */
  predicate RenewedTo(s: State, step: Step, p: P.Proc, w: Worker)
    requires w.Busy? && w.stage.Armed?
  {
    && step.Renew? && step.p == p && s.At(p) == w.(stage := Holding(w.stage.pub)) && step.now <= s.core.clock
    && (w.job.claim.Some? ==>
          HitsFinal(s.finals, w.job.claim.value.id, FinHeld(w.job.claim.value, LeaseAfter(step.now))))
  }

  lemma ArmedByPublication(s: State, step: Step, p: P.Proc)
    requires OfPublication(step) && DoPublication(s, step).At(p).Busy? && DoPublication(s, step).At(p).stage.Armed?
    ensures var w := DoPublication(s, step).At(p);
            s.At(p) == w || RenewedTo(s, step, p, w)
  {
    hide HitsFinal, FinHeld;
  }

  /** The only way to be about to call the publisher is to have renewed the finalization claim. */
  lemma ArmedStep(s: State, step: Step, p: P.Proc, w: Worker)
    requires w == Do(s, step).At(p) && w.Busy? && w.stage.Armed?
    ensures s.At(p) == w || RenewedTo(s, step, p, w)
  {
    hide DoFinals, DoBatches, DoRefusal, DoPublication, Do, RenewedTo, OfFinals, OfBatches, OfRefusal, OfPublication;
    StepIs(s, step);
    if step.Core? || step.Crash? {
    } else if OfFinals(step) {
      ArmedByFinals(s, step, p);
    } else if OfBatches(step) {
      ArmedByBatches(s, step, p);
    } else if OfRefusal(step) {
      ArmedByRefusal(s, step, p);
    } else {
      ArmedByPublication(s, step, p);
    }
  }

  /** When a process under a finalization claim is about to call the publisher, there is an earlier step in which it
      renewed that claim: it had already claimed the publication, its finalization attempt was running under
      its owner and token, and its lease was later than a clock value it had read. It has done nothing since. */
  lemma {:induction false} CalledUnderRenewedClaim(s: State, steps: seq<Step>, p: P.Proc) returns (j: nat)
    requires Initial(s)
    requires Run(s, steps).At(p).Busy? && Run(s, steps).At(p).stage.Armed? && Run(s, steps).At(p).job.claim.Some?
    ensures j < |steps| && steps[j].Renew? && steps[j].p == p
    ensures var w, u := Run(s, steps).At(p), Run(s, steps[..j]);
            && u.At(p) == w.(stage := Holding(w.stage.pub))
            && steps[j].now <= u.core.clock
            && HitsFinal(u.finals, w.job.claim.value.id, FinHeld(w.job.claim.value, LeaseAfter(steps[j].now)))
    ensures forall k :: j < k <= |steps| ==> Run(s, steps[..k]).At(p) == Run(s, steps).At(p)
  {
    hide Do;
    assert steps != [];
    var front := steps[..|steps| - 1];
    ArmedStep(Run(s, front), steps[|steps| - 1], p, Run(s, steps).At(p));
    assert steps[..|steps|] == steps;
    if Run(s, front).At(p) == Run(s, steps).At(p) {
      j := CalledUnderRenewedClaim(s, front, p);
      assert front[..j] == steps[..j];
      forall k | j < k <= |steps| ensures Run(s, steps[..k]).At(p) == Run(s, steps).At(p) {
        if k < |steps| {
          assert front[..k] == steps[..k];
        }
      }
    } else {
      j := |steps| - 1;
    }
  }

  // ----- finalization attempts -----

  /** A finalization attempt that ended stays as it ended, its token is never replaced, and what it was planned with
      never changes. Until it completes it is recorded under the batch it was planned for, and when it has completed
      it is recorded under a final one. */
  lemma FinalizationEnds(s: State, steps: seq<Step>, id: FinId)
    requires Sound(s) && id in s.finals
    ensures id in Run(s, steps).finals && Run(s, steps).finals[id].planned == s.finals[id].planned
    ensures !s.finals[id].claim.status.Active() ==> Run(s, steps).finals[id] == s.finals[id]
    ensures s.finals[id].claim.token.Some? ==> Run(s, steps).finals[id].claim.token == s.finals[id].claim.token
    ensures var f := Run(s, steps).finals[id];
            if f.claim.status == Completed then HasFinal(Run(s, steps), f.batch) else f.batch == id.batch
  {
    EveryRun(s, steps);
    assert FinFollows(s.finals[id], Run(s, steps).finals[id]);
    FinalIs(Run(s, steps), id);
  }

  /** Process p can complete the attempt it holds under the batch it was answered with, before its lease ends by a clock
      value it has read: no other attempt has the number under that batch. */
  predicate MayComplete(s: State, p: P.Proc, id: FinId, now: nat)
    requires id in s.finals
  {
    var w, a := s.At(p), s.finals[id].claim;
    && AnswerOf(w).Some? && w.job.claim.Some? && w.job.claim.value.id == id
    && a.token == Some(w.job.claim.value.token) && a.owner == Some(w.job.claim.value.owner)
    && a.status == Running && a.lease.Some? && now < a.lease.value && now <= s.core.clock
    && NumberFree(s.finals, id, AnswerOf(w).value)
  }

  lemma CompletedByFinals(s: State, step: Step, id: FinId, t: State)
    requires OfFinals(step) && id in s.finals && s.finals[id].claim.status.Active() && t == DoFinals(s, step)
    ensures id in t.finals && (t.finals[id].claim.status == Completed <==>
                               step.Finish? && MayComplete(s, step.p, id, step.now))
    ensures t.finals[id].claim.status == Completed ==> AnswerOf(s.At(step.p)) == Some(t.finals[id].batch)
  {
    hide DoFinals, MayComplete;
    if step.Finish? {
      CompletedByFinish(s, step.p, step.now, id, t);
    } else {
      OthersComplete(s, step, id);
    }
  }

  lemma CompletedByFinish(s: State, p: P.Proc, now: nat, id: FinId, t: State)
    requires id in s.finals && s.finals[id].claim.status.Active() && t == DoFinals(s, Finish(p, now))
    ensures id in t.finals && (t.finals[id].claim.status == Completed <==> MayComplete(s, p, id, now))
    ensures t.finals[id].claim.status == Completed ==> AnswerOf(s.At(p)) == Some(t.finals[id].batch)
  {
    hide NumberFree;
  }

  lemma OthersComplete(s: State, step: Step, id: FinId)
    requires OfFinals(step) && !step.Finish? && id in s.finals && s.finals[id].claim.status.Active()
    ensures id in DoFinals(s, step).finals && DoFinals(s, step).finals[id].claim.status != Completed
  {
    hide Matches, LargestFinal, BothComplete;
  }

  lemma PublicationCompletesNone(s: State, step: Step, id: FinId)
    requires OfPublication(step) && id in s.finals
    ensures id in DoPublication(s, step).finals
    ensures DoPublication(s, step).finals[id].claim.status == s.finals[id].claim.status && !step.Finish?
  {
  }

  /** What a process about to complete knows. It has finalized its own batch, and that is published if it publishes; or
      it was refused and met a final batch where it noted the refusal, about whose publication it knows nothing. */
  lemma AnsweredIs(s: State, p: P.Proc, id: FinId, now: nat, t: State)
    requires Sound(s) && id in s.finals && MayComplete(s, p, id, now)
    requires t.batches == s.batches && id in t.finals && AnswerOf(s.At(p)) == Some(t.finals[id].batch)
    ensures AsAnswered(s.At(p), id, t)
  {
    hide Sound, NumberFree;
    WorkerIs(s, p);
  }

  /** The attempt is recorded in t under the final batch that worker w was answered with. Unless w was refused, that
      is the batch planned for, published if w publishes. */
  predicate AsAnswered(w: Worker, id: FinId, t: State)
    requires id in t.finals
  {
    && AnswerOf(w) == Some(t.finals[id].batch) && HasFinal(t, t.finals[id].batch)
    && (w.stage.Finished? ==>
          t.finals[id].batch == id.batch && (w.job.publisher ==> t.batches[id.batch].Complete()))
  }

  /** An active finalization attempt is completed by a step exactly when this is the step of the process that holds its
      token, before its lease ends by a clock value that process has read, and its number is free under the final batch
      the process was answered with; it is then recorded under that batch. If the process was not refused, that is
      the batch planned for, and when the process publishes, the publication is complete. */
  lemma FinalizationIsFenced(s: State, step: Step, id: FinId, t: State)
    requires Sound(s) && id in s.finals && s.finals[id].claim.status.Active() && t == Do(s, step)
    ensures id in t.finals
    ensures t.finals[id].claim.status == Completed <==> step.Finish? && MayComplete(s, step.p, id, step.now)
    ensures t.finals[id].claim.status == Completed ==> AsAnswered(s.At(step.p), id, t)
  {
    hide Sound, DoFinals, DoBatches, DoRefusal, DoPublication, Do, MayComplete, OfFinals, OfBatches, OfRefusal,
        OfPublication;
    StepIs(s, step);
    if step.Core? || step.Crash? {
    } else if OfFinals(step) {
      FinalsTouch(s, step);
      CompletedByFinals(s, step, id, t);
      if t.finals[id].claim.status == Completed {
        AnsweredIs(s, step.p, id, step.now, t);
      }
    } else if OfBatches(step) {
      BatchesTouch(s, step);
    } else if OfRefusal(step) {
      RefusalTouches(s, step);
    } else {
      PublicationCompletesNone(s, step, id);
    }
  }
}
