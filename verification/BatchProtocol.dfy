/** Finalizing and publishing as a state machine on top of the partition protocol.
    Again every conditional insert, update or replace, and every read, is one step, and any process may stop
    between two of them. */
module BatchProtocol {
  import opened Wrappers
  import opened Documents
  import opened Batches
  import P = Protocol
  import opened ProtocolInvariant

  /** A finalization claim as the process that made it remembers it. */
  datatype FinClaim = FinClaim(id: FinId, owner: string, token: Token)

  /** One finalization of a batch: under a claim, or called directly; with or without a publisher; by a process of some
      contract versions. */
  datatype Job = Job(claim: Option<FinClaim>, batch: BatchId, publisher: bool, contract: Contract)

  datatype Next = ToWrite(doc: Batch) | ToPublish(seen: Batch)

  datatype Stage =
    | Opening                                  // knows its batch
    | Joining(stock: Partition)                // read the stock partition
    | Paired(stock: Partition, etf: Partition) // read both, and they fit
    | Renewing(next: Next)                     // about to renew its claim before a write
    | Writing(doc: Batch)                      // about to store the final batch
    | Written(doc: Batch, stored: bool)        // stored it, or found a final one in place
    | Viewing(seen: Batch)                     // about to claim the publication it has seen
    | Holding(pub: PubClaim)                   // claimed it, about to renew its finalization claim
    | Armed(pub: PubClaim)                     // about to call the publisher
    | Called(pub: PubClaim, ok: bool)          // about to record what came of it
    | Missed                                   // lost a publication claim, about to look why
    | Refusing(batch: BatchId, doc: Batch)     // will not join, about to look whether that batch is final
    | Noting(batch: BatchId, doc: Batch)       // it was not, about to store the refusal
    | Noted(batch: BatchId)                    // about to read what is stored there now
    | Met(batch: BatchId)                      // that is a final batch: about to complete under it
    | Finished                                 // about to complete its finalization attempt
    | Broken                                   // about to fail it

  datatype Worker =
    | Resting
    | Drafting(batch: BatchId, planned: Material, now: nat)
    | Numbered(batch: BatchId, planned: Material, no: nat, now: nat)
    | Busy(job: Job, stage: Stage)

  datatype State = State(core: P.State, finals: Finals, batches: BatchMap, drawn: nat, workers: map<P.Proc, Worker>)
  {
    function At(p: P.Proc): Worker { if p in workers then workers[p] else Resting }

    function With(p: P.Proc, w: Worker): State { this.(workers := workers[p := w]) }

    function Move(p: P.Proc, stage: Stage): State
      requires At(p).Busy?
    {
      With(p, At(p).(stage := stage))
    }
  }

  datatype Step =
    | Core(step: P.Step)
    | StorePartial(batch: BatchId, status: string, body: string)
    | Plan(p: P.Proc, batch: BatchId, now: nat, contract: Contract)
    | PlanNumber(p: P.Proc, no: nat)
    | PlanInsert(p: P.Proc)
    | ExpireFinal(id: FinId, expected: Expected, now: nat)
    | TakeFinal(p: P.Proc, id: FinId, owner: string, lease: Option<nat>, now: nat, publisher: bool,
                contract: Contract)
    | Direct(p: P.Proc, batch: BatchId, publisher: bool, contract: Contract)
    | ReadStock(p: P.Proc)
    | ReadEtf(p: P.Proc, body: string)
    | Drift(p: P.Proc, batch: BatchId, body: string)
    | Wait(p: P.Proc, status: string, body: string)
    | ReadRefused(p: P.Proc)
    | StoreRefused(p: P.Proc)
    | ReadBack(p: P.Proc)
    | ReadBatch(p: P.Proc, body: string)
    | Renew(p: P.Proc, now: nat)
    | Write(p: P.Proc)
    | ReadWritten(p: P.Proc)
    | ClaimPublication(p: P.Proc, owner: string, now: nat)
    | Call(p: P.Proc, ok: bool)
    | Record(p: P.Proc, now: nat)
    | ReadMissed(p: P.Proc)
    | Finish(p: P.Proc, now: nat)
    | Fail(p: P.Proc)
    | Abandon(p: P.Proc)
    | Crash(p: P.Proc)

  function FinHeld(c: FinClaim, lease: LeaseTest): Expected { HeldBy({Running}, c.owner, c.token, lease) }

  /** The completed partition document of a key. */
  predicate CompleteDoc(s: P.State, key: Option<SelectionKey>, doc: Partition)
  {
    key.Some? && HasComplete(s.store, key.value) && s.store.partitions[key.value] == doc
  }

  predicate BothComplete(s: P.State, b: BatchId)
  {
    b.stock.Some? && b.etf.Some? && HasComplete(s.store, b.stock.value) && HasComplete(s.store, b.etf.value)
  }

  predicate OfFinals(step: Step)
  {
    step.Plan? || step.PlanNumber? || step.PlanInsert? || step.ExpireFinal? || step.TakeFinal? || step.Direct?
    || step.Finish? || step.Fail? || step.Abandon?
  }

  predicate OfBatches(step: Step)
  {
    step.StorePartial? || step.ReadStock? || step.ReadEtf? || step.ReadBatch? || step.Write? || step.ReadWritten?
  }

  predicate OfRefusal(step: Step)
  {
    step.Drift? || step.Wait? || step.ReadRefused? || step.StoreRefused? || step.ReadBack?
  }

  predicate OfPublication(step: Step)
  {
    step.Renew? || step.ClaimPublication? || step.Call? || step.Record? || step.ReadMissed?
  }

  /** The final batch a process was answered with, under which it is about to complete its attempt. */
  function AnswerOf(w: Worker): Option<BatchId>
  {
    match w
    case Busy(job, Finished) => Some(job.batch)
    case Busy(_, Met(batch)) => Some(batch)
    case _ => None
  }

  /** Planning, claiming and ending finalization attempts. A planner goes on whether or not it has seen an active
      attempt, so the runs of this machine include all those in which it does not. */
  ghost function DoFinals(s: State, step: Step): State
    requires OfFinals(step)
  {
    match step
    case Plan(p, b, now, contract) =>
      if s.At(p).Resting? && now <= s.core.clock && BothComplete(s.core, b) then
        var stock, etf := s.core.store.partitions[b.stock.value], s.core.store.partitions[b.etf.value];
        if Fits(b, contract, stock, etf) then s.With(p, Drafting(b, MaterialOf(b, stock, etf), now)) else s
      else s
    case PlanNumber(p, no) =>
      if s.At(p).Drafting? && no > 0 && LargestFinal(s.finals, s.At(p).batch, no - 1)
      then s.With(p, Numbered(s.At(p).batch, s.At(p).planned, no, s.At(p).now)) else s
    case PlanInsert(p) =>
      if s.At(p).Numbered? then
        s.(finals := InsertedFinal(s.finals, FinId(s.At(p).batch, s.At(p).no), s.At(p).planned, s.At(p).now))
         .With(p, Resting)
      else s
    case ExpireFinal(id, e, now) =>
      if P.Expires(e, now) && now <= s.core.clock && e.statuses != {Committing}
      then s.(finals := FinalUpdatedIf(s.finals, id, e, x => ToExpired(x))) else s
    case TakeFinal(p, id, owner, lease, now, publisher, contract) =>
      if s.At(p).Resting? && !Expired(lease, now) && now <= s.core.clock
          && HitsFinal(s.finals, id, Unclaimed(lease)) then
        var token := Token(s.drawn);
        s.(drawn := s.drawn + 1, finals := FinalUpdatedIf(s.finals, id, Unclaimed(lease), x => ToFinalizing(x,
            owner, token, now)))
         .With(p, Busy(Job(Some(FinClaim(id, owner, token)), s.finals[id].batch, publisher, contract), Opening))
      else s
    case Direct(p, b, publisher, contract) =>
      if s.At(p).Resting? then s.With(p, Busy(Job(None, b, publisher, contract), Opening)) else s
    case Finish(p, now) =>
      if s.At(p).Busy? && AnswerOf(s.At(p)).Some? && now <= s.core.clock then
        match s.At(p).job.claim
        case None => s.With(p, Resting)
        case Some(c) =>
          var held, batch := FinHeld(c, LeaseAfter(now)), AnswerOf(s.At(p)).value;
          var t := s.(finals := UpdatedUnder(s.finals, c.id, held, batch, x => ToEnded(x, Completed)));
          if Completable(s.finals, c.id, held, batch) then t.With(p, Resting) else t.Move(p, Broken)
      else s
    case Fail(p) =>
      if s.At(p).Busy? && s.At(p).stage.Broken? then
        match s.At(p).job.claim
        case None => s.With(p, Resting)
        case Some(c) =>
          s.(finals := FinalUpdatedIf(s.finals, c.id, FinHeld(c, AnyLease), x => ToEnded(x, Failed))).With(p, Resting)
      else s
    case Abandon(p) => if s.At(p).Busy? then s.Move(p, Broken) else s
  }

  /** The partitions found, or the order they give, are not those the claimed finalization was planned with. */
  predicate Drifted(s: State, job: Job, stock: Partition, etf: Partition)
  {
    && job.claim.Some? && job.claim.value.id in s.finals
    && s.finals[job.claim.value.id].planned != MaterialOf(job.batch, stock, etf)
  }

  /** Why the partitions found are refused, if they are: the status that says so. */
  function RefusalOf(s: State, job: Job, stock: Partition, etf: Partition): Option<string>
  {
    var drifted := Drifted(s, job, stock, etf);
    if drifted && s.finals[job.claim.value.id].planned.(order := OrderOf(job.batch, stock, etf))
                  != MaterialOf(job.batch, stock, etf) then Some(GENERATION_DRIFT)
    else if !Fits(job.batch, job.contract, stock, etf) then Some(CONTRACT_MISMATCH)
    else if drifted then Some(GENERATION_DRIFT)
    else None
  }

  /** Reading the partitions and storing batches. A partial batch may be stored by anyone at any time. */
  ghost function DoBatches(s: State, step: Step): State
    requires OfBatches(step)
  {
    if step.StorePartial? then
      s.(batches := UpsertedIn(s.batches, step.batch, Partial(step.status, step.body)))
    else if !s.At(step.p).Busy? then s
    else
      var Busy(job, stage) := s.At(step.p);
      var b := job.batch;
      match step
      case ReadStock(p) =>
        if stage.Opening? && b.stock.Some? && HasComplete(s.core.store, b.stock.value)
        then s.Move(p, Joining(s.core.store.partitions[b.stock.value])) else s
      case ReadEtf(p, body) =>
        if stage.Joining? && b.etf.Some? && HasComplete(s.core.store, b.etf.value) then
          var etf := s.core.store.partitions[b.etf.value];
          var refusal := RefusalOf(s, job, stage.stock, etf);
          s.Move(p, if refusal.Some? then Refusing(b, Partial(refusal.value, body)) else Paired(stage.stock, etf))
        else s
      case ReadBatch(p, body) =>
        if stage.Paired? then
          if b in s.batches && s.batches[b].isFinal then
            s.Move(p, if s.batches[b].Complete() || !job.publisher then Finished else Renewing(ToPublish(s.batches[b])))
          else s.Move(p, Renewing(ToWrite(FinalBatch(b, stage.stock, stage.etf, job.publisher, body))))
        else s
      case Write(p) =>
        if stage.Writing? then
          s.(batches := UpsertedIn(s.batches, b, stage.doc)).Move(p, Written(stage.doc, Replaceable(s.batches, b)))
        else s
      case ReadWritten(p) =>
        if stage.Written? && b in s.batches then
          s.Move(p, if !stage.stored && s.batches[b].content != stage.doc.content then Broken
                    else if job.publisher then Viewing(s.batches[b]) else Finished)
        else s
  }

  /** Refusing to join. A claimed finalization may find that the keys of the day name another batch by now; a direct one
      may find a partition incomplete. The refusal is stored under the batch that was found, unless that is final; if a
      final batch takes its place at the last moment, the process is answered with that one. */
  ghost function DoRefusal(s: State, step: Step): State
    requires OfRefusal(step)
  {
    if !s.At(step.p).Busy? then s
    else
      var Busy(job, stage) := s.At(step.p);
      match step
      case Drift(p, other, body) =>
        if stage.Opening? && job.claim.Some? && other != job.batch
        then s.Move(p, Refusing(other, Partial(GENERATION_DRIFT, body))) else s
      case Wait(p, status, body) =>
        if (stage.Opening? || stage.Joining?) && job.claim.None?
        then s.Move(p, Refusing(job.batch, Partial(status, body))) else s
      case ReadRefused(p) =>
        if stage.Refusing? then
          s.Move(p, if Replaceable(s.batches, stage.batch) then Noting(stage.batch, stage.doc) else Broken)
        else s
      case StoreRefused(p) =>
        if stage.Noting? then
          s.(batches := UpsertedIn(s.batches, stage.batch, stage.doc)).Move(p, Noted(stage.batch))
        else s
      case ReadBack(p) =>
        if stage.Noted? then
          s.Move(p, if Replaceable(s.batches, stage.batch) then Broken else Met(stage.batch))
        else s
  }

  /** Renewing the finalization claim, and claiming, calling and recording a publication. */
  ghost function DoPublication(s: State, step: Step): State
    requires OfPublication(step)
  {
    if !s.At(step.p).Busy? then s
    else
      var Busy(job, stage) := s.At(step.p);
      var b := job.batch;
      match step
      case Renew(p, now) =>
        if (stage.Renewing? || stage.Holding?) && now <= s.core.clock then
          var held := job.claim.Some? && HitsFinal(s.finals, job.claim.value.id, FinHeld(job.claim.value,
              LeaseAfter(now)));
          var t := if held then s.(finals := FinalUpdatedIf(s.finals, job.claim.value.id,
                                                            FinHeld(job.claim.value, LeaseAfter(now)),
                                                                x => ToRenewed(x, now)))
                   else s;
          t.Move(p, if job.claim.None? || held then AfterRenewal(stage)
                    else if stage.Holding? then Called(stage.pub, false) else Broken)
        else s
      case ClaimPublication(p, owner, now) =>
        if stage.Viewing? && now <= s.core.clock && stage.seen.publication.Some? then
          var pub := stage.seen.publication.value;
          if pub.status.Complete() then s.Move(p, Finished)
          else if pub.status == Publishing && !Expired(pub.lease, now) then s.Move(p, Broken)
          else
            var c := PubClaim(pub.attemptCount + 1, owner, Token(s.drawn), now + PUBLICATION_TTL);
            s.(drawn := s.drawn + 1, batches := PubUpdatedIf(s.batches, b, AsSeen(pub), x => ToPublishing(x, c)))
             .Move(p, if PubMatches(s.batches, b, AsSeen(pub)) then Holding(c) else Missed)
        else s
      case Call(p, ok) =>
        if stage.Armed? then s.Move(p, Called(stage.pub, ok)) else s
      case Record(p, now) =>
        if stage.Called? && now <= s.core.clock then
          var c, ok := stage.pub, stage.ok;
          s.(batches := PubUpdatedIf(s.batches, b, StillHeld(c), x => ToOutcome(x, c, ok, now)))
           .Move(p, if !ok then Broken else if PubMatches(s.batches, b, StillHeld(c)) then Finished else Missed)
        else s
      case ReadMissed(p) =>
        if stage.Missed? then s.Move(p, if b in s.batches && s.batches[b].Complete() then Finished else Broken) else s
  }

  function AfterRenewal(stage: Stage): Stage
    requires stage.Renewing? || stage.Holding?
  {
    match stage
    case Holding(pub) => Armed(pub)
    case Renewing(ToWrite(doc)) => Writing(doc)
    case Renewing(ToPublish(seen)) => Viewing(seen)
  }

  /** One step. A step that is not enabled changes nothing. */
  ghost function Do(s: State, step: Step): State
  {
    if step.Core? then s.(core := P.Do(s.core, step.step))
    else if step.Crash? then s.With(step.p, Resting)
    else if OfFinals(step) then DoFinals(s, step)
    else if OfBatches(step) then DoBatches(s, step)
    else if OfRefusal(step) then DoRefusal(s, step)
    else DoPublication(s, step)
  }

  ghost function Run(s: State, steps: seq<Step>): State
  {
    if steps == [] then s else Do(Run(s, steps[..|steps| - 1]), steps[|steps| - 1])
  }

  ghost predicate Initial(s: State)
  {
    P.Initial(s.core) && s.finals == map[] && s.batches == map[] && s.workers == map[]
  }
}
