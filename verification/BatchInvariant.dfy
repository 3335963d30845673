/** What every step of finalizing and publishing keeps. */
module BatchInvariant {
  import opened Wrappers
  import opened Documents
  import opened Batches
  import opened BatchProtocol
  import P = Protocol
  import opened ProtocolInvariant

  // ----- how documents may change -----

  /** How a publication record may change: its identity is fixed, a complete one never changes, the attempt count
      never falls, and under one count a claim can only be resolved. */
  predicate PubFollows(a: Publication, b: Publication)
  {
    && b.identity == a.identity
    && (a.status.Complete() ==> b == a)
    && a.attemptCount <= b.attemptCount
    && (a.attemptCount == b.attemptCount ==>
        b == a || (a.status == Publishing && (b.status == Published || b.status == Rejected)))
  }

  /** How a batch may change: a final one only in its publication record. */
  predicate BatchFollows(a: Batch, b: Batch)
  {
    a.Final() ==>
      b.Final() && b.status == a.status && b.content == a.content && b.body == a.body
      && PubFollows(a.publication.value, b.publication.value)
  }

  /** How a finalization attempt may change: once it has ended not at all, and the batch it is recorded under only when
      it completes. */
  predicate FinFollows(a: Finalization, b: Finalization)
  {
    && b.planned == a.planned
    && Follows(a.claim, b.claim)
    && (b.batch != a.batch ==> a.claim.status.Active() && b.claim.status == Completed)
  }

  ghost predicate Evolved(s: State, t: State)
  {
    && Evolves(s.core, t.core)
    && (forall id :: id in s.finals ==> id in t.finals && FinFollows(s.finals[id], t.finals[id]))
    && (forall b :: b in s.batches ==> b in t.batches && BatchFollows(s.batches[b], t.batches[b]))
    && s.drawn <= t.drawn
  }

  lemma EvolvedTransitive(s: State, t: State, u: State)
    requires Evolved(s, t) && Evolved(t, u)
    ensures Evolved(s, u)
  {
    hide Evolves;
    EvolvesTransitive(s.core, t.core, u.core);
    forall id | id in s.finals ensures id in u.finals && FinFollows(s.finals[id], u.finals[id]) {
      assert FinFollows(s.finals[id], t.finals[id]);
      assert FinFollows(t.finals[id], u.finals[id]);
    }
    forall b | b in s.batches ensures b in u.batches && BatchFollows(s.batches[b], u.batches[b]) {
      assert BatchFollows(s.batches[b], t.batches[b]);
      assert BatchFollows(t.batches[b], u.batches[b]);
    }
  }

  // ----- the invariant -----

  predicate PubShape(p: Publication)
  {
    && (p.status == Pending || p.status == NotRequired ==> p.attemptCount == 0)
    && (p.status == Publishing ==> p.owner.Some? && p.token.Some? && p.lease.Some?)
  }

  /** The documents of two keys that belong together. */
  predicate Pair(s: P.State, b: BatchId, stock: Partition, etf: Partition)
  {
    CompleteDoc(s, b.stock, stock) && CompleteDoc(s, b.etf, etf) && Compatible(b, stock, etf)
  }

  /** The document is the final batch of its two completed partitions. */
  predicate Joins(s: P.State, b: BatchId, doc: Batch)
  {
    && doc.Final()
    && BothComplete(s, b)
    && var stock, etf := s.store.partitions[b.stock.value], s.store.partitions[b.etf.value];
    && Compatible(b, stock, etf)
    && doc.status == "completed"
    && doc.content.value == ContentOf(stock, etf)
    && doc.publication.value.identity == IdentityOf(b, stock, etf)
    && PubShape(doc.publication.value)
  }

  predicate BatchOk(s: State, b: BatchId)
    requires b in s.batches
  {
    s.batches[b].isFinal ==> Joins(s.core, b, s.batches[b])
  }

  predicate HasFinal(s: State, b: BatchId)
  {
    b in s.batches && s.batches[b].Final()
  }

  /** A final batch as it is first written. */
  predicate ToBeWritten(s: P.State, b: BatchId, doc: Batch)
  {
    Joins(s, b, doc) && doc.publication.value.attemptCount == 0
  }

  /** The material a finalization was planned with is that of the completed partitions of its batch, and they fit. */
  predicate MaterialOk(s: P.State, b: BatchId, m: Material)
  {
    && BothComplete(s, b)
    && Compatible(b, s.store.partitions[b.stock.value], s.store.partitions[b.etf.value])
    && m == MaterialOf(b, s.store.partitions[b.stock.value], s.store.partitions[b.etf.value])
  }

  /** The attempt was planned for another batch and completed under this one. */
  predicate MovedTo(finals: Finals, id: FinId, batch: BatchId)
  {
    id in finals && id.batch != batch && finals[id].batch == batch && finals[id].claim.status == Completed
  }

  /** The number was planned for the batch, or came to it with an attempt planned for another. */
  predicate Occupied(finals: Finals, batch: BatchId, no: nat)
  {
    exists id :: id in finals && id.no == no && (id.batch == batch || MovedTo(finals, id, batch))
  }

  predicate FinalOk(s: State, id: FinId)
    requires id in s.finals
  {
    var a := s.finals[id].claim;
    && id.no >= 1
    && (id.no > 1 ==> Occupied(s.finals, id.batch, id.no - 1))
    && MaterialOk(s.core, id.batch, s.finals[id].planned)
    && (a.status != Completed ==> s.finals[id].batch == id.batch)
    && (a.token.Some? <==> a.owner.Some?)
    && (a.token.Some? ==> a.token.value.nonce < s.drawn)
    && (a.status == Scheduled ==> a.token.None?)
    && (a.status == Running ==> a.token.Some?)
    && a.status != Committing
    && (a.status.Active() ==> a.lease.Some?)
    && (a.status == Completed ==> HasFinal(s, s.finals[id].batch))
  }

  predicate FinRecorded(s: State, c: FinClaim)
  {
    c.id in s.finals && s.finals[c.id].claim.token == Some(c.token) && s.finals[c.id].claim.owner == Some(c.owner)
  }

  /** The publication claim a process remembers, if any. */
  function PubClaimOf(w: Worker): Option<PubClaim>
  {
    match w
    case Busy(_, Holding(c)) => Some(c)
    case Busy(_, Armed(c)) => Some(c)
    case Busy(_, Called(c, _)) => Some(c)
    case _ => None
  }

  predicate StageOk(s: State, job: Job, stage: Stage)
  {
    match stage
    case Joining(stock) => CompleteDoc(s.core, job.batch.stock, stock)
    case Paired(stock, etf) => Pair(s.core, job.batch, stock, etf)
    case Renewing(ToWrite(doc)) => ToBeWritten(s.core, job.batch, doc)
    case Writing(doc) => ToBeWritten(s.core, job.batch, doc)
    case Written(doc, _) => Joins(s.core, job.batch, doc) && HasFinal(s, job.batch)
    case Renewing(ToPublish(seen)) => seen.Final() && HasFinal(s, job.batch) && BatchFollows(seen, s.batches[job.batch])
    case Viewing(seen) => seen.Final() && HasFinal(s, job.batch) && BatchFollows(seen, s.batches[job.batch])
    case Holding(c) => HasFinal(s, job.batch) && c.count <= s.batches[job.batch].publication.value.attemptCount
    case Armed(c) => HasFinal(s, job.batch) && c.count <= s.batches[job.batch].publication.value.attemptCount
    case Called(c, _) => HasFinal(s, job.batch) && c.count <= s.batches[job.batch].publication.value.attemptCount
    case Missed => HasFinal(s, job.batch)
    case Refusing(_, doc) => !doc.isFinal
    case Noting(_, doc) => !doc.isFinal
    case Met(batch) => HasFinal(s, batch)
    case Finished => HasFinal(s, job.batch) && (job.publisher ==> s.batches[job.batch].Complete())
    case _ => true
  }

  predicate WorkerOk(s: State, w: Worker)
  {
    match w
    case Resting => true
    case Drafting(b, planned, _) => MaterialOk(s.core, b, planned)
    case Numbered(b, planned, no, _) =>
      MaterialOk(s.core, b, planned) && no >= 1 && (no > 1 ==> Occupied(s.finals, b, no - 1))
    case Busy(job, stage) =>
      && (job.claim.Some? ==> FinRecorded(s, job.claim.value) && job.claim.value.id.batch == job.batch)
      && StageOk(s, job, stage)
  }

  /** Two processes with publication claims on one batch hold them under different attempt counts. */
  predicate Apart(v: Worker, w: Worker)
  {
    PubClaimOf(v).Some? && PubClaimOf(w).Some? && v.job.batch == w.job.batch
    ==> PubClaimOf(v).value.count != PubClaimOf(w).value.count
  }

  ghost predicate CountsDistinct(workers: map<P.Proc, Worker>)
  {
    forall p, q :: p in workers && q in workers && p != q ==> Apart(workers[p], workers[q])
  }

  ghost predicate Sound(s: State)
  {
    && Inv(s.core)
    && (forall id :: id in s.finals ==> FinalOk(s, id))
    && (forall b :: b in s.batches ==> BatchOk(s, b))
    && (forall p :: p in s.workers ==> WorkerOk(s, s.workers[p]))
    && CountsDistinct(s.workers)
  }

  lemma InitialSound(s: State)
    requires Initial(s)
    ensures Sound(s)
  {
    InitialInv(s.core);
  }

  // ----- what was true stays true -----

  lemma JoinsStays(s: P.State, t: P.State, b: BatchId, doc: Batch)
    requires Evolves(s, t) && Joins(s, b, doc)
    ensures Joins(t, b, doc)
  {
  }

  lemma OccupiedStays(s: State, t: State, b: BatchId, no: nat)
    requires Evolved(s, t) && Occupied(s.finals, b, no)
    ensures Occupied(t.finals, b, no)
  {
    hide Evolves;
    var id :| id in s.finals && id.no == no && (id.batch == b || MovedTo(s.finals, id, b));
    assert FinFollows(s.finals[id], t.finals[id]);
  }

  /** The number before that of an attempt is occupied. */
  lemma OccupiedBy(s: State, b: BatchId, no: nat)
    requires Sound(s) && HasNumber(s.finals, b, no)
    ensures Occupied(s.finals, b, no)
  {
    hide Inv, BatchOk, WorkerOk, CountsDistinct, MaterialOk;
    var id :| id in s.finals && id.no == no && s.finals[id].batch == b;
    assert FinalOk(s, id);
  }

  lemma FinalOkStays(s: State, t: State, id: FinId)
    requires Evolved(s, t) && id in s.finals && FinalOk(s, id) && t.finals[id] == s.finals[id]
    ensures FinalOk(t, id)
  {
    hide Occupied;
    if s.finals[id].claim.status == Completed {
      assert BatchFollows(s.batches[s.finals[id].batch], t.batches[s.finals[id].batch]);
    }
    if id.no > 1 {
      OccupiedStays(s, t, id.batch, id.no - 1);
    }
  }

  lemma StageOkStays(s: State, t: State, job: Job, stage: Stage)
    requires Evolved(s, t) && StageOk(s, job, stage)
    ensures StageOk(t, job, stage)
  {
    if job.batch in s.batches {
      assert BatchFollows(s.batches[job.batch], t.batches[job.batch]);
    }
    if stage.Met? {
      assert BatchFollows(s.batches[stage.batch], t.batches[stage.batch]);
    }
  }

  lemma WorkerOkStays(s: State, t: State, w: Worker)
    requires Evolved(s, t) && WorkerOk(s, w)
    ensures WorkerOk(t, w)
  {
    hide Occupied;
    if w.Busy? {
      StageOkStays(s, t, w.job, w.stage);
      if w.job.claim.Some? {
        var id := w.job.claim.value.id;
        assert FinFollows(s.finals[id], t.finals[id]);
      }
    } else if w.Numbered? && w.no > 1 {
      OccupiedStays(s, t, w.batch, w.no - 1);
    }
  }

  /** The invariant after a change, from what changed. */
  lemma Kept(s: State, t: State)
    requires Sound(s) && Evolved(s, t) && Inv(t.core)
    requires forall id :: id in t.finals ==> (id in s.finals && t.finals[id] == s.finals[id]) || FinalOk(t, id)
    requires forall b :: b in t.batches ==> (b in s.batches && t.batches[b] == s.batches[b]) || BatchOk(t, b)
    requires forall p :: p in t.workers ==>
        (p in s.workers && t.workers[p] == s.workers[p]) || WorkerOk(t, t.workers[p])
    requires CountsDistinct(t.workers)
    ensures Sound(t)
  {
    forall id | id in t.finals ensures FinalOk(t, id) {
      if id in s.finals && t.finals[id] == s.finals[id] {
        FinalOkStays(s, t, id);
      }
    }
    forall b | b in t.batches ensures BatchOk(t, b) {
      if b in s.batches && t.batches[b] == s.batches[b] && s.batches[b].isFinal {
        assert BatchOk(s, b);
        JoinsStays(s.core, t.core, b, s.batches[b]);
      }
    }
    forall p | p in t.workers ensures WorkerOk(t, t.workers[p]) {
      if p in s.workers && t.workers[p] == s.workers[p] {
        WorkerOkStays(s, t, s.workers[p]);
      }
    }
  }

  lemma Same(s: State)
    requires Sound(s)
    ensures Evolved(s, s)
  {
    hide Inv, Evolves, FinalOk, BatchOk, WorkerOk, CountsDistinct;
    ProtocolInvariant.Unchanged(s.core);
  }

  lemma WorkerIs(s: State, p: P.Proc)
    requires Sound(s)
    ensures WorkerOk(s, s.At(p))
  {
  }

  lemma FinalIs(s: State, id: FinId)
    requires Sound(s) && id in s.finals
    ensures FinalOk(s, id)
  {
  }

  lemma BatchIs(s: State, b: BatchId)
    requires Sound(s) && b in s.batches
    ensures BatchOk(s, b)
  {
  }

  /** A process that moves on without taking a publication claim it did not have. */
  lemma MoveOnly(s: State, p: P.Proc, w: Worker)
    requires Sound(s) && WorkerOk(s, w)
    requires PubClaimOf(w).None? || (s.At(p).Busy? && w.Busy? && w.job == s.At(p).job
        && PubClaimOf(w) == PubClaimOf(s.At(p)))
    ensures Sound(s.With(p, w)) && Evolved(s, s.With(p, w))
  {
    hide Inv, Evolves, FinalOk, BatchOk, WorkerOk, Evolved;
    forall q | q in s.workers && q != p ensures Apart(w, s.workers[q]) && Apart(s.workers[q], w) {
      if PubClaimOf(w).Some? {
        assert Apart(s.workers[p], s.workers[q]) && Apart(s.workers[q], s.workers[p]);
      }
    }
    OneMoves(s, p, w);
  }

  /** A conditional update of one finalization attempt. */
  lemma FinalOnly(s: State, id: FinId, f: Finalization)
    requires Sound(s) && id in s.finals && FinFollows(s.finals[id], f)
    requires FinalOk(s.(finals := s.finals[id := f]), id)
    ensures var t := s.(finals := s.finals[id := f]); Sound(t) && Evolved(s, t)
  {
    hide Inv, Evolves, FinalOk, BatchOk, WorkerOk, CountsDistinct;
    var t := s.(finals := s.finals[id := f]);
    Same(s);
    assert Evolved(s, t);
    Kept(s, t);
  }

  lemma NewFinalOk(t: State, id: FinId, m: Material, now: nat)
    requires id in t.finals && t.finals[id] == Finalization(id.batch, m, NewAttempt(now))
    requires id.no >= 1 && MaterialOk(t.core, id.batch, m) && (id.no > 1 ==> Occupied(t.finals, id.batch, id.no - 1))
    ensures FinalOk(t, id)
  {
  }

  /** A new finalization attempt, planned. */
  lemma NewFinal(s: State, id: FinId, m: Material, now: nat)
    requires Sound(s) && id !in s.finals && id.no >= 1 && MaterialOk(s.core, id.batch, m)
    requires id.no > 1 ==> Occupied(s.finals, id.batch, id.no - 1)
    ensures var t := s.(finals := s.finals[id := Finalization(id.batch, m, NewAttempt(now))]); Sound(t) && Evolved(s, t)
  {
    hide Inv, Evolves, FinalOk, BatchOk, WorkerOk, CountsDistinct, MaterialOk, Occupied;
    var t := s.(finals := s.finals[id := Finalization(id.batch, m, NewAttempt(now))]);
    Same(s);
    assert Evolved(s, t);
    if id.no > 1 {
      OccupiedStays(s, t, id.batch, id.no - 1);
    }
    NewFinalOk(t, id, m, now);
    Kept(s, t);
  }

  /** A token is drawn. */
  lemma DrawOne(s: State)
    requires Sound(s)
    ensures var t := s.(drawn := s.drawn + 1); Sound(t) && Evolved(s, t)
  {
    hide Inv, Evolves, FinalOk, BatchOk, WorkerOk, CountsDistinct;
    var t := s.(drawn := s.drawn + 1);
    Same(s);
    assert Evolved(s, t);
    Kept(s, t);
  }

  /** A change of one batch document. */
  lemma BatchOnly(s: State, b: BatchId, doc: Batch)
    requires Sound(s) && (b in s.batches ==> BatchFollows(s.batches[b], doc))
    requires BatchOk(s.(batches := s.batches[b := doc]), b)
    ensures var t := s.(batches := s.batches[b := doc]); Sound(t) && Evolved(s, t)
  {
    hide Inv, Evolves, FinalOk, BatchOk, WorkerOk, CountsDistinct;
    var t := s.(batches := s.batches[b := doc]);
    Same(s);
    assert Evolved(s, t);
    Kept(s, t);
  }

  // ----- every step -----

  lemma CoreKeeps(s: State, step: P.Step)
    requires Sound(s)
    ensures var t := Do(s, Core(step)); Sound(t) && Evolved(s, t)
  {
    hide Inv, Evolves, FinalOk, BatchOk, WorkerOk, CountsDistinct, P.Do;
    StepKeeps(s.core, step);
    Same(s);
    var t := s.(core := P.Do(s.core, step));
    assert Evolved(s, t);
    Kept(s, t);
  }

  lemma PlanKeeps(s: State, step: Step)
    requires Sound(s) && (step.Plan? || step.PlanNumber? || step.PlanInsert? || step.Direct? || step.Abandon?)
    ensures var t := DoFinals(s, step); Sound(t) && Evolved(s, t)
  {
    hide Sound, Inv, Evolves, Evolved, CountsDistinct;
    Same(s);
    var t := DoFinals(s, step);
    var p := step.p;
    WorkerIs(s, p);
    if step.PlanInsert? && s.At(p).Numbered? {
      var id := FinId(s.At(p).batch, s.At(p).no);
      var m := s.(finals := InsertedFinal(s.finals, id, s.At(p).planned, s.At(p).now));
      if Insertable(s.finals, id) {
        NewFinal(s, id, s.At(p).planned, s.At(p).now);
      }
      MoveOnly(m, p, Resting);
      EvolvedTransitive(s, m, t);
    } else if t != s {
      if step.PlanNumber? && step.no > 1 {
        OccupiedBy(s, s.At(p).batch, step.no - 1);
      }
      MoveOnly(s, p, t.At(p));
    }
  }

  lemma ExpireKeeps(s: State, step: Step)
    requires Sound(s) && step.ExpireFinal?
    ensures var t := DoFinals(s, step); Sound(t) && Evolved(s, t)
  {
    hide Sound, Inv, Evolves, Evolved, CountsDistinct;
    Same(s);
    if P.Expires(step.expected, step.now) && HitsFinal(s.finals, step.id, step.expected)
        && step.expected.statuses != {Committing} {
      FinalIs(s, step.id);
      FinalOnlyEnds(s, step.id, s.finals[step.id].(claim := ToExpired(s.finals[step.id].claim)));
    }
  }

  /** Ending an active finalization attempt, under the batch it has or another final one. */
  lemma FinalOnlyEnds(s: State, id: FinId, f: Finalization)
    requires Sound(s) && id in s.finals && s.finals[id].claim.status.Active()
    requires f.planned == s.finals[id].planned && !f.claim.status.Active()
    requires f.claim.token == s.finals[id].claim.token && f.claim.owner == s.finals[id].claim.owner
    requires if f.claim.status == Completed then HasFinal(s, f.batch) else f.batch == s.finals[id].batch
    ensures var t := s.(finals := s.finals[id := f]); Sound(t) && Evolved(s, t)
  {
    hide Sound, Inv, Evolves, Evolved, CountsDistinct, Occupied;
    FinalIs(s, id);
    if id.no > 1 {
      OccupiedBeside(s, id, f);
    }
    FinalOnly(s, id, f);
  }

  lemma OccupiedBeside(s: State, id: FinId, f: Finalization)
    requires id in s.finals && id.no > 1 && Occupied(s.finals, id.batch, id.no - 1)
    ensures Occupied(s.finals[id := f], id.batch, id.no - 1)
  {
    var j :| j in s.finals && j.no == id.no - 1 && (j.batch == id.batch || MovedTo(s.finals, j, id.batch));
    assert j in s.finals[id := f] && (j.batch == id.batch || MovedTo(s.finals[id := f], j, id.batch));
  }

  lemma TakeKeeps(s: State, step: Step)
    requires Sound(s) && step.TakeFinal?
    ensures var t := DoFinals(s, step); Sound(t) && Evolved(s, t)
  {
    hide Sound, Inv, Evolves, Evolved, CountsDistinct;
    Same(s);
    var TakeFinal(p, id, owner, lease, now, publisher, contract) := step;
    if s.At(p).Resting? && !Expired(lease, now) && now <= s.core.clock && HitsFinal(s.finals, id, Unclaimed(lease)) {
      var token := Token(s.drawn);
      FinalIs(s, id);
      var d := s.(drawn := s.drawn + 1);
      DrawOne(s);
      FinalIs(d, id);
      var f := s.finals[id].(claim := ToFinalizing(s.finals[id].claim, owner, token, now));
      var m := d.(finals := s.finals[id := f]);
      if id.no > 1 {
        OccupiedBeside(s, id, f);
      }
      FinalOnly(d, id, f);
      var w := Busy(Job(Some(FinClaim(id, owner, token)), id.batch, publisher, contract), Opening);
      MoveOnly(m, p, w);
      EvolvedTransitive(s, d, m);
      EvolvedTransitive(s, m, m.With(p, w));
      assert DoFinals(s, step) == m.With(p, w);
    }
  }

  lemma EndKeeps(s: State, step: Step)
    requires Sound(s) && (step.Finish? || step.Fail?)
    ensures var t := DoFinals(s, step); Sound(t) && Evolved(s, t)
  {
    hide Sound, Inv, Evolves, Evolved, CountsDistinct;
    Same(s);
    var p, w := step.p, s.At(step.p);
    var t := DoFinals(s, step);
    if t != s {
      WorkerIs(s, p);
      var m := s.(finals := t.finals);
      if w.job.claim.Some? {
        var c := w.job.claim.value;
        if t.finals != s.finals {
          FinalOnlyEnds(s, c.id, t.finals[c.id]);
        }
      }
      WorkerOkStays(s, m, w);
      MoveOnly(m, p, t.At(p));
      EvolvedTransitive(s, m, t);
    }
  }

  lemma BatchStepKeeps(s: State, step: Step)
    requires Sound(s) && OfBatches(step) && !step.StorePartial? && !step.Write?
    ensures var t := DoBatches(s, step); Sound(t) && Evolved(s, t)
  {
    hide Sound, Inv, Evolves, Evolved, CountsDistinct, FinRecorded, Drifted, MaterialOf, OrderOf;
    Same(s);
    var p := step.p;
    var t := DoBatches(s, step);
    if t != s {
      WorkerIs(s, p);
      if s.At(p).job.batch in s.batches {
        BatchIs(s, s.At(p).job.batch);
      }
      MoveOnly(s, p, t.At(p));
    }
  }

  lemma WriteKeeps(s: State, step: Step)
    requires Sound(s) && (step.StorePartial? || step.Write?)
    ensures var t := DoBatches(s, step); Sound(t) && Evolved(s, t)
  {
    hide Sound, Inv, Evolves, Evolved, CountsDistinct;
    Same(s);
    if step.StorePartial? {
      if Replaceable(s.batches, step.batch) {
        BatchOnly(s, step.batch, Partial(step.status, step.body));
      }
    } else if s.At(step.p).Busy? && s.At(step.p).stage.Writing? {
      var p, w := step.p, s.At(step.p);
      var b, doc := w.job.batch, w.stage.doc;
      WorkerIs(s, p);
      var m := s.(batches := UpsertedIn(s.batches, b, doc));
      if Replaceable(s.batches, b) {
        BatchOnly(s, b, doc);
      } else {
        BatchIs(s, b);
      }
      WorkerOkStays(s, m, w);
      var v := w.(stage := Written(doc, Replaceable(s.batches, b)));
      MoveOnly(m, p, v);
      EvolvedTransitive(s, m, m.With(p, v));
      assert DoBatches(s, step) == m.With(p, v);
    }
  }

  lemma RefusalKeeps(s: State, step: Step)
    requires Sound(s) && OfRefusal(step)
    ensures var t := DoRefusal(s, step); Sound(t) && Evolved(s, t)
  {
    hide *;
    if step.StoreRefused? {
      StoreRefusedKeeps(s, step);
    } else {
      ReadRefusedKeeps(s, step);
    }
  }

  lemma StoreRefusedKeeps(s: State, step: Step)
    requires Sound(s) && step.StoreRefused?
    ensures var t := DoRefusal(s, step); Sound(t) && Evolved(s, t)
  {
    hide Sound, Inv, Evolves, Evolved, CountsDistinct, FinRecorded, Joins;
    Same(s);
    var p, w := step.p, s.At(step.p);
    if w.Busy? && w.stage.Noting? {
      WorkerIs(s, p);
      var m := s.(batches := UpsertedIn(s.batches, w.stage.batch, w.stage.doc));
      if Replaceable(s.batches, w.stage.batch) {
        BatchOnly(s, w.stage.batch, w.stage.doc);
      }
      WorkerOkStays(s, m, w);
      var v := w.(stage := Noted(w.stage.batch));
      MoveOnly(m, p, v);
      EvolvedTransitive(s, m, m.With(p, v));
      assert DoRefusal(s, step) == m.With(p, v);
    }
  }

  lemma FinalThere(s: State, b: BatchId)
    requires Sound(s) && b in s.batches && s.batches[b].isFinal
    ensures HasFinal(s, b)
  {
    assert BatchOk(s, b);
  }

  lemma ReadRefusedKeeps(s: State, step: Step)
    requires Sound(s) && OfRefusal(step) && !step.StoreRefused?
    ensures var t := DoRefusal(s, step); Sound(t) && Evolved(s, t)
  {
    hide Sound, Inv, Evolves, Evolved, CountsDistinct, FinRecorded, HasFinal;
    Same(s);
    var p, w := step.p, s.At(step.p);
    var t := DoRefusal(s, step);
    if t != s {
      WorkerIs(s, p);
      if step.ReadBack? && !Replaceable(s.batches, w.stage.batch) {
        FinalThere(s, w.stage.batch);
      }
      MoveOnly(s, p, t.At(p));
    }
  }

  lemma RenewKeeps(s: State, step: Step)
    requires Sound(s) && step.Renew?
    ensures var t := DoPublication(s, step); Sound(t) && Evolved(s, t)
  {
    hide Sound, Inv, Evolves, Evolved, CountsDistinct;
    Same(s);
    var p, w := step.p, s.At(step.p);
    var t := DoPublication(s, step);
    if t != s {
      WorkerIs(s, p);
      var m := s.(finals := t.finals);
      if w.job.claim.Some? && HitsFinal(s.finals, w.job.claim.value.id, FinHeld(w.job.claim.value,
          LeaseAfter(step.now))) {
        var id := w.job.claim.value.id;
        FinalIs(s, id);
        var f := s.finals[id].(claim := ToRenewed(s.finals[id].claim, step.now));
        if id.no > 1 {
          OccupiedBeside(s, id, f);
        }
        FinalOnly(s, id, f);
      }
      WorkerOkStays(s, m, w);
      MoveOnly(m, p, t.At(p));
      EvolvedTransitive(s, m, t);
    }
  }

  lemma ReadKeeps(s: State, step: Step)
    requires Sound(s) && (step.Call? || step.ReadMissed?)
    ensures var t := DoPublication(s, step); Sound(t) && Evolved(s, t)
  {
    hide Sound, Inv, Evolves, Evolved, CountsDistinct;
    Same(s);
    var p := step.p;
    var t := DoPublication(s, step);
    if t != s {
      WorkerIs(s, p);
      if s.At(p).job.batch in s.batches {
        BatchIs(s, s.At(p).job.batch);
      }
      MoveOnly(s, p, t.At(p));
    }
  }

  /** The counts of the publication claims on a batch do not exceed its attempt count. */
  lemma ClaimsBelow(s: State, p: P.Proc, b: BatchId)
    requires Sound(s) && s.At(p).Busy? && s.At(p).job.batch == b && PubClaimOf(s.At(p)).Some?
    ensures HasFinal(s, b) && PubClaimOf(s.At(p)).value.count <= s.batches[b].publication.value.attemptCount
  {
    hide Inv, Evolves, FinalOk, BatchOk, CountsDistinct;
    WorkerIs(s, p);
  }

  /** A process that takes a publication claim under the next attempt count. */
  lemma TakePublication(s: State, p: P.Proc, c: PubClaim)
    requires Sound(s) && s.At(p).Busy? && WorkerOk(s, s.At(p))
    requires HasFinal(s, s.At(p).job.batch)
    requires PubFollows(s.batches[s.At(p).job.batch].publication.value,
                        ToPublishing(s.batches[s.At(p).job.batch].publication.value, c))
    requires c.count == s.batches[s.At(p).job.batch].publication.value.attemptCount + 1
    ensures var b := s.At(p).job.batch;
            var pub := s.batches[b].publication.value;
            var t := s.(batches := s.batches[b := s.batches[b].(publication := Some(ToPublishing(pub,
                c)))]).Move(p, Holding(c));
            Sound(t) && Evolved(s, t)
  {
    hide Inv, Evolves, FinalOk, CountsDistinct, Sound, Evolved;
    var w := s.At(p);
    var b := w.job.batch;
    BatchIs(s, b);
    var doc := s.batches[b].(publication := Some(ToPublishing(s.batches[b].publication.value, c)));
    BatchOnly(s, b, doc);
    var m := s.(batches := s.batches[b := doc]);
    WorkerOkStays(s, m, w);
    var v := w.(stage := Holding(c));
    var t := m.With(p, v);
    forall q | q in s.workers && q != p ensures Apart(v, s.workers[q]) && Apart(s.workers[q], v) {
      if PubClaimOf(s.workers[q]).Some? && s.workers[q].job.batch == b {
        ClaimsBelow(s, q, b);
      }
    }
    OneMoves(m, p, v);
    EvolvedTransitive(s, m, t);
  }

  /** A process that moves on to a claim apart from all others. */
  lemma OneMoves(s: State, p: P.Proc, v: Worker)
    requires Sound(s) && WorkerOk(s, v)
    requires forall q :: q in s.workers && q != p ==> Apart(v, s.workers[q]) && Apart(s.workers[q], v)
    ensures Sound(s.With(p, v)) && Evolved(s, s.With(p, v))
  {
    hide Inv, Evolves, FinalOk, BatchOk, WorkerOk, Apart;
    var t := s.With(p, v);
    Same(s);
    assert Evolved(s, t);
    WorkerOkStays(s, t, v);
    Kept(s, t);
  }

  lemma ClaimKeeps(s: State, step: Step)
    requires Sound(s) && step.ClaimPublication?
    ensures var t := DoPublication(s, step); Sound(t) && Evolved(s, t)
  {
    hide Sound, Inv, Evolves, Evolved, CountsDistinct, FinalOk, FinRecorded;
    Same(s);
    var p, w := step.p, s.At(step.p);
    var t := DoPublication(s, step);
    WorkerIs(s, p);
    if w.Busy? && w.stage.Viewing? && step.now <= s.core.clock {
      var b := w.job.batch;
      var pub := w.stage.seen.publication.value;
      if pub.status.Complete() || (pub.status == Publishing && !Expired(pub.lease, step.now)) {
        MoveOnly(s, p, t.At(p));
      } else {
        var d := s.(drawn := s.drawn + 1);
        DrawOne(s);
        WorkerOkStays(s, d, w);
        if PubMatches(s.batches, b, AsSeen(pub)) {
          TakePublication(d, p, PubClaim(pub.attemptCount + 1, step.owner, Token(s.drawn), step.now + PUBLICATION_TTL));
        } else {
          MoveOnly(d, p, w.(stage := Missed));
        }
        EvolvedTransitive(s, d, t);
      }
    }
  }

  lemma RecordKeeps(s: State, step: Step)
    requires Sound(s) && step.Record?
    ensures var t := DoPublication(s, step); Sound(t) && Evolved(s, t)
  {
    hide Sound, Inv, Evolves, Evolved, CountsDistinct, FinalOk;
    Same(s);
    var p, w := step.p, s.At(step.p);
    var t := DoPublication(s, step);
    WorkerIs(s, p);
    if w.Busy? && w.stage.Called? && step.now <= s.core.clock {
      var b, c := w.job.batch, w.stage.pub;
      BatchIs(s, b);
      var m := s.(batches := t.batches);
      if PubMatches(s.batches, b, StillHeld(c)) {
        BatchOnly(s, b, s.batches[b].(publication := Some(ToOutcome(s.batches[b].publication.value, c, w.stage.ok,
            step.now))));
      }
      WorkerOkStays(s, m, w);
      MoveOnly(m, p, t.At(p));
      EvolvedTransitive(s, m, t);
    }
  }

  /** Every step keeps the invariant and changes documents only as they may change. */
  lemma EveryStep(s: State, step: Step)
    requires Sound(s)
    ensures Sound(Do(s, step)) && Evolved(s, Do(s, step))
  {
    hide Sound, Evolved, DoFinals, DoBatches, DoRefusal, DoPublication;
    match step
    case Core(inner) => CoreKeeps(s, inner);
    case Crash(p) => MoveOnly(s, p, Resting);
    case ExpireFinal(_, _, _) => ExpireKeeps(s, step);
    case TakeFinal(_, _, _, _, _, _, _) => TakeKeeps(s, step);
    case Finish(_, _) => EndKeeps(s, step);
    case Fail(_) => EndKeeps(s, step);
    case StorePartial(_, _, _) => WriteKeeps(s, step);
    case Write(_) => WriteKeeps(s, step);
    case ReadStock(_) => BatchStepKeeps(s, step);
    case ReadEtf(_, _) => BatchStepKeeps(s, step);
    case ReadBatch(_, _) => BatchStepKeeps(s, step);
    case ReadWritten(_) => BatchStepKeeps(s, step);
    case Drift(_, _, _) => RefusalKeeps(s, step);
    case Wait(_, _, _) => RefusalKeeps(s, step);
    case ReadRefused(_) => RefusalKeeps(s, step);
    case StoreRefused(_) => RefusalKeeps(s, step);
    case ReadBack(_) => RefusalKeeps(s, step);
    case Renew(_, _) => RenewKeeps(s, step);
    case ClaimPublication(_, _, _) => ClaimKeeps(s, step);
    case Call(_, _) => ReadKeeps(s, step);
    case ReadMissed(_) => ReadKeeps(s, step);
    case Record(_, _) => RecordKeeps(s, step);
    case _ => PlanKeeps(s, step);
  }
}
