/** What every step of the partition protocol keeps, and what therefore holds of every run. */
module ProtocolInvariant {
  import opened Wrappers
  import opened Documents
  import opened Protocol

  // ----- how documents may change -----

  function Rank(s: Status): nat
  {
    match s
    case Scheduled => 0
    case Running => 1
    case Committing => 2
    case _ => 3
  }

  /** How one attempt may change: an ended attempt never does, a claim is made at most once and keeps its
      token and owner, and the status only moves forward. */
  predicate Follows(a: Attempt, b: Attempt)
  {
    && (!a.status.Active() ==> b == a)
    && (a.token.Some? ==> b.token == a.token && b.owner == a.owner)
    && (a.token.None? && b.token.Some? ==> a.status == Scheduled)
    && Rank(a.status) <= Rank(b.status)
  }

  /** How the store may change: attempts follow, completed partition documents stay as they are, no incomplete one is
      written, rows stay, and time and tokens only move forward. */
  ghost predicate Evolves(s: State, t: State)
  {
    && (forall id :: id in s.store.attempts ==>
        id in t.store.attempts && Follows(s.store.attempts[id], t.store.attempts[id]))
    && (forall key :: HasComplete(s.store, key) ==>
        HasComplete(t.store, key) && t.store.partitions[key] == s.store.partitions[key])
    && (forall key :: key in s.store.partitions ==> key in t.store.partitions)
    && (forall key :: key in t.store.partitions && !HasComplete(t.store, key) ==>
          key in s.store.partitions && t.store.partitions[key] == s.store.partitions[key])
    && s.store.memberships <= t.store.memberships
    && s.store.snapshots <= t.store.snapshots
    && s.store.stats <= t.store.stats
    && s.clock <= t.clock
    && s.issued <= t.issued
  }

  lemma EvolvesTransitive(s: State, t: State, u: State)
    requires Evolves(s, t) && Evolves(t, u)
    ensures Evolves(s, u)
  {
    forall id | id in s.store.attempts
      ensures id in u.store.attempts && Follows(s.store.attempts[id], u.store.attempts[id])
    {
      assert Follows(s.store.attempts[id], t.store.attempts[id]);
      assert Follows(t.store.attempts[id], u.store.attempts[id]);
    }
    forall key | HasComplete(s.store, key)
      ensures HasComplete(u.store, key) && u.store.partitions[key] == s.store.partitions[key]
    {
      assert HasComplete(t.store, key);
    }
  }

  // ----- the invariant -----

  /** A completed partition document is backed: the attempt it names completed by authorizing exactly it,
      under the token it names, and all its rows are stored. */
  predicate Sealed(s: State, doc: Partition)
  {
    && doc.Complete()
    && doc.id == PartitionId(doc.key, doc.content)
    && RowsStored(s.store, doc)
    && var seal := doc.commit.value;
    && seal.attempt.key == doc.key
    && Authorizes(s.store, seal.attempt)
    && s.store.attempts[seal.attempt].result.value.partition == doc
    && s.store.attempts[seal.attempt].token == Some(seal.token)
  }

  predicate AttemptOk(s: State, id: AttemptId)
    requires id in s.store.attempts
  {
    var a := s.store.attempts[id];
    && id.no >= 1
    && (id.no > 1 ==> AttemptId(id.key, id.no - 1) in s.store.attempts)
    && (a.token.Some? <==> a.owner.Some?)
    && (a.token.Some? ==> a.token.value.nonce < s.issued)
    && (a.status == Scheduled ==> a.token.None?)
    && (a.status == Running || a.status == Committing ==> a.token.Some?)
    && (a.status.Active() ==> a.lease.Some?)
    && (a.result.Some? ==>
          && a.status == Completed
          && a.token == Some(a.result.value.token)
          && a.result.value.partition.key == id.key
          && Sealed(s, a.result.value.partition))
  }

  predicate PartitionOk(s: State, key: SelectionKey)
    requires key in s.store.partitions
  {
    var doc := s.store.partitions[key];
    doc.key == key && (doc.Complete() ==> Sealed(s, doc))
  }

  predicate LocalOk(s: State, l: Local)
  {
    match l
    case Idle => true
    case SeekingAuthorized(_, _) => true
    case SeekingActive(_) => true
    case Overtaken(_) => true
    case Checked(_, _) => true
    case Answered(_) => true
    case Planning(key, no, now) => no >= 1 && (no > 1 ==> AttemptId(key, no - 1) in s.store.attempts)
    case Working(c) => Recorded(s, c)
    case Failing(c) => Recorded(s, c)
    case InCommit(c, part, phase) =>
      && Recorded(s, c)
      && part.key == c.id.key && part.id == PartitionId(part.key, part.content) && part.finished && part.commit.None?
      && (phase.Adopting? ==> HasComplete(s.store, part.key) && s.store.partitions[part.key] == phase.found)
    case Persisting(doc, _) => Sealed(s, doc)
  }

  /** No two attempts share a claim token. */
  ghost predicate TokensDistinct(attempts: Attempts)
  {
    forall i, j ::
      i in attempts && j in attempts && attempts[i].token.Some? && attempts[i].token == attempts[j].token ==> i == j
  }

  ghost predicate Inv(s: State)
  {
    && (forall id :: id in s.store.attempts ==> AttemptOk(s, id))
    && (forall key :: key in s.store.partitions ==> PartitionOk(s, key))
    && (forall p :: p in s.procs ==> LocalOk(s, s.procs[p]))
    && TokensDistinct(s.store.attempts)
  }

  lemma InitialInv(s: State)
    requires Initial(s)
    ensures Inv(s)
  {
  }

  // ----- what was true of a document stays true -----

  lemma SealedStays(s: State, t: State, doc: Partition)
    requires Evolves(s, t) && Sealed(s, doc)
    ensures Sealed(t, doc)
  {
    var author := doc.commit.value.attempt;
    assert Follows(s.store.attempts[author], t.store.attempts[author]);
  }

  lemma AttemptOkStays(s: State, t: State, id: AttemptId)
    requires Evolves(s, t) && id in s.store.attempts && AttemptOk(s, id)
    requires t.store.attempts[id] == s.store.attempts[id]
    ensures AttemptOk(t, id)
  {
    if s.store.attempts[id].result.Some? {
      SealedStays(s, t, s.store.attempts[id].result.value.partition);
    }
  }

  lemma LocalOkStays(s: State, t: State, l: Local)
    requires Evolves(s, t) && LocalOk(s, l)
    ensures LocalOk(t, l)
  {
    if ClaimOf(l).Some? {
      var id := ClaimOf(l).value.id;
      assert Follows(s.store.attempts[id], t.store.attempts[id]);
    }
    if l.Persisting? {
      SealedStays(s, t, l.doc);
    }
    if l.InCommit? && l.phase.Adopting? {
      assert HasComplete(s.store, l.part.key);
    }
  }

  /** The invariant after a change, from what changed. */
  lemma Preserved(s: State, t: State)
    requires Inv(s) && Evolves(s, t)
    requires forall id :: id in t.store.attempts ==>
               (id in s.store.attempts && t.store.attempts[id] == s.store.attempts[id]) || AttemptOk(t, id)
    requires forall key :: key in t.store.partitions ==>
               (key in s.store.partitions && t.store.partitions[key] == s.store.partitions[key]) || PartitionOk(t, key)
    requires forall p :: p in t.procs ==> (p in s.procs && t.procs[p] == s.procs[p]) || LocalOk(t, t.procs[p])
    requires TokensDistinct(t.store.attempts)
    ensures Inv(t)
  {
    forall id | id in t.store.attempts ensures AttemptOk(t, id) {
      if id in s.store.attempts && t.store.attempts[id] == s.store.attempts[id] {
        AttemptOkStays(s, t, id);
      }
    }
    forall key | key in t.store.partitions ensures PartitionOk(t, key) {
      if key in s.store.partitions && t.store.partitions[key] == s.store.partitions[key] {
        assert PartitionOk(s, key);
        if s.store.partitions[key].Complete() {
          SealedStays(s, t, s.store.partitions[key]);
        }
      }
    }
    forall p | p in t.procs ensures LocalOk(t, t.procs[p]) {
      if p in s.procs && t.procs[p] == s.procs[p] {
        LocalOkStays(s, t, s.procs[p]);
      }
    }
  }

  /** A change of one process's memory alone. */
  lemma LocalStep(s: State, p: Proc, l: Local)
    requires Inv(s) && LocalOk(s, l)
    ensures Inv(s.With(p, l)) && Evolves(s, s.With(p, l))
  {
    var t := s.With(p, l);
    LocalOkStays(s, t, l);
    Preserved(s, t);
  }

  /** A conditional update of one attempt, together with a change of one process's memory. */
  lemma AttemptStep(s: State, t: State, id: AttemptId, b: Attempt, p: Proc, l: Local)
    requires Inv(s) && id in s.store.attempts && Follows(s.store.attempts[id], b)
    requires t == s.(issued := t.issued).WithAttempts(s.store.attempts[id := b]).With(p, l) && s.issued <= t.issued
    requires b.token == s.store.attempts[id].token || (b.token.Some? && b.token.value.nonce >= s.issued)
    requires AttemptOk(t, id) && LocalOk(t, l)
    ensures Inv(t) && Evolves(s, t)
  {
    hide PartitionOk, LocalOk, RowsStored;
    Preserved(s, t);
  }

  lemma AttemptIs(s: State, id: AttemptId)
    requires Inv(s) && id in s.store.attempts
    ensures AttemptOk(s, id)
  {
  }

  lemma PartitionIs(s: State, key: SelectionKey)
    requires Inv(s) && key in s.store.partitions
    ensures PartitionOk(s, key)
  {
  }

  lemma LocalIs(s: State, p: Proc)
    requires Inv(s)
    ensures LocalOk(s, s.At(p))
  {
  }

  lemma Unchanged(s: State)
    requires Inv(s)
    ensures Evolves(s, s)
  {
  }

  /** An attempt that is updated without touching any process's memory. */
  lemma AttemptOnly(s: State, id: AttemptId, b: Attempt)
    requires Inv(s) && id in s.store.attempts && Follows(s.store.attempts[id], b)
    requires b.token == s.store.attempts[id].token
    requires AttemptOk(s.WithAttempts(s.store.attempts[id := b]), id)
    ensures Inv(s.WithAttempts(s.store.attempts[id := b])) && Evolves(s, s.WithAttempts(s.store.attempts[id := b]))
  {
    Preserved(s, s.WithAttempts(s.store.attempts[id := b]));
  }

  // ----- planning -----

  /** The next free number directly follows the numbers in use. */
  lemma NewAttemptStep(s: State, id: AttemptId, now: nat)
    requires Inv(s) && id !in s.store.attempts && id.no >= 1
    requires id.no > 1 ==> AttemptId(id.key, id.no - 1) in s.store.attempts
    ensures var t := s.WithAttempts(s.store.attempts[id := NewAttempt(now)]); Inv(t) && Evolves(s, t)
  {
    var t := s.WithAttempts(s.store.attempts[id := NewAttempt(now)]);
    assert Evolves(s, t);
    Preserved(s, t);
  }

  lemma PlanReadKeeps(s: State, step: Step)
    requires Inv(s) && IsPlan(step)
    requires step.PlanLook? || step.PlanNoneAuthorized? || step.PlanNoneActive? || step.PlanMissed? || step.PlanRead?
    ensures var t := Do(s, step); Inv(t) && Evolves(s, t)
  {
    hide Inv, Evolves, DoClaim, DoCommit, DoPersist;
    Unchanged(s);
    var t := Do(s, step);
    if t != s {
      LocalStep(s, step.p, t.At(step.p));
    } else {
      Unchanged(s);
    }
  }

  lemma PlanExpireKeeps(s: State, p: Proc, id: AttemptId, e: Expected, now: nat)
    requires Inv(s)
    ensures var t := Do(s, PlanExpire(p, id, e, now)); Inv(t) && Evolves(s, t)
  {
    hide Inv, Evolves, DoClaim, DoCommit, DoPersist;
    Unchanged(s);
    if s.At(p) == SeekingActive(id.key) && Expires(e, now) && now <= s.clock && Hits(s.store.attempts, id, e) {
      AttemptIs(s, id);
      AttemptStep(s, Do(s, PlanExpire(p, id, e, now)), id, ToExpired(s.store.attempts[id]), p, Checked(id.key, now));
    }
  }

  lemma PlanInsertKeeps(s: State, p: Proc)
    requires Inv(s)
    ensures var t := Do(s, PlanInsert(p)); Inv(t) && Evolves(s, t)
  {
    hide Inv, Evolves, DoClaim, DoCommit, DoPersist;
    Unchanged(s);
    if s.At(p).Planning? {
      var l := s.At(p);
      var id := AttemptId(l.key, l.no);
      LocalIs(s, p);
      var t := if id in s.store.attempts then s else s.WithAttempts(s.store.attempts[id := NewAttempt(l.now)]);
      if id !in s.store.attempts {
        NewAttemptStep(s, id, l.now);
      } else {
        Unchanged(s);
      }
      LocalStep(t, p, Idle);
      EvolvesTransitive(s, t, t.With(p, Idle));
      assert Do(s, PlanInsert(p)) == t.With(p, Idle);
    }
  }

  lemma ExpireOneKeeps(s: State, id: AttemptId)
    requires Inv(s) && id in s.store.attempts && s.store.attempts[id].status.Active()
    ensures var t := s.WithAttempts(s.store.attempts[id := ToExpired(s.store.attempts[id])]); Inv(t) && Evolves(s, t)
  {
    hide Inv, Evolves;
    Unchanged(s);
    AttemptIs(s, id);
    AttemptOnly(s, id, ToExpired(s.store.attempts[id]));
  }

  lemma PlanWholeKeeps(s: State, key: SelectionKey, now: nat, no: nat)
    requires Inv(s)
    ensures var t := Do(s, PlanWhole(key, now, no)); Inv(t) && Evolves(s, t)
  {
    var t := Do(s, PlanWhole(key, now, no));
    hide Inv, Evolves;
    var a := s.store.attempts;
    var id := AttemptId(key, no);
    if t == s {
      Unchanged(s);
    } else if active :| LatestActive(a, active) && active.key == key {
      var m := s.WithAttempts(a[active := ToExpired(a[active])]);
      ExpireOneKeeps(s, active);
      NewAttemptStep(m, id, now);
      var u := m.WithAttempts(m.store.attempts[id := NewAttempt(now)]);
      EvolvesTransitive(s, m, u);
      LatestActiveUnique(a, key);
      assert t.store.attempts == u.store.attempts;
    } else {
      NewAttemptStep(s, id, now);
    }
  }

  lemma LatestActiveUnique(a: Attempts, key: SelectionKey)
    ensures forall i, j :: LatestActive(a, i) && i.key == key && LatestActive(a, j) && j.key == key ==> i == j
  {
  }

  // ----- claims -----

  lemma ExpireKeeps(s: State, id: AttemptId, e: Expected, now: nat)
    requires Inv(s)
    ensures var t := Do(s, Expire(id, e, now)); Inv(t) && Evolves(s, t)
  {
    hide Inv, Evolves, DoPlan, DoCommit, DoPersist;
    Unchanged(s);
    if Expires(e, now) && now <= s.clock && Hits(s.store.attempts, id, e) {
      ExpireOneKeeps(s, id);
    }
  }

  lemma AdoptScheduledKeeps(s: State, id: AttemptId, lease: Option<nat>)
    requires Inv(s)
    ensures var t := Do(s, AdoptScheduled(id, lease)); Inv(t) && Evolves(s, t)
  {
    hide Inv, Evolves, DoPlan, DoCommit, DoPersist;
    Unchanged(s);
    if HasComplete(s.store, id.key) && Hits(s.store.attempts, id, Unclaimed(lease)) {
      AttemptIs(s, id);
      AttemptOnly(s, id, ToAdopted(s.store.attempts[id], s.store.partitions[id.key].id));
    }
  }

  lemma TakeClaimKeeps(s: State, p: Proc, id: AttemptId, owner: string, lease: Option<nat>, now: nat)
    requires Inv(s)
    ensures var t := Do(s, TakeClaim(p, id, owner, lease, now)); Inv(t) && Evolves(s, t)
  {
    hide Inv, Evolves, DoPlan, DoCommit, DoPersist;
    Unchanged(s);
    var t := Do(s, TakeClaim(p, id, owner, lease, now));
    if s.At(p).Free() && !Expired(lease, now) && now <= s.clock && Hits(s.store.attempts, id, Unclaimed(lease)) {
      AttemptIs(s, id);
      var token := Token(s.issued);
      var b := ToRunning(s.store.attempts[id], owner, token, now);
      AttemptStep(s, t, id, b, p, Working(Claim(id, owner, token)));
    }
  }

  lemma ComputeKeeps(s: State, step: Step)
    requires Inv(s) && (step.Compute? || step.Reenter?)
    ensures var t := Do(s, step); Inv(t) && Evolves(s, t)
  {
    hide Inv, Evolves, DoPlan, DoCommit, DoPersist;
    Unchanged(s);
    LocalIs(s, step.p);
    var t := Do(s, step);
    if t != s {
      LocalStep(s, step.p, t.At(step.p));
    }
  }

  /** Giving up a claim: the attempt ends if the claim still holds it. */
  lemma GiveUp(s: State, p: Proc, c: Claim, e: Expected, patch: Attempt -> Attempt)
    requires Inv(s) && ClaimOf(s.At(p)) == Some(c)
    requires e == Held(c, {Running}, AnyLease) || e == Held(c, {Running, Committing}, AnyLease)
    requires forall a :: patch(a) == ToFailed(a) || patch(a) == ToDrifted(a)
    ensures var t := s.WithAttempts(UpdatedIf(s.store.attempts, c.id, e, patch)).With(p, Idle);
            Inv(t) && Evolves(s, t)
  {
    hide Inv, Evolves;
    Unchanged(s);
    var t := s.WithAttempts(UpdatedIf(s.store.attempts, c.id, e, patch)).With(p, Idle);
    if Hits(s.store.attempts, c.id, e) {
      AttemptIs(s, c.id);
      AttemptStep(s, t, c.id, patch(s.store.attempts[c.id]), p, Idle);
    } else {
      LocalStep(s, p, Idle);
    }
  }

  lemma DriftKeeps(s: State, p: Proc)
    requires Inv(s)
    ensures var t := Do(s, Step.Drift(p)); Inv(t) && Evolves(s, t)
  {
    hide Inv, Evolves, DoPlan, DoCommit, DoPersist;
    Unchanged(s);
    if s.At(p).Working? || (s.At(p).InCommit? && s.At(p).phase.Ready?) {
      var c := s.At(p).claim;
      GiveUp(s, p, c, Held(c, {Running}, AnyLease), x => ToDrifted(x));
    }
  }

  lemma FailKeeps(s: State, p: Proc)
    requires Inv(s)
    ensures var t := Do(s, Step.Fail(p)); Inv(t) && Evolves(s, t)
  {
    hide Inv, Evolves, DoPlan, DoCommit, DoPersist;
    Unchanged(s);
    if ClaimOf(s.At(p)).Some? {
      var c := ClaimOf(s.At(p)).value;
      GiveUp(s, p, c, Held(c, {Running, Committing}, AnyLease), x => ToFailed(x));
    }
  }

  // ----- commits -----

  lemma BeginCommitKeeps(s: State, p: Proc, now: nat)
    requires Inv(s)
    ensures var t := Do(s, BeginCommit(p, now)); Inv(t) && Evolves(s, t)
  {
    hide Inv, Evolves, DoPlan, DoClaim, DoPersist;
    Unchanged(s);
    if s.At(p).InCommit? && s.At(p).phase.Ready? && now <= s.clock {
      var InCommit(c, part, phase) := s.At(p);
      LocalIs(s, p);
      var claim := Held(c, {Running}, LeaseAfter(now));
      if Hits(s.store.attempts, c.id, claim) {
        AttemptIs(s, c.id);
        AttemptStep(s, Do(s, BeginCommit(p, now)), c.id, ToCommitting(s.store.attempts[c.id], now + COMMITTING_TTL), p,
                    InCommit(c, part, Looking));
      } else {
        LocalStep(s, p, InCommit(c, part, Recovering));
      }
    }
  }

  lemma RecoverKeeps(s: State, p: Proc)
    requires Inv(s)
    ensures var t := Do(s, Recover(p)); Inv(t) && Evolves(s, t)
  {
    hide Inv, Evolves, DoPlan, DoClaim, DoPersist;
    Unchanged(s);
    if s.At(p).InCommit? && s.At(p).phase.Recovering? {
      var InCommit(c, part, phase) := s.At(p);
      LocalIs(s, p);
      if !Authorizes(s.store, c.id) {
        LocalStep(s, p, InCommit(c, part, Resuming));
      } else {
        AttemptIs(s, c.id);
        var done := s.store.attempts[c.id].result.value;
        LocalStep(s, p, if done.token == c.token && done.partition.SameIdentity(part)
                        then Persisting(done.partition, Inserting) else Failing(c));
      }
    }
  }

  lemma ResumeKeeps(s: State, p: Proc, now: nat)
    requires Inv(s)
    ensures var t := Do(s, Resume(p, now)); Inv(t) && Evolves(s, t)
  {
    hide Inv, Evolves, DoPlan, DoClaim, DoPersist;
    Unchanged(s);
    if s.At(p).InCommit? && s.At(p).phase.Resuming? && now <= s.clock {
      var InCommit(c, part, phase) := s.At(p);
      LocalIs(s, p);
      LocalStep(s, p, if Hits(s.store.attempts, c.id, Held(c, {Committing}, LeaseAfter(now)))
                      then InCommit(c, part, Looking) else Failing(c));
    }
  }

  lemma FindKeeps(s: State, step: Step)
    requires Inv(s) && (step.FindExisting? || step.FindNone? || step.Retry?)
    ensures var t := Do(s, step); Inv(t) && Evolves(s, t)
  {
    hide Inv, Evolves, DoPlan, DoClaim, DoPersist;
    Unchanged(s);
    var p := step.p;
    var t := Do(s, step);
    if s.At(p).InCommit? && t != s {
      LocalIs(s, p);
      LocalStep(s, p, t.At(p));
    }
  }

  /** What is sealed by another attempt stays sealed when one attempt changes. */
  lemma SealedBeside(s: State, t: State, doc: Partition, id: AttemptId, b: Attempt)
    requires Sealed(s, doc) && doc.commit.value.attempt != id
    requires t.store == s.store.(attempts := s.store.attempts[id := b])
    ensures Sealed(t, doc)
  {
  }

  /** Completing a committing attempt on a sealed document. */
  lemma CompletingKeeps(s: State, t: State, c: Claim, doc: Partition, now: nat, p: Proc, l: Local)
    requires Inv(s) && Recorded(s, c) && s.store.attempts[c.id].status == Committing && doc.key == c.id.key
    requires
      t == s.WithAttempts(s.store.attempts[c.id := ToCompleted(s.store.attempts[c.id], doc, c.token, now)]).With(p, l)
    requires Sealed(t, doc) && LocalOk(t, l)
    ensures Inv(t) && Evolves(s, t)
  {
    hide Inv, Evolves, Sealed, LocalOk;
    AttemptIs(s, c.id);
    var b := ToCompleted(s.store.attempts[c.id], doc, c.token, now);
    assert Follows(s.store.attempts[c.id], b);
    assert AttemptOk(t, c.id);
    AttemptStep(s, t, c.id, b, p, l);
  }

  lemma CompleteOnExistingKeeps(s: State, p: Proc, now: nat)
    requires Inv(s)
    ensures var t := DoCommit(s, CompleteOnExisting(p, now)); Inv(t) && Evolves(s, t)
  {
    hide Inv, Evolves;
    Unchanged(s);
    if s.At(p).InCommit? && s.At(p).phase.Adopting? && now <= s.clock {
      var InCommit(c, part, phase) := s.At(p);
      LocalIs(s, p);
      if Hits(s.store.attempts, c.id, Held(c, {Committing}, LeaseAfter(now))) {
        PartitionIs(s, part.key);
        var b := ToCompleted(s.store.attempts[c.id], phase.found, c.token, now);
        var t := s.WithAttempts(s.store.attempts[c.id := b]).With(p, Answered(AlreadyThere));
        SealedBeside(s, t, phase.found, c.id, b);
        CompletingKeeps(s, t, c, phase.found, now, p, Answered(AlreadyThere));
      } else {
        LocalStep(s, p, Failing(c));
      }
    }
  }

  /** Storing a row only adds to the store. */
  lemma RowEvolves(s: State, part: Partition, kind: Kind, row: Row)
    requires Inv(s)
    ensures Evolves(s, s.(store := RowAdded(s.store, part, kind, row)))
  {
    hide Inv, Follows;
    Unchanged(s);
    var t := s.(store := RowAdded(s.store, part, kind, row));
    assert t.store.attempts == s.store.attempts && t.store.partitions == s.store.partitions;
  }

  lemma StoreRowKeeps(s: State, p: Proc, kind: Kind, row: Row)
    requires Inv(s)
    ensures var t := DoCommit(s, StoreRow(p, kind, row)); Inv(t) && Evolves(s, t)
  {
    Unchanged(s);
    if s.At(p).InCommit? && s.At(p).phase.Storing? {
      var part := s.At(p).part;
      var t := s.(store := RowAdded(s.store, part, kind, row));
      RowEvolves(s, part, kind, row);
      assert t.store.attempts == s.store.attempts && t.store.partitions == s.store.partitions;
      hide Evolves, AttemptOk, PartitionOk, LocalOk, RowAdded;
      Preserved(s, t);
    }
  }

  lemma AuthorizeKeeps(s: State, p: Proc, now: nat)
    requires Inv(s)
    ensures var t := DoCommit(s, Authorize(p, now)); Inv(t) && Evolves(s, t)
  {
    hide Inv, Evolves, RowsStored;
    Unchanged(s);
    if s.At(p).InCommit? && s.At(p).phase.Storing? && RowsStored(s.store, s.At(p).part) && now <= s.clock {
      var InCommit(c, part, phase) := s.At(p);
      LocalIs(s, p);
      if Hits(s.store.attempts, c.id, Held(c, {Committing}, LeaseAfter(now))) {
        var payload := Authoritative(part, c.id, c.token, now);
        var b := ToCompleted(s.store.attempts[c.id], payload, c.token, now);
        var t := s.WithAttempts(s.store.attempts[c.id := b]).With(p, Persisting(payload, Inserting));
        SameRows(s.store, t.store, part, payload);
        assert Sealed(t, payload);
        CompletingKeeps(s, t, c, payload, now, p, Persisting(payload, Inserting));
      } else {
        LocalStep(s, p, Failing(c));
      }
    }
  }

  lemma SameRows(s: Store, t: Store, part: Partition, doc: Partition)
    requires RowsStored(s, part) && doc.id == part.id && doc.content == part.content
    requires t.memberships == s.memberships && t.snapshots == s.snapshots && t.stats == s.stats
    ensures RowsStored(t, doc)
  {
  }

  // ----- partition documents -----

  lemma RepairKeeps(s: State, p: Proc, id: AttemptId)
    requires Inv(s)
    ensures var t := Do(s, Repair(p, id)); Inv(t) && Evolves(s, t)
  {
    hide Inv, Evolves, DoPlan, DoClaim, DoCommit;
    Unchanged(s);
    if s.At(p).Free() && FirstAuthorized(s.store, id) {
      AttemptIs(s, id);
      LocalStep(s, p, Persisting(s.store.attempts[id].result.value.partition, Inserting));
    }
  }

  lemma DocumentEvolves(s: State, t: State, doc: Partition)
    requires Inv(s) && doc.Complete() && !HasComplete(s.store, doc.key)
    requires t == s.WithPartitions(s.store.partitions[doc.key := doc]).(procs := t.procs)
    ensures Evolves(s, t)
  {
    hide Inv, Follows;
    Unchanged(s);
    forall key | HasComplete(s.store, key)
      ensures HasComplete(t.store, key) && t.store.partitions[key] == s.store.partitions[key]
    {
    }
  }

  /** Storing a document where there is none, or only an incomplete one. */
  lemma DocumentStep(s: State, p: Proc, doc: Partition)
    requires Inv(s) && Sealed(s, doc) && !HasComplete(s.store, doc.key)
    ensures var t := s.WithPartitions(s.store.partitions[doc.key := doc]).With(p, Answered(Stored));
            Inv(t) && Evolves(s, t)
  {
    var t := s.WithPartitions(s.store.partitions[doc.key := doc]).With(p, Answered(Stored));
    DocumentEvolves(s, t, doc);
    SealedStays(s, t, doc);
    hide Evolves, AttemptOk, Sealed, RowsStored, Authorizes;
    Preserved(s, t);
  }

  lemma PersistKeeps(s: State, step: Step)
    requires Inv(s) && (step.Insert? || step.Inspect? || step.Replace?)
    ensures var t := DoPersist(s, step); Inv(t) && Evolves(s, t)
  {
    hide Inv, Evolves, Sealed;
    Unchanged(s);
    var p := step.p;
    LocalIs(s, p);
    if s.At(p).Persisting? {
      var Persisting(doc, place) := s.At(p);
      assert Sealed(s, doc);
      LocalStep(s, p, Persisting(doc, Occupied));
      LocalStep(s, p, Persisting(doc, Replacing));
      LocalStep(s, p, Answered(AlreadyThere));
      LocalStep(s, p, Answered(Conflict));
      if !HasComplete(s.store, doc.key) {
        DocumentStep(s, p, doc);
      }
    }
  }

  lemma TickKeeps(s: State, t: nat)
    requires Inv(s)
    ensures Inv(s.(clock := s.clock + t)) && Evolves(s, s.(clock := s.clock + t))
  {
    Preserved(s, s.(clock := s.clock + t));
  }

  // ----- every step, every run -----

  /** Every step keeps the invariant and lets documents change only as they may. */
  lemma StepKeeps(s: State, step: Step)
    requires Inv(s)
    ensures Inv(Do(s, step)) && Evolves(s, Do(s, step))
  {
    hide Inv, Evolves, DoPlan, DoClaim, DoCommit, DoPersist;
    match step
    case Tick(t) => TickKeeps(s, t);
    case Crash(p) => LocalStep(s, p, Idle);
    case PlanLook(_, _) => PlanReadKeeps(s, step);
    case PlanNoneAuthorized(_, _) => PlanReadKeeps(s, step);
    case PlanNoneActive(_, _) => PlanReadKeeps(s, step);
    case PlanExpire(p, id, e, now) => PlanExpireKeeps(s, p, id, e, now);
    case PlanMissed(_, _) => PlanReadKeeps(s, step);
    case PlanRead(_, _) => PlanReadKeeps(s, step);
    case PlanInsert(p) => PlanInsertKeeps(s, p);
    case PlanWhole(key, now, no) => PlanWholeKeeps(s, key, now, no);
    case Expire(id, e, now) => ExpireKeeps(s, id, e, now);
    case AdoptScheduled(id, lease) => AdoptScheduledKeeps(s, id, lease);
    case TakeClaim(p, id, owner, lease, now) => TakeClaimKeeps(s, p, id, owner, lease, now);
    case Compute(_, _, _, _, _) => ComputeKeeps(s, step);
    case Reenter(_, _, _, _, _, _) => ComputeKeeps(s, step);
    case Drift(p) => DriftKeeps(s, p);
    case Fail(p) => FailKeeps(s, p);
    case BeginCommit(p, now) => BeginCommitKeeps(s, p, now);
    case Recover(p) => RecoverKeeps(s, p);
    case Resume(p, now) => ResumeKeeps(s, p, now);
    case FindExisting(p) => FindKeeps(s, step);
    case FindNone(p) => FindKeeps(s, step);
    case Retry(p) => FindKeeps(s, step);
    case CompleteOnExisting(p, now) => CompleteOnExistingKeeps(s, p, now);
    case StoreRow(p, kind, row) => StoreRowKeeps(s, p, kind, row);
    case Authorize(p, now) => AuthorizeKeeps(s, p, now);
    case Repair(p, id) => RepairKeeps(s, p, id);
    case Insert(p) => PersistKeeps(s, step);
    case Inspect(p) => PersistKeeps(s, step);
    case Replace(p) => PersistKeeps(s, step);
  }
}
