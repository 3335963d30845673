/** The promises of the partition protocol, over every run. */
module ProtocolTheorems {
  import opened Wrappers
  import opened Documents
  import opened Protocol
  import opened ProtocolInvariant
  import opened Runs

  // ----- every run -----

  /** Over any run the invariant holds and documents have changed only as they may. */
  lemma {:induction false} RunKeeps(s: State, steps: seq<Step>)
    requires Inv(s)
    ensures Inv(Run(s, steps)) && Evolves(s, Run(s, steps))
  {
    hide Inv, Evolves, Do;
    if steps == [] {
      Unchanged(s);
    } else {
      var t := Run(s, steps[..|steps| - 1]);
      RunKeeps(s, steps[..|steps| - 1]);
      StepKeeps(t, steps[|steps| - 1]);
      EvolvesTransitive(s, t, Do(t, steps[|steps| - 1]));
    }
  }

  // ----- at most one partition per key, and it never changes -----

  /** Once a key has a completed partition document, every later state of every run has the very same one. */
  lemma {:induction false} CompletedForever(s: State, steps: seq<Step>, key: SelectionKey)
    requires Inv(s) && HasComplete(s.store, key)
    ensures HasComplete(Run(s, steps).store, key)
    ensures Run(s, steps).store.partitions[key] == s.store.partitions[key]
  {
    RunKeeps(s, steps);
  }

  /** A writer that comes late with a document of another identity never overwrites: whatever ran in between,
      none of its steps changes the store, the only answer it can get is a conflict, and left alone it gets it. */
  lemma LateWriterRefused(s: State, steps: seq<Step>, p: Proc, key: SelectionKey)
    requires Inv(s) && HasComplete(s.store, key)
    requires var l := Run(s, steps).At(p);
             l.Persisting? && l.doc.key == key && !l.doc.SameIdentity(s.store.partitions[key])
    ensures var t := Run(s, steps);
            && (forall step | step in {Insert(p), Inspect(p), Replace(p)} ::
                  && Do(t, step).store == t.store
                  && (Do(t, step).At(p).Answered? ==> Do(t, step).At(p) == Answered(Conflict)))
            && (t.At(p).place.Inserting? ==> Run(t, PersistSteps(p)) == t.With(p, Answered(Conflict)))
  {
    hide Inv, Evolves, Run, DoPlan, DoClaim, DoCommit;
    CompletedForever(s, steps, key);
    var t := Run(s, steps);
    forall step | step in {Insert(p), Inspect(p), Replace(p)}
      ensures Do(t, step).store == t.store && (Do(t, step).At(p).Answered? ==> Do(t, step).At(p) == Answered(Conflict))
    {
      assert Do(t, step) == DoPersist(t, step);
    }
    if t.At(p).place.Inserting? {
      PersistRun(t, p);
    }
  }

  // ----- the commit point -----

  /** Each membership, snapshot and statistics row of the partition is stored under its id. */
  ghost predicate EveryRow(s: Store, p: Partition)
  {
    && (forall row :: row in p.content.memberships ==> StoredRow(p.id, row) in s.memberships)
    && (forall row :: row in p.content.snapshots ==> StoredRow(p.id, row) in s.snapshots)
    && (forall row :: row in p.content.stats ==> StoredRow(p.id, row) in s.stats)
  }

  /** An attempt that authorized a partition, and a partition document that reads as completed,
      have all their rows stored; and the document is the one its attempt authorized. */
  lemma CommitPoint(s: State, steps: seq<Step>)
    requires Inv(s)
    ensures var t := Run(s, steps).store;
            && (forall id :: Authorizes(t, id) ==>
                  t.attempts[id].result.value.partition.key == id.key
                      && EveryRow(t, t.attempts[id].result.value.partition))
            && (forall key :: HasComplete(t, key) ==>
                  && EveryRow(t, t.partitions[key])
                  && var author := t.partitions[key].commit.value.attempt;
                  && author.key == key && Authorizes(t, author)
                      && t.attempts[author].result.value.partition == t.partitions[key])
  {
    var u := Run(s, steps);
    RunKeeps(s, steps);
    forall id | Authorizes(u.store, id)
      ensures u.store.attempts[id].result.value.partition.key == id.key
              && RowsStored(u.store, u.store.attempts[id].result.value.partition)
    {
      assert AttemptOk(u, id);
    }
    forall key | HasComplete(u.store, key)
      ensures RowsStored(u.store, u.store.partitions[key])
      ensures var author := u.store.partitions[key].commit.value.attempt;
              author.key == key && Authorizes(u.store, author)
              && u.store.attempts[author].result.value.partition == u.store.partitions[key]
    {
      assert PartitionOk(u, key);
    }
  }

  /** The steps of a lookup that repairs a missing document. */
  function RepairSteps(p: Proc, id: AttemptId): seq<Step> { [Repair(p, id)] + PersistSteps(p) }

  /** A document left over in a shape no commit can pass: not completed itself, yet its commit reads completed. */
  predicate Blocked(s: Store, key: SelectionKey)
  {
    key in s.partitions && !s.partitions[key].finished && s.partitions[key].commit.Some?
  }

  /** No run writes such a document: where none blocks a key, none ever will. */
  lemma NeverBlocked(s: State, steps: seq<Step>, key: SelectionKey)
    requires Inv(s) && !Blocked(s.store, key)
    ensures !Blocked(Run(s, steps).store, key)
  {
    RunKeeps(s, steps);
  }

  /** A process that stores a complete document where there is none gets it stored unless a document blocks it. */
  lemma StoreDocument(s: State, p: Proc)
    requires s.At(p).Persisting? && s.At(p).place.Inserting? && s.At(p).doc.Complete()
    requires !HasComplete(s.store, s.At(p).doc.key)
    ensures var doc := s.At(p).doc;
            var t := Run(s, PersistSteps(p));
            && (HasComplete(t.store, doc.key) <==> !Blocked(s.store, doc.key))
            && (HasComplete(t.store, doc.key) ==> t.store.partitions[doc.key] == doc)
            && t.At(p) == Answered(if Blocked(s.store, doc.key) then Conflict else Stored)
  {
    PersistRun(s, p);
  }

  /** A crash after the commit point and before the partition document is stored is repaired by the next lookup,
      exactly when no blocked document is in the way: the key then has a completed document,
      and it is the one the first authorizing attempt carries. */
  lemma LookupRepairs(s: State, p: Proc, id: AttemptId)
    requires Inv(s) && s.At(p).Free() && FirstAuthorized(s.store, id) && !HasComplete(s.store, id.key)
    ensures var t := Run(s, RepairSteps(p, id)).store;
            && (HasComplete(t, id.key) <==> !Blocked(s.store, id.key))
            && (HasComplete(t, id.key) ==> t.partitions[id.key] == s.store.attempts[id].result.value.partition)
  {
    hide DoPlan, DoClaim, DoCommit, Run, Inv;
    AttemptIs(s, id);
    var s1 := s.With(p, Persisting(s.store.attempts[id].result.value.partition, Inserting));
    assert Do(s, Repair(p, id)) == s1;
    RunOne(s, Repair(p, id));
    RunAdd(s, [Repair(p, id)], PersistSteps(p));
    StoreDocument(s1, p);
  }

  /** A process that takes its claim up again after the commit point. */
  function RetrySteps(p: Proc, c: Claim, content: Content, now: nat, contract: Contract, evidenced: bool): seq<Step>
  {
    [Reenter(p, c, content, now, contract, evidenced), BeginCommit(p, now), Recover(p)] + PersistSteps(p)
  }

  /** It is also repaired by a retried commit of the attempt that authorized: exactly when the partition it comes with
      has the authorized content and no blocked document is in the way, the key has a completed document afterwards,
      and it is the authorized one. A retry with another content changes nothing. */
  lemma RetryRepairs(s: State, p: Proc, c: Claim, content: Content, now: nat, contract: Contract, evidenced: bool)
    requires Inv(s) && s.At(p).Free() && Recorded(s, c) && now <= s.clock
    requires Authorizes(s.store, c.id) && !HasComplete(s.store, c.id.key)
    ensures var doc := s.store.attempts[c.id].result.value.partition;
            var t := Run(s, RetrySteps(p, c, content, now, contract, evidenced)).store;
            && (HasComplete(t, c.id.key) <==> content == doc.content && !Blocked(s.store, c.id.key))
            && (HasComplete(t, c.id.key) ==> t.partitions[c.id.key] == doc)
            && (content != doc.content ==> t == s.store)
  {
    hide Run, Do, Inv, Blocked;
    AttemptIs(s, c.id);
    var doc := s.store.attempts[c.id].result.value.partition;
    var part := Computed(c.id.key, content, now, contract, evidenced);
    var front := [Reenter(p, c, content, now, contract, evidenced), BeginCommit(p, now), Recover(p)];
    RunAdd(s, front, PersistSteps(p));
    RunOfThree(s, front[0], front[1], front[2]);
    RetryFront(s, p, c, content, now, contract, evidenced);
    var l := if content == doc.content then Persisting(doc, Inserting) else Failing(c);
    var s3 := s.With(p, l);
    if content == doc.content {
      StoreDocument(s3, p);
    } else {
      PersistNothing(s3, p);
    }
  }

  lemma RetryFront(s: State, p: Proc, c: Claim, content: Content, now: nat, contract: Contract, evidenced: bool)
    requires s.At(p).Free() && Recorded(s, c) && now <= s.clock
    requires Authorizes(s.store, c.id) && AttemptOk(s, c.id)
    ensures var doc := s.store.attempts[c.id].result.value.partition;
            Do(Do(Do(s, Reenter(p, c, content, now, contract, evidenced)), BeginCommit(p, now)), Recover(p))
            == s.With(p, if content == doc.content then Persisting(doc, Inserting) else Failing(c))
  {
    hide DoPlan, DoPersist;
    var doc := s.store.attempts[c.id].result.value.partition;
    var part := Computed(c.id.key, content, now, contract, evidenced);
    var s1, s2 := s.With(p, InCommit(c, part, Ready)), s.With(p, InCommit(c, part, Recovering));
    assert Do(s, Reenter(p, c, content, now, contract, evidenced)) == s1;
    WithTwice(s, p, InCommit(c, part, Ready), InCommit(c, part, Recovering));
    assert Do(s1, BeginCommit(p, now)) == s2;
    WithTwice(s, p, InCommit(c, part, Recovering), Persisting(doc, Inserting));
    WithTwice(s, p, InCommit(c, part, Recovering), Failing(c));
    assert doc.SameIdentity(part) <==> content == doc.content;
  }

  // ----- the groups of steps -----

  /** Every step is of one group. */
  lemma StepIs(s: State, step: Step)
    ensures var t := Do(s, step);
            if step.Tick? then t == s.(clock := s.clock + step.t)
            else if step.Crash? then t == s.With(step.p, Idle)
            else if IsPlan(step) then t == DoPlan(s, step)
            else if OfClaims(step) then t == DoClaim(s, step)
            else if OfPersisting(step) then t == DoPersist(s, step)
            else OfCommits(step) && t == DoCommit(s, step)
  {
    hide DoPlan, DoClaim, DoCommit, DoPersist;
  }

  // ----- one content per key -----

  /** Everything computed or authorized for a key has the content f gives it. */
  ghost predicate Uniform(s: State, f: SelectionKey -> Content)
  {
    && (forall p :: p in s.procs && s.procs[p].InCommit? ==> s.procs[p].part.content == f(s.procs[p].part.key))
    && (forall id :: Authorizes(s.store, id) ==>
          s.store.attempts[id].result.value.partition.content == f(s.store.attempts[id].result.value.partition.key))
  }

  /** Every computation of the run yields, for its key, the content f gives it. */
  ghost predicate Computes(s: State, step: Step, f: SelectionKey -> Content)
  {
    && (step.Compute? && s.At(step.p).Working? ==> step.content == f(s.At(step.p).claim.id.key))
    && (step.Reenter? ==> step.content == f(step.claim.id.key))
  }

  lemma UniformStep(s: State, step: Step, f: SelectionKey -> Content)
    requires Inv(s) && Uniform(s, f) && Computes(s, step, f)
    ensures Uniform(Do(s, step), f)
  {
    var t := Do(s, step);
    forall id | Authorizes(t.store, id)
      ensures t.store.attempts[id].result.value.partition.content == f(t.store.attempts[id].result.value.partition.key)
    {
      hide Do;
      NewAuthorization(s, step, id, t);
      if step.CompleteOnExisting? && !Authorizes(s.store, id) {
        ExistingIsAuthorized(s, s.At(step.p));
      }
    }
    forall p | p in t.procs && t.procs[p].InCommit?
      ensures t.procs[p].part.content == f(t.procs[p].part.key)
    {
      hide Do;
      NewCommit(s, step, p);
    }
  }

  lemma PlanCommits(s: State, step: Step, p: Proc)
    requires IsPlan(step) && DoPlan(s, step).At(p).InCommit?
    ensures s.At(p) == DoPlan(s, step).At(p)
  {
  }

  lemma PersistCommits(s: State, step: Step, p: Proc)
    requires OfPersisting(step) && DoPersist(s, step).At(p).InCommit?
    ensures s.At(p) == DoPersist(s, step).At(p)
  {
  }

  lemma CommitCommits(s: State, step: Step, p: Proc)
    requires OfCommits(step) && DoCommit(s, step).At(p).InCommit?
    ensures s.At(p).InCommit? && s.At(p).part == DoCommit(s, step).At(p).part
  {
    hide RowAdded, Authorizes, SomeAuthorized, HasComplete, RowsStored, Hits, UpdatedIf;
  }

  /** The partition a process brings into a commit by this step. */
  predicate Brings(s: State, step: Step, p: Proc, part: Partition)
  {
    || (step.Compute? && step.p == p && s.At(p).Working? &&
        part == Computed(s.At(p).claim.id.key, step.content, step.now, step.contract, step.evidenced))
    || (step.Reenter? && step.p == p &&
        part == Computed(step.claim.id.key, step.content, step.now, step.contract, step.evidenced))
  }

  lemma ClaimCommits(s: State, step: Step, p: Proc)
    requires OfClaims(step) && DoClaim(s, step).At(p).InCommit?
    ensures s.At(p) == DoClaim(s, step).At(p) || Brings(s, step, p, DoClaim(s, step).At(p).part)
  {
  }

  /** A process inside a commit got there by computing or re-entering, or was there already with the same partition. */
  lemma NewCommit(s: State, step: Step, p: Proc)
    requires Do(s, step).At(p).InCommit?
    ensures var part := Do(s, step).At(p).part;
            (s.At(p).InCommit? && s.At(p).part == part) || Brings(s, step, p, part)
  {
    hide Do, DoPlan, DoClaim, DoCommit, DoPersist, Brings, IsPlan, OfClaims, OfPersisting, OfCommits;
    StepIs(s, step);
    if step.Tick? || step.Crash? {
    } else if IsPlan(step) {
      PlanCommits(s, step, p);
    } else if OfClaims(step) {
      ClaimCommits(s, step, p);
    } else if OfPersisting(step) {
      PersistCommits(s, step, p);
    } else {
      CommitCommits(s, step, p);
    }
  }

  /** A partition found complete was authorized by the attempt it names. */
  lemma ExistingIsAuthorized(s: State, l: Local)
    requires Inv(s) && LocalOk(s, l) && l.InCommit? && l.phase.Adopting?
    ensures l.phase.found.commit.Some? && Authorizes(s.store, l.phase.found.commit.value.attempt)
    ensures s.store.attempts[l.phase.found.commit.value.attempt].result.value.partition == l.phase.found
  {
    assert PartitionOk(s, l.part.key);
  }

  lemma PlanResults(s: State, step: Step, id: AttemptId)
    requires IsPlan(step) && Authorizes(DoPlan(s, step).store, id)
    ensures id in s.store.attempts && s.store.attempts[id].result == DoPlan(s, step).store.attempts[id].result
  {
  }

  lemma ClaimResults(s: State, step: Step, id: AttemptId)
    requires OfClaims(step) && Authorizes(DoClaim(s, step).store, id)
    ensures id in s.store.attempts && s.store.attempts[id].result == DoClaim(s, step).store.attempts[id].result
  {
  }

  /** The step authorizes what its process computed or found. */
  predicate Authorizing(s: State, step: Step, doc: Partition)
  {
    && (step.Authorize? || step.CompleteOnExisting?)
    && var l := s.At(step.p);
    && l.InCommit?
    && (if step.Authorize? then doc.key == l.part.key && doc.content == l.part.content
        else l.phase.Adopting? && doc == l.phase.found)
  }

  lemma CommitResults(s: State, step: Step, id: AttemptId)
    requires OfCommits(step) && Authorizes(DoCommit(s, step).store, id)
    ensures var r := DoCommit(s, step).store.attempts[id].result;
            (id in s.store.attempts && s.store.attempts[id].result == r) || Authorizing(s, step, r.value.partition)
  {
    hide SomeAuthorized, HasComplete, RowsStored;
  }

  /** An attempt that authorizes did so before the step, or the step authorized what its process computed or found. */
  lemma NewAuthorization(s: State, step: Step, id: AttemptId, t: State)
    requires t == Do(s, step) && Authorizes(t.store, id)
    ensures var r := t.store.attempts[id].result;
            (id in s.store.attempts && s.store.attempts[id].result == r) || Authorizing(s, step, r.value.partition)
  {
    hide Do, DoPlan, DoClaim, DoCommit, DoPersist, Authorizing, IsPlan, OfClaims, OfPersisting, OfCommits;
    StepIs(s, step);
    if step.Tick? || step.Crash? {
    } else if IsPlan(step) {
      PlanResults(s, step, id);
    } else if OfClaims(step) {
      ClaimResults(s, step, id);
    } else if OfPersisting(step) {
      PersistKeepsAttempts(s, step);
    } else {
      CommitResults(s, step, id);
    }
  }

  /** Whether every computation in a run yields the content f gives its key. */
  ghost predicate RunComputes(s: State, steps: seq<Step>, f: SelectionKey -> Content)
  {
    steps == [] ||
    (RunComputes(s, steps[..|steps| - 1], f) && Computes(Run(s, steps[..|steps| - 1]), steps[|steps| - 1], f))
  }

  lemma {:induction false} UniformRun(s: State, steps: seq<Step>, f: SelectionKey -> Content)
    requires Inv(s) && Uniform(s, f) && RunComputes(s, steps, f)
    ensures Uniform(Run(s, steps), f)
  {
    hide Inv, Do, Uniform, Evolves;
    if steps != [] {
      UniformRun(s, steps[..|steps| - 1], f);
      RunKeeps(s, steps[..|steps| - 1]);
      UniformStep(Run(s, steps[..|steps| - 1]), steps[|steps| - 1], f);
    }
  }

  /** Storing the partition that the attempt authorized would be refused. */
  ghost predicate Conflicts(store: Store, id: AttemptId)
    requires Authorizes(store, id)
  {
    PersistOutcome(store.partitions, store.attempts[id].result.value.partition) == Conflict
  }

  /** When one key always yields one content, all that is authorized or stored for it has one identity,
      and a writer conflicts exactly with a blocked document, so never where none is left from the start. */
  lemma OneIdentity(s: State, steps: seq<Step>, f: SelectionKey -> Content)
    requires Initial(s) && RunComputes(s, steps, f)
    ensures var t := Run(s, steps).store;
            && (forall i, j :: Authorizes(t, i) && Authorizes(t, j) && i.key == j.key ==>
                  t.attempts[i].result.value.partition.SameIdentity(t.attempts[j].result.value.partition))
            && (forall i :: Authorizes(t, i) ==> (Conflicts(t, i) <==> Blocked(t, i.key)))
            && (forall i :: Authorizes(t, i) && !Blocked(s.store, i.key) ==> !Conflicts(t, i))
  {
    InitialInv(s);
    UniformRun(s, steps, f);
    RunKeeps(s, steps);
    var u := Run(s, steps);
    forall i | Authorizes(u.store, i)
      ensures var doc := u.store.attempts[i].result.value.partition;
              doc.key == i.key && doc.content == f(i.key) && doc.id == PartitionId(i.key, f(i.key))
    {
      assert AttemptOk(u, i);
    }
    forall i | Authorizes(u.store, i)
      ensures Conflicts(u.store, i) <==> Blocked(u.store, i.key)
      ensures !Blocked(s.store, i.key) ==> !Blocked(u.store, i.key)
    {
      if HasComplete(u.store, i.key) {
        assert PartitionOk(u, i.key);
      }
      if !Blocked(s.store, i.key) {
        NeverBlocked(s, steps, i.key);
      }
    }
  }

  // ----- fencing -----

  /** An attempt that ended stays as it ended, a claim token is never replaced, and a claim is taken only
      from a scheduled attempt. */
  lemma EndedForever(s: State, steps: seq<Step>, id: AttemptId)
    requires Inv(s) && id in s.store.attempts
    ensures id in Run(s, steps).store.attempts
    ensures !s.store.attempts[id].status.Active() ==> Run(s, steps).store.attempts[id] == s.store.attempts[id]
    ensures s.store.attempts[id].token.Some? ==>
              Run(s, steps).store.attempts[id].token == s.store.attempts[id].token
    ensures s.store.attempts[id].status == Running || s.store.attempts[id].status == Committing ==>
              !Run(s, steps).store.attempts[id].status.Scheduled?
  {
    RunKeeps(s, steps);
    assert Follows(s.store.attempts[id], Run(s, steps).store.attempts[id]);
  }

  /** An attempt reaches completed in one of two ways: a scheduled one is closed because its key already has a
      completed partition, and authorizes nothing; or the process that holds its token completes it from
      committing, under a lease that is later than a clock value that process has read. */
  lemma CompletionIsFenced(s: State, step: Step, id: AttemptId)
    requires Inv(s) && id in s.store.attempts && s.store.attempts[id].status.Active()
    requires id in Do(s, step).store.attempts && Do(s, step).store.attempts[id].status == Completed
    ensures var a, b := s.store.attempts[id], Do(s, step).store.attempts[id];
            if a.status == Scheduled then step.AdoptScheduled? && HasComplete(s.store, id.key) && b.result.None?
            else
              && a.status == Committing && b.result.Some?
              && (step.Authorize? || step.CompleteOnExisting?)
              && HoldsToken(s, step.p, id, step.now)
  {
    hide Inv, DoPlan, DoClaim, DoPersist, DoCommit;
    ActiveHasNoResult(s, id);
    if IsPlan(step) {
      PlanCompletesNothing(s, step, id);
    } else if OfClaims(step) {
      ClaimCompletesOnlyScheduled(s, step, id);
    } else if step.Tick? || step.Crash? {
    } else if OfPersisting(step) {
      PersistKeepsAttempts(s, step);
    } else {
      CommitCompletesHeld(s, step, id);
    }
  }

  lemma ActiveHasNoResult(s: State, id: AttemptId)
    requires Inv(s) && id in s.store.attempts && s.store.attempts[id].status.Active()
    ensures s.store.attempts[id].result.None?
  {
    assert AttemptOk(s, id);
  }

  lemma PlanCompletesNothing(s: State, step: Step, id: AttemptId)
    requires id in s.store.attempts && s.store.attempts[id].status != Completed
    requires IsPlan(step)
    ensures id in DoPlan(s, step).store.attempts && DoPlan(s, step).store.attempts[id].status != Completed
  {
  }

  lemma PersistKeepsAttempts(s: State, step: Step)
    requires OfPersisting(step)
    ensures DoPersist(s, step).store.attempts == s.store.attempts
  {
  }

  lemma ClaimCompletesOnlyScheduled(s: State, step: Step, id: AttemptId)
    requires id in s.store.attempts && s.store.attempts[id].status != Completed
    requires OfClaims(step)
    ensures var t := DoClaim(s, step).store.attempts;
            id in t && (t[id].status == Completed ==>
              step.AdoptScheduled? && s.store.attempts[id].status == Scheduled && HasComplete(s.store, id.key)
              && t[id].result == s.store.attempts[id].result)
  {
  }

  lemma CommitCompletesHeld(s: State, step: Step, id: AttemptId)
    requires id in s.store.attempts && s.store.attempts[id].status != Completed
    requires OfCommits(step)
    ensures var t := DoCommit(s, step).store.attempts;
            id in t && (t[id].status == Completed ==>
              && s.store.attempts[id].status == Committing && t[id].result.Some?
              && (step.Authorize? || step.CompleteOnExisting?) && HoldsToken(s, step.p, id, step.now))
  {
    hide HasComplete, RowsStored, SomeAuthorized, Authorizes, Blocked, FirstAuthorized;
  }

  /** Process p holds the claim on the attempt: it remembers the attempt's token, and the lease is later
      than the clock value `now` it has read. */
  predicate HoldsToken(s: State, p: Proc, id: AttemptId, now: nat)
    requires id in s.store.attempts
  {
    var a := s.store.attempts[id];
    && ClaimOf(s.At(p)).Some?
    && ClaimOf(s.At(p)).value.id == id && a.token == Some(ClaimOf(s.At(p)).value.token)
    && a.lease.Some? && now < a.lease.value && now <= s.clock
  }

  /** An attempt that was declared expired never authorizes anything afterwards, and no completed partition
      document ever names it. */
  lemma ExpiredNeverAuthorizes(s: State, steps: seq<Step>, id: AttemptId)
    requires Inv(s) && id in s.store.attempts && s.store.attempts[id].status == ClaimExpired
    ensures !Authorizes(Run(s, steps).store, id)
    ensures forall key :: HasComplete(Run(s, steps).store, key) ==>
              Run(s, steps).store.partitions[key].commit.value.attempt != id
  {
    EndedForever(s, steps, id);
    RunKeeps(s, steps);
    forall key | HasComplete(Run(s, steps).store, key)
      ensures Run(s, steps).store.partitions[key].commit.value.attempt != id
    {
      assert PartitionOk(Run(s, steps), key);
    }
  }

  // ----- attempt numbers -----

  /** The attempt numbers of a key are exactly 1..n. */
  lemma NumbersWithoutGaps(s: State, steps: seq<Step>, key: SelectionKey) returns (n: nat)
    requires Inv(s)
    ensures NumberedTo(Run(s, steps).store.attempts, key, n)
  {
    RunKeeps(s, steps);
    var t := Run(s, steps);
    var a := t.store.attempts;
    n := LargestNumber(a, a.Keys, key);
    forall no: nat | 1 <= no <= n ensures AttemptId(key, no) in a {
      Downward(t, key, n, no);
    }
    forall no: nat | AttemptId(key, no) in a ensures 1 <= no {
      assert AttemptOk(t, AttemptId(key, no));
    }
  }

  lemma {:induction false} LargestNumber(a: Attempts, ids: set<AttemptId>, key: SelectionKey) returns (n: nat)
    requires ids <= a.Keys
    ensures n > 0 ==> AttemptId(key, n) in ids
    ensures forall no: nat :: AttemptId(key, no) in ids ==> no <= n
    decreases ids
  {
    if ids == {} {
      n := 0;
    } else {
      var id :| id in ids;
      n := LargestNumber(a, ids - {id}, key);
      if id.key == key && id.no > n {
        n := id.no;
      }
    }
  }

  lemma {:induction false} Downward(s: State, key: SelectionKey, n: nat, no: nat)
    requires Inv(s) && AttemptId(key, n) in s.store.attempts && 1 <= no <= n
    ensures AttemptId(key, no) in s.store.attempts
    decreases n
  {
    if no < n {
      assert AttemptOk(s, AttemptId(key, n));
      Downward(s, key, n - 1, no);
    }
  }

  // ----- one active attempt -----

  /** At most one attempt of a key is scheduled, running or committing. */
  ghost predicate OneActive(a: Attempts)
  {
    forall i, j :: ActiveNumber(a, i) && ActiveNumber(a, j) && i.key == j.key ==> i == j
  }

  /** Every planner plans without interruption. */
  predicate PlansWhole(steps: seq<Step>)
  {
    forall step :: step in steps && IsPlan(step) ==> step.PlanWhole?
  }

  /** A planner about to insert does no harm: the number has been taken meanwhile, or the key has no active attempt. */
  ghost predicate InsertsFreely(s: State, step: Step)
  {
    step.PlanInsert? && s.At(step.p).Planning? ==>
      var l := s.At(step.p);
      AttemptId(l.key, l.no) in s.store.attempts || !SomeActive(s.store.attempts, l.key)
  }

  lemma PlanActivates(s: State, step: Step, id: AttemptId)
    requires IsPlan(step) && !step.PlanInsert? && !step.PlanWhole? && ActiveNumber(DoPlan(s, step).store.attempts, id)
    ensures ActiveNumber(s.store.attempts, id)
  {
  }

  lemma ClaimActivates(s: State, step: Step, id: AttemptId)
    requires OfClaims(step) && ActiveNumber(DoClaim(s, step).store.attempts, id)
    ensures ActiveNumber(s.store.attempts, id)
  {
  }

  lemma CommitActivates(s: State, step: Step, id: AttemptId)
    requires OfCommits(step) && ActiveNumber(DoCommit(s, step).store.attempts, id)
    ensures ActiveNumber(s.store.attempts, id)
  {
    hide SomeAuthorized, HasComplete, RowsStored;
  }

  /** No step but an inserting one makes an attempt active. */
  lemma NoNewActive(s: State, step: Step, id: AttemptId)
    requires !step.PlanInsert? && !step.PlanWhole? && ActiveNumber(Do(s, step).store.attempts, id)
    ensures ActiveNumber(s.store.attempts, id)
  {
    hide Do, DoPlan, DoClaim, DoCommit, DoPersist, IsPlan, OfClaims, OfPersisting, OfCommits;
    StepIs(s, step);
    if step.Tick? || step.Crash? {
    } else if IsPlan(step) {
      PlanActivates(s, step, id);
    } else if OfClaims(step) {
      ClaimActivates(s, step, id);
    } else if OfPersisting(step) {
      PersistKeepsAttempts(s, step);
    } else {
      CommitActivates(s, step, id);
    }
  }

  /** What planning without interruption does to the attempts. */
  lemma PlannedWholeOneActive(a: Attempts, key: SelectionKey, now: nat, no: nat)
    requires OneActive(a)
    ensures OneActive(PlannedWhole(a, key, now, no))
  {
    if active :| LatestActive(a, active) && active.key == key {
      LatestActiveUnique(a, key);
    } else if id :| ActiveNumber(a, id) && id.key == key {
      LatestExists(a, id);
    }
  }

  lemma LatestExists(a: Attempts, id: AttemptId)
    requires OneActive(a) && ActiveNumber(a, id)
    ensures LatestActive(a, id)
  {
  }

  lemma PlanWholeOneActive(s: State, key: SelectionKey, now: nat, no: nat)
    requires OneActive(s.store.attempts)
    ensures OneActive(Do(s, PlanWhole(key, now, no)).store.attempts)
  {
    hide DoClaim, DoCommit, DoPersist, OneActive, PlannedWhole;
    PlannedWholeOneActive(s.store.attempts, key, now, no);
  }

  /** Inserting keeps it exactly when it does no harm. */
  lemma InsertOneActive(s: State, p: Proc)
    requires OneActive(s.store.attempts)
    ensures OneActive(Do(s, PlanInsert(p)).store.attempts) <==> InsertsFreely(s, PlanInsert(p))
  {
    hide DoClaim, DoCommit, DoPersist;
    if s.At(p).Planning? {
      var l := s.At(p);
      var id := AttemptId(l.key, l.no);
      var b := Do(s, PlanInsert(p)).store.attempts;
      if id !in s.store.attempts {
        assert b == s.store.attempts[id := NewAttempt(l.now)] && ActiveNumber(b, id);
        if j :| ActiveNumber(s.store.attempts, j) && j.key == l.key {
          assert ActiveNumber(b, j) && j != id;
        }
      }
    }
  }

  /** A step keeps at most one active attempt per key exactly when it does not insert beside an active one. */
  lemma StepOneActive(s: State, step: Step)
    requires OneActive(s.store.attempts)
    ensures OneActive(Do(s, step).store.attempts) <==> InsertsFreely(s, step)
  {
    hide Do;
    if step.PlanInsert? {
      InsertOneActive(s, step.p);
    } else if step.PlanWhole? {
      PlanWholeOneActive(s, step.key, step.now, step.no);
    } else {
      var after := Do(s, step).store.attempts;
      forall i, j | ActiveNumber(after, i) && ActiveNumber(after, j) && i.key == j.key
        ensures i == j
      {
        NoNewActive(s, step, i);
        NoNewActive(s, step, j);
      }
    }
  }

  /** A run keeps at most one active attempt per key throughout exactly when every planner that inserts in it
      does no harm. */
  lemma {:induction false} OneActiveExactly(s: State, steps: seq<Step>)
    requires OneActive(s.store.attempts)
    ensures (forall n :: 0 <= n <= |steps| ==> OneActive(Run(s, steps[..n]).store.attempts)) <==>
            (forall n :: 0 <= n < |steps| ==> InsertsFreely(Run(s, steps[..n]), steps[n]))
  {
    hide Do, OneActive, InsertsFreely, Run;
    NoRun(s);
    if steps == [] {
      assert steps[..0] == [];
    } else {
      var last := |steps| - 1;
      var front := steps[..last];
      OneActiveExactly(s, front);
      assert forall n :: 0 <= n <= last ==> front[..n] == steps[..n];
      assert forall n :: 0 <= n < last ==> front[n] == steps[n];
      RunThen(s, front, steps[last]);
      assert steps[..|steps|] == steps == front + [steps[last]];
      assert front[..last] == front;
      if OneActive(Run(s, front).store.attempts) {
        StepOneActive(Run(s, front), steps[last]);
      }
    }
  }

  lemma NoRun(s: State)
    ensures Run(s, []) == s
  {
  }

  /** With planning uninterrupted, a key never has two active attempts. */
  lemma {:induction false} OneActiveAlways(s: State, steps: seq<Step>)
    requires OneActive(s.store.attempts) && PlansWhole(steps)
    ensures OneActive(Run(s, steps).store.attempts)
  {
    OneActiveExactly(s, steps);
    forall n | 0 <= n < |steps| ensures InsertsFreely(Run(s, steps[..n]), steps[n]) {
      assert steps[n] in steps && (IsPlan(steps[n]) ==> steps[n].PlanWhole?);
    }
    assert steps[..|steps|] == steps;
  }

  /** The empty start. */
  const EMPTY: State := State(Store(map[], map[], {}, {}, {}), 0, 0, map[])

  /** Two planners that both look before either inserts. */
  function SplitPlanning(key: SelectionKey): seq<Step>
  {
    [PlanLook(0, key), PlanLook(1, key), PlanNoneAuthorized(0, 0), PlanNoneAuthorized(1, 0),
     PlanNoneActive(0, 0), PlanNoneActive(1, 0), PlanRead(0, 1), PlanInsert(0), PlanRead(1, 2)]
  }

  /** Interrupted planning need not keep that promise: after those steps the second planner is about to insert
      beside an active attempt, and its insert leaves two scheduled attempts of one key. */
  lemma SplitPlanningTwoActive(key: SelectionKey)
    ensures Initial(EMPTY)
    ensures var t := Run(EMPTY, SplitPlanning(key));
            && OneActive(t.store.attempts) && !InsertsFreely(t, PlanInsert(1))
            && !OneActive(Do(t, PlanInsert(1)).store.attempts)
  {
    hide Do, Run;
    var a := AttemptId(key, 1);
    var t := SplitState(key);
    SplitRun(key);
    assert ActiveNumber(t.store.attempts, a);
    assert OneActive(t.store.attempts) && t.At(1) == Planning(key, 2, 0);
    InsertOneActive(t, 1);
  }

  /** Where the two planners are before the second inserts. */
  function SplitState(key: SelectionKey): State
  {
    EMPTY.(store := EMPTY.store.(attempts := map[AttemptId(key, 1) := NewAttempt(0)]),
           procs := map[0 := Idle, 1 := Planning(key, 2, 0)])
  }

  lemma SplitRun(key: SelectionKey)
    ensures Run(EMPTY, SplitPlanning(key)) == SplitState(key)
  {
    hide Do, Run;
    var steps := SplitPlanning(key);
    Looks(key);
    NoneAuthorized(key);
    NoneActive(key);
    Inserts(key);
    assert steps[..2] == [PlanLook(0, key), PlanLook(1, key)];
    assert steps[..4] == steps[..2] + [PlanNoneAuthorized(0, 0), PlanNoneAuthorized(1, 0)];
    assert steps[..6] == steps[..4] + [PlanNoneActive(0, 0), PlanNoneActive(1, 0)];
    assert steps == steps[..6] + [PlanRead(0, 1), PlanInsert(0), PlanRead(1, 2)];
    RunAdd(EMPTY, steps[..2], [PlanNoneAuthorized(0, 0), PlanNoneAuthorized(1, 0)]);
    RunAdd(EMPTY, steps[..4], [PlanNoneActive(0, 0), PlanNoneActive(1, 0)]);
    RunAdd(EMPTY, steps[..6], [PlanRead(0, 1), PlanInsert(0), PlanRead(1, 2)]);
  }

  lemma RunOfTwo(s: State, a: Step, b: Step)
    ensures Run(s, [a, b]) == Do(Do(s, a), b)
  {
    hide Do;
    assert [a, b][..1] == [a];
    RunOne(s, a);
  }

  /** Both planners at one point of their planning. */
  function Both(l: Local): State { EMPTY.With(0, l).With(1, l) }

  lemma BothMove(l: Local, m: Local, n: Local)
    ensures EMPTY.With(0, l).With(1, m).With(0, n) == EMPTY.With(0, n).With(1, m)
    ensures EMPTY.With(0, l).With(1, m).With(1, n) == EMPTY.With(0, l).With(1, n)
    ensures EMPTY.With(0, l).With(1, m).At(0) == l && EMPTY.With(0, l).With(1, m).At(1) == m
  {
  }

  lemma Looks(key: SelectionKey)
    ensures Run(EMPTY, [PlanLook(0, key), PlanLook(1, key)]) == Both(SeekingAuthorized(key, false))
  {
    hide DoClaim, DoCommit, DoPersist, Run;
    RunOfTwo(EMPTY, PlanLook(0, key), PlanLook(1, key));
  }

  lemma NoneAuthorized(key: SelectionKey)
    ensures Run(Both(SeekingAuthorized(key, false)), [PlanNoneAuthorized(0, 0), PlanNoneAuthorized(1, 0)]) ==
            Both(SeekingActive(key))
  {
    hide DoClaim, DoCommit, DoPersist, Run;
    var l, m := SeekingAuthorized(key, false), SeekingActive(key);
    RunOfTwo(Both(l), PlanNoneAuthorized(0, 0), PlanNoneAuthorized(1, 0));
    BothMove(l, l, m);
    BothMove(m, l, m);
  }

  lemma NoneActive(key: SelectionKey)
    ensures Run(Both(SeekingActive(key)), [PlanNoneActive(0, 0), PlanNoneActive(1, 0)]) == Both(Checked(key, 0))
  {
    hide DoClaim, DoCommit, DoPersist, Run;
    var l, m := SeekingActive(key), Checked(key, 0);
    RunOfTwo(Both(l), PlanNoneActive(0, 0), PlanNoneActive(1, 0));
    BothMove(l, l, m);
    BothMove(m, l, m);
  }

  lemma Inserts(key: SelectionKey)
    ensures Run(Both(Checked(key, 0)), [PlanRead(0, 1), PlanInsert(0), PlanRead(1, 2)]) == SplitState(key)
  {
    hide DoClaim, DoCommit, DoPersist, Run;
    var l := Checked(key, 0);
    RunOfThree(Both(l), PlanRead(0, 1), PlanInsert(0), PlanRead(1, 2));
    BothMove(l, l, Planning(key, 1, 0));
    var s1 := EMPTY.With(0, Planning(key, 1, 0)).With(1, l);
    assert Do(Both(l), PlanRead(0, 1)) == s1;
    var s2 := s1.WithAttempts(map[AttemptId(key, 1) := NewAttempt(0)]).With(0, Idle);
    assert Do(s1, PlanInsert(0)) == s2;
    assert Largest(s2.store.attempts, key, 1) by { assert AttemptId(key, 1) in s2.store.attempts; }
    assert Do(s2, PlanRead(1, 2)) == s2.With(1, Planning(key, 2, 0));
    assert s2.With(1, Planning(key, 2, 0)).procs == SplitState(key).procs;
  }
}
