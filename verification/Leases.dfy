/** Claims and their leases: what may change an attempt, a finalization or a publication, and when. Leases are compared
    with the clock here, and the terms they are given are stated in seconds. */
module Leases {
  import opened Wrappers
  import opened Documents
  import opened Protocol
  import opened ProtocolInvariant
  import opened ProtocolTheorems

  // ----- partition attempts -----

  /** The lease is past by the clock. */
  predicate PastLease(a: Attempt, clock: nat) { a.lease.Some? && a.lease.value <= clock }

  /** The lease is not past at `now`, and that is a clock value. */
  predicate LiveAt(a: Attempt, now: nat, clock: nat) { a.lease.Some? && now < a.lease.value && now <= clock }

  /** Process p claims the attempt under the owner and token it has. */
  predicate Holds(s: State, p: Proc, id: AttemptId, a: Attempt)
  {
    && ClaimOf(s.At(p)).Some?
    && var c := ClaimOf(s.At(p)).value;
    && c.id == id && a.owner == Some(c.owner) && a.token == Some(c.token)
  }

  /** A claim that is taken lasts six hours. */
  predicate Taken(s: State, step: Step, a: Attempt, b: Attempt)
  {
    && step.TakeClaim? && a.status == Scheduled && LiveAt(a, step.now, s.clock)
    && b == a.(status := Running, owner := Some(step.owner), token := Some(Token(s.issued)),
               lease := Some(step.now + 21600))
  }

  /** An unclaimed attempt is closed by a completed partition of its key. */
  predicate Adopted(s: State, step: Step, id: AttemptId, a: Attempt, b: Attempt)
  {
    && step.AdoptScheduled? && a.status == Scheduled && HasComplete(s.store, id.key)
    && b == a.(status := Completed, partitionId := Some(s.store.partitions[id.key].id), lease := None)
  }

  /** Its holder starts to commit, for one hour, gives it up, or completes it. */
  predicate Advanced(s: State, step: Step, id: AttemptId, a: Attempt, b: Attempt)
  {
    match step
    case BeginCommit(p, now) =>
      && Holds(s, p, id, a) && a.status == Running && LiveAt(a, now, s.clock)
      && b == a.(status := Committing, lease := Some(now + 3600))
    case Drift(p) =>
      Holds(s, p, id, a) && a.status == Running && b == a.(status := UpstreamDrift, lease := None)
    case Fail(p) =>
      Holds(s, p, id, a) && (a.status == Running || a.status == Committing) && b == a.(status := Failed)
    case Authorize(p, now) =>
      && Holds(s, p, id, a) && a.status == Committing && LiveAt(a, now, s.clock) && s.At(p).InCommit?
      && var doc := s.At(p).part.(commit := Some(Commit(id, a.token.value, now)));
      b == Attempt(Completed, a.owner, a.token, None, Some(doc.id), Some(CommitResult(doc, a.token.value, now)))
    case CompleteOnExisting(p, now) =>
      && Holds(s, p, id, a) && a.status == Committing && LiveAt(a, now, s.clock) && HasComplete(s.store, id.key)
      && var doc := s.store.partitions[id.key];
      b == Attempt(Completed, a.owner, a.token, None, Some(doc.id), Some(CommitResult(doc, a.token.value, now)))
    case _ => false
  }

  /** All that can happen to an attempt. It is declared expired only when its lease is past. */
  predicate Changes(s: State, step: Step, id: AttemptId, a: Attempt, b: Attempt)
  {
    || b == a
    || (a.status.Active() && PastLease(a, s.clock) && b == a.(status := ClaimExpired))
    || Taken(s, step, a, b)
    || Adopted(s, step, id, a, b)
    || Advanced(s, step, id, a, b)
  }

  lemma PlanChanges(s: State, step: Step, id: AttemptId)
    requires IsPlan(step) && Inv(s) && id in s.store.attempts
    ensures var t := DoPlan(s, step);
            id in t.store.attempts && Changes(s, step, id, s.store.attempts[id], t.store.attempts[id])
  {
    hide Inv, Taken, Adopted, Advanced, HasComplete, SomeAuthorized;
    AttemptIs(s, id);
    if step.PlanWhole? && step.no > 0 {
      assert Largest(s.store.attempts, step.key, step.no - 1) ==> AttemptId(step.key, step.no) !in s.store.attempts;
    }
  }

  lemma ClaimChanges(s: State, step: Step, id: AttemptId)
    requires OfClaims(step) && Inv(s) && id in s.store.attempts
    ensures var t := DoClaim(s, step);
            id in t.store.attempts && Changes(s, step, id, s.store.attempts[id], t.store.attempts[id])
  {
    hide Inv;
    AttemptIs(s, id);
  }

  lemma CommitChanges(s: State, step: Step, id: AttemptId)
    requires OfCommits(step) && Inv(s) && id in s.store.attempts
    ensures var t := DoCommit(s, step);
            id in t.store.attempts && Changes(s, step, id, s.store.attempts[id], t.store.attempts[id])
  {
    hide *;
    if step.CompleteOnExisting? {
      ExistingChanges(s, step, id);
    } else {
      OwnChanges(s, step, id);
    }
  }

  lemma ExistingChanges(s: State, step: Step, id: AttemptId)
    requires step.CompleteOnExisting? && Inv(s) && id in s.store.attempts
    ensures var t := DoCommit(s, step);
            id in t.store.attempts && Changes(s, step, id, s.store.attempts[id], t.store.attempts[id])
  {
    hide Inv;
    LocalIs(s, step.p);
  }

  lemma OwnChanges(s: State, step: Step, id: AttemptId)
    requires OfCommits(step) && !step.CompleteOnExisting? && id in s.store.attempts
    ensures var t := DoCommit(s, step);
            id in t.store.attempts && Changes(s, step, id, s.store.attempts[id], t.store.attempts[id])
  {
    hide SomeAuthorized, RowsStored, HasComplete, Authorizes;
  }

  lemma SameChanges(s: State, step: Step, id: AttemptId)
    requires id in s.store.attempts
    ensures Changes(s, step, id, s.store.attempts[id], s.store.attempts[id])
  {
  }

  /** Nothing else happens to an attempt, whatever step is made. */
  lemma AttemptChanges(s: State, step: Step, id: AttemptId)
    requires Inv(s) && id in s.store.attempts
    ensures var t := Do(s, step);
            id in t.store.attempts && Changes(s, step, id, s.store.attempts[id], t.store.attempts[id])
  {
    hide Inv, Do, DoPlan, DoClaim, DoCommit, DoPersist, Changes, IsPlan, OfClaims, OfPersisting, OfCommits;
    StepIs(s, step);
    SameChanges(s, step, id);
    if step.Tick? || step.Crash? {
    } else if IsPlan(step) {
      PlanChanges(s, step, id);
    } else if OfClaims(step) {
      ClaimChanges(s, step, id);
    } else if OfPersisting(step) {
      PersistKeepsAttempts(s, step);
    } else {
      CommitChanges(s, step, id);
    }
  }

  /** A new attempt is scheduled and can be claimed for nine minutes. */
  lemma NewAttemptIs(s: State, step: Step, id: AttemptId)
    requires id !in s.store.attempts && id in Do(s, step).store.attempts
    ensures (step.PlanInsert? && s.At(step.p).Planning?) || step.PlanWhole?
    ensures var planned := if step.PlanWhole? then step.now else s.At(step.p).now;
            Do(s, step).store.attempts[id] == Attempt(Scheduled, None, None, Some(planned + 540), None, None)
  {
    hide Do, DoPlan, DoClaim, DoCommit, DoPersist, IsPlan, OfClaims, OfPersisting, OfCommits;
    StepIs(s, step);
    if step.Tick? || step.Crash? {
    } else if IsPlan(step) {
      PlanCreates(s, step, id);
    } else if OfClaims(step) {
      ClaimCreatesNone(s, step);
    } else if OfPersisting(step) {
      PersistKeepsAttempts(s, step);
    } else {
      CommitCreatesNone(s, step);
    }
  }

  lemma PlanCreates(s: State, step: Step, id: AttemptId)
    requires IsPlan(step) && id !in s.store.attempts && id in DoPlan(s, step).store.attempts
    ensures (step.PlanInsert? && s.At(step.p).Planning?) || step.PlanWhole?
    ensures var planned := if step.PlanWhole? then step.now else s.At(step.p).now;
            DoPlan(s, step).store.attempts[id] == Attempt(Scheduled, None, None, Some(planned + 540), None, None)
  {
    hide HasComplete, SomeAuthorized, Largest;
  }

  lemma ClaimCreatesNone(s: State, step: Step)
    requires OfClaims(step)
    ensures DoClaim(s, step).store.attempts.Keys == s.store.attempts.Keys
  {
  }

  lemma CommitCreatesNone(s: State, step: Step)
    requires OfCommits(step)
    ensures DoCommit(s, step).store.attempts.Keys == s.store.attempts.Keys
  {
    hide HasComplete, SomeAuthorized, RowsStored;
  }

  /** While the clock has not reached its lease, no step of anyone declares an attempt expired. */
  lemma LiveAttemptStays(s: State, step: Step, id: AttemptId)
    requires Inv(s) && id in s.store.attempts && s.store.attempts[id].status.Active()
    ensures s.store.attempts[id].lease.Some?
    ensures var t := Do(s, step);
            && id in t.store.attempts
            && (s.clock < s.store.attempts[id].lease.value ==> t.store.attempts[id].status != ClaimExpired)
  {
    hide Inv, Do, Taken, Adopted, Advanced;
    AttemptIs(s, id);
    AttemptChanges(s, step, id);
    OthersExpireNone(s, step, id, s.store.attempts[id], Do(s, step).store.attempts[id]);
  }

  lemma OthersExpireNone(s: State, step: Step, id: AttemptId, a: Attempt, b: Attempt)
    ensures Taken(s, step, a, b) || Adopted(s, step, id, a, b) || Advanced(s, step, id, a, b) ==>
              b.status != ClaimExpired
  {
  }

  /** Every attempt that has been declared expired keeps the lease that was past. */
  ghost predicate ExpiredWerePast(s: State)
  {
    forall id :: id in s.store.attempts && s.store.attempts[id].status == ClaimExpired ==>
      PastLease(s.store.attempts[id], s.clock)
  }

  /** So over every run. */
  lemma {:induction false} ExpiredOnlyWhenPast(s: State, steps: seq<Step>)
    requires Inv(s) && ExpiredWerePast(s)
    ensures ExpiredWerePast(Run(s, steps))
  {
    hide Inv, Do, Evolves;
    if steps != [] {
      var t, step := Run(s, steps[..|steps| - 1]), steps[|steps| - 1];
      ExpiredOnlyWhenPast(s, steps[..|steps| - 1]);
      RunKeeps(s, steps[..|steps| - 1]);
      ClockRises(t, step);
      forall id | id in Do(t, step).store.attempts && Do(t, step).store.attempts[id].status == ClaimExpired
        ensures PastLease(Do(t, step).store.attempts[id], Do(t, step).clock)
      {
        if id in t.store.attempts {
          AttemptChanges(t, step, id);
        } else {
          NewAttemptIs(t, step, id);
        }
      }
    }
  }

  lemma ClockRises(s: State, step: Step)
    requires Inv(s)
    ensures s.clock <= Do(s, step).clock
  {
    hide Inv, Do;
    StepKeeps(s, step);
  }

  /** An uninterrupted planner that finds neither a partition nor an authorized one. With a live active attempt it does
      nothing; an active attempt past its lease it declares expired, and schedules the next. */
  lemma PlannerSeesActive(s: State, key: SelectionKey, now: nat, no: nat, active: AttemptId)
    requires now <= s.clock && no > 0 && Largest(s.store.attempts, key, no - 1)
    requires !HasComplete(s.store, key) && !SomeAuthorized(s.store, key)
    requires active in s.store.attempts && active.key == key
    requires s.store.attempts[active].status.Active() && s.store.attempts[active].lease.Some?
    requires forall j ::
               j in s.store.attempts && j.key == key && s.store.attempts[j].status.Active() ==> j.no <= active.no
    ensures var a := s.store.attempts;
            Do(s, PlanWhole(key, now, no)).store.attempts ==
            if now < a[active].lease.value then a
            else a[active := a[active].(status := ClaimExpired)]
                  [AttemptId(key, no) := Attempt(Scheduled, None, None, Some(now + 540), None, None)]
  {
    hide DoClaim, DoCommit, DoPersist, Largest, HasComplete, SomeAuthorized;
    assert LatestActive(s.store.attempts, active);
    forall j | LatestActive(s.store.attempts, j) && j.key == key ensures j == active {
      assert ActiveNumber(s.store.attempts, j);
    }
  }

  /** Without an active attempt it schedules the next. */
  lemma PlannerSeesNone(s: State, key: SelectionKey, now: nat, no: nat)
    requires now <= s.clock && no > 0 && Largest(s.store.attempts, key, no - 1)
    requires !HasComplete(s.store, key) && !SomeAuthorized(s.store, key)
    requires forall j :: j in s.store.attempts && j.key == key ==> !s.store.attempts[j].status.Active()
    ensures Do(s, PlanWhole(key, now, no)).store.attempts ==
            s.store.attempts[AttemptId(key, no) := Attempt(Scheduled, None, None, Some(now + 540), None, None)]
  {
    hide DoClaim, DoCommit, DoPersist, Largest, HasComplete, SomeAuthorized;
  }

  /** The filter that expires an attempt as it is. */
  function AsRead(a: Attempt): Expected { Expected({a.status}, None, None, LeaseIs(a.lease)) }

  /** Anyone who reads an active attempt can declare it expired exactly when its lease is past; so can a planner in the
      middle of its reads. */
  lemma CanExpireExactly(s: State, p: Proc, id: AttemptId, now: nat)
    requires id in s.store.attempts && s.store.attempts[id].status.Active() && s.store.attempts[id].lease.Some?
    requires now <= s.clock
    ensures var a := s.store.attempts;
            var past := if now < a[id].lease.value then a else a[id := a[id].(status := ClaimExpired)];
            && Do(s, Expire(id, AsRead(a[id]), now)).store.attempts == past
            && (s.At(p) == SeekingActive(id.key) ==>
                  Do(s, PlanExpire(p, id, AsRead(a[id]), now)).store.attempts == past)
  {
    hide DoCommit, DoPersist;
  }

  /** A free process that reads an attempt can claim it exactly when it is scheduled and its lease is not past. */
  lemma CanClaimExactly(s: State, p: Proc, id: AttemptId, owner: string, now: nat)
    requires s.At(p).Free() && id in s.store.attempts && now <= s.clock && s.store.attempts[id].lease.Some?
    ensures var a := s.store.attempts[id];
            var t := Do(s, TakeClaim(p, id, owner, a.lease, now));
            if a.status == Scheduled && now < a.lease.value then
              && t.At(p) == Working(Claim(id, owner, Token(s.issued)))
              && t.store.attempts[id] == a.(status := Running, owner := Some(owner), token := Some(Token(s.issued)),
                                            lease := Some(now + 21600))
            else t == s
  {
    hide DoPlan, DoCommit, DoPersist;
  }

  /** A process ends its own claim exactly while it holds it: it fails it while it is running or committing, and
      reports a drift while it is running. Either way it is idle afterwards. */
  lemma HolderEndsExactly(s: State, p: Proc, c: Claim)
    requires ClaimOf(s.At(p)) == Some(c) && c.id in s.store.attempts
    ensures var a := s.store.attempts[c.id];
            var mine := a.owner == Some(c.owner) && a.token == Some(c.token);
            var t := Do(s, Fail(p));
            && t.At(p) == Idle
            && t.store.attempts == (if mine && (a.status == Running || a.status == Committing)
                                    then s.store.attempts[c.id := a.(status := Failed)] else s.store.attempts)
            && (s.At(p).Working? ==>
                  && Do(s, Drift(p)).At(p) == Idle
                  && Do(s, Drift(p)).store.attempts ==
                     (if mine && a.status == Running
                      then s.store.attempts[c.id := a.(status := UpstreamDrift, lease := None)] else s.store.attempts))
  {
    hide DoPlan, DoCommit, DoPersist;
  }

  /** An attempt is adopted exactly when it is still scheduled and its key has a completed partition. */
  lemma AdoptedExactly(s: State, id: AttemptId)
    requires id in s.store.attempts
    ensures var a := s.store.attempts[id];
            Do(s, AdoptScheduled(id, a.lease)).store.attempts ==
            if a.status == Scheduled && id.key in s.store.partitions && s.store.partitions[id.key].finished
               && s.store.partitions[id.key].commit.Some?
            then s.store.attempts[id := a.(status := Completed, partitionId := Some(s.store.partitions[id.key].id),
                                           lease := None)]
            else s.store.attempts
  {
    hide DoPlan, DoCommit, DoPersist;
  }

  /** A planner whose active attempt ends before it can be expired looks once more for a partition, completed or
      authorized, and goes on to number its attempt when there is none. */
  lemma LooksAgain(s: State, p: Proc, id: AttemptId, now: nat)
    requires s.At(p) == SeekingActive(id.key) && id in s.store.attempts && !s.store.attempts[id].status.Active()
    requires now <= s.clock
    ensures var t := Do(Do(Do(s, PlanMissed(p, id)), PlanLook(p, id.key)), PlanNoneAuthorized(p, now));
            && t.store == s.store
            && t.At(p) == if HasComplete(s.store, id.key) then Overtaken(id.key)
                          else if SomeAuthorized(s.store, id.key) then SeekingAuthorized(id.key, true)
                          else Checked(id.key, now)
  {
    hide DoClaim, DoCommit, DoPersist, HasComplete, SomeAuthorized;
  }
}
