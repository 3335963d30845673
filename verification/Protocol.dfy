/** The partition protocol as a state machine. Every conditional insert, update or replace is one step, any
    process may be interrupted between two steps, and a process may use a clock value it read earlier.
    A run is any sequence of steps, so it covers every interleaving, every stall and every crash. */
module Protocol {
  import opened Wrappers
  import opened Documents

  type Proc = nat

  /** A claim as the process that made it remembers it. */
  datatype Claim = Claim(id: AttemptId, owner: string, token: Token)

  /** Where a process stands inside a commit. */
  datatype Phase =
    | Ready                       // computed, about to take the committing claim
    | Recovering                  // the claim was not available: has the attempt already authorized?
    | Resuming                    // it had not: is it still committing under this claim?
    | Looking                     // holds the committing claim, about to look for a completed partition
    | Adopting(found: Partition)  // found one of the same content
    | Storing                     // found none, storing rows

  /** Where a process stands that stores a partition document. */
  datatype Place = Inserting | Occupied | Replacing

  datatype Local =
    | Idle
    | SeekingAuthorized(key: SelectionKey, again: bool) // planning: found no completed partition
    | SeekingActive(key: SelectionKey)                // planning: found no authorized one either
    | Overtaken(key: SelectionKey)                    // planning: the active attempt ended before it could be expired
    | Checked(key: SelectionKey, now: nat)            // planning: found nothing to reuse or wait for
    | Planning(key: SelectionKey, no: nat, now: nat)  // planning: read the next free number
    | Working(claim: Claim)
    | InCommit(claim: Claim, part: Partition, phase: Phase)
    | Persisting(doc: Partition, place: Place)
    | Answered(outcome: Persisted)                    // storing a document ended with this answer
    | Failing(claim: Claim)
  {
    /** Free to take up something new. */
    predicate Free() { Idle? || Answered? }
  }

  datatype State = State(store: Store, clock: nat, issued: nat, procs: map<Proc, Local>)
  {
    function At(p: Proc): Local { if p in procs then procs[p] else Idle }

    function With(p: Proc, l: Local): State { this.(procs := procs[p := l]) }

    function WithAttempts(a: Attempts): State { this.(store := store.(attempts := a)) }

    function WithPartitions(m: map<SelectionKey, Partition>): State { this.(store := store.(partitions := m)) }
  }

  datatype Kind = MembershipRow | SnapshotRow | StatRow

  datatype Step =
    | Tick(t: nat)
    | PlanLook(p: Proc, key: SelectionKey)
    | PlanNoneAuthorized(p: Proc, now: nat)
    | PlanNoneActive(p: Proc, now: nat)
    | PlanExpire(p: Proc, id: AttemptId, expected: Expected, now: nat)
    | PlanMissed(p: Proc, id: AttemptId)
    | PlanRead(p: Proc, no: nat)
    | PlanInsert(p: Proc)
    | PlanWhole(key: SelectionKey, now: nat, no: nat)
    | Expire(id: AttemptId, expected: Expected, now: nat)
    | AdoptScheduled(id: AttemptId, lease: Option<nat>)
    | TakeClaim(p: Proc, id: AttemptId, owner: string, lease: Option<nat>, now: nat)
    | Compute(p: Proc, content: Content, now: nat, contract: Contract, evidenced: bool)
    | Reenter(p: Proc, claim: Claim, content: Content, now: nat, contract: Contract, evidenced: bool)
    | Drift(p: Proc)
    | BeginCommit(p: Proc, now: nat)
    | Recover(p: Proc)
    | Resume(p: Proc, now: nat)
    | FindExisting(p: Proc)
    | FindNone(p: Proc)
    | CompleteOnExisting(p: Proc, now: nat)
    | StoreRow(p: Proc, kind: Kind, row: Row)
    | Authorize(p: Proc, now: nat)
    | Retry(p: Proc)
    | Repair(p: Proc, id: AttemptId)
    | Insert(p: Proc)
    | Inspect(p: Proc)
    | Replace(p: Proc)
    | Fail(p: Proc)
    | Crash(p: Proc)

  /** The claim a process remembers, if any. */
  function ClaimOf(l: Local): Option<Claim>
  {
    match l
    case Working(c) => Some(c)
    case InCommit(c, _, _) => Some(c)
    case Failing(c) => Some(c)
    case _ => None
  }

  function Held(c: Claim, statuses: set<Status>, lease: LeaseTest): Expected
  {
    HeldBy(statuses, c.owner, c.token, lease)
  }

  /** A filter that expires a claim: one active status and the lease that was read, found to be past. */
  predicate Expires(e: Expected, now: nat)
  {
    && (e.statuses == {Scheduled} || e.statuses == {Running} || e.statuses == {Committing})
    && e.lease.LeaseIs? && Expired(e.lease.lease, now)
  }

  function Computed(key: SelectionKey, content: Content, now: nat, contract: Contract, evidenced: bool): Partition
  {
    Partition(PartitionId(key, content), key, content, now, contract, evidenced, true, None)
  }

  /** The claim is the one recorded in the attempt. */
  predicate Recorded(s: State, c: Claim)
  {
    && c.id in s.store.attempts
    && s.store.attempts[c.id].token == Some(c.token)
    && s.store.attempts[c.id].owner == Some(c.owner)
  }

  ghost predicate ActiveNumber(attempts: Attempts, id: AttemptId)
  {
    id in attempts && attempts[id].status.Active()
  }

  /** The active attempt of the key with the largest number, as the planner looks it up. */
  ghost predicate LatestActive(attempts: Attempts, id: AttemptId)
  {
    ActiveNumber(attempts, id) && forall j :: ActiveNumber(attempts, j) && j.key == id.key ==> j.no <= id.no
  }

  ghost predicate SomeActive(attempts: Attempts, key: SelectionKey)
  {
    exists id :: ActiveNumber(attempts, id) && id.key == key
  }

  // ----- the steps -----

  /** Planning without interruption: reuse a completed partition, leave an unexpired active attempt alone,
      else expire the active one and create the next. */
  ghost function PlannedWhole(attempts: Attempts, key: SelectionKey, now: nat, no: nat): Attempts
  {
    if active :| LatestActive(attempts, active) && active.key == key then
      if Expired(attempts[active].lease, now) then
        attempts[active := ToExpired(attempts[active])][AttemptId(key, no) := NewAttempt(now)]
      else attempts
    else attempts[AttemptId(key, no) := NewAttempt(now)]
  }

  predicate IsPlan(step: Step)
  {
    step.PlanLook? || step.PlanNoneAuthorized? || step.PlanNoneActive? || step.PlanExpire? || step.PlanMissed?
    || step.PlanRead? || step.PlanInsert? || step.PlanWhole?
  }

  /** The planner's steps. It looks for a completed partition, then for an authorized one, then for an active attempt,
      each in a read of its own. It expires the active attempt when that is past its lease; when that has meanwhile
      ended by itself, it looks for a partition again. Then it reads the next number, then it inserts. */
  ghost function DoPlan(s: State, step: Step): State
    requires IsPlan(step)
  {
    var a := s.store.attempts;
    match step
    case PlanLook(p, key) =>
      var again := s.At(p) == Overtaken(key);
      if (s.At(p).Free() || again) && !HasComplete(s.store, key) then s.With(p, SeekingAuthorized(key, again)) else s
    case PlanNoneAuthorized(p, now) =>
      if s.At(p).SeekingAuthorized? && now <= s.clock && !SomeAuthorized(s.store, s.At(p).key)
      then s.With(p, if s.At(p).again then Checked(s.At(p).key, now) else SeekingActive(s.At(p).key)) else s
    case PlanNoneActive(p, now) =>
      if s.At(p).SeekingActive? && now <= s.clock && !SomeActive(a, s.At(p).key)
      then s.With(p, Checked(s.At(p).key, now)) else s
    case PlanExpire(p, id, e, now) =>
      if s.At(p) == SeekingActive(id.key) && now <= s.clock && Expires(e, now) && Hits(a, id, e)
      then s.WithAttempts(UpdatedIf(a, id, e, x => ToExpired(x))).With(p, Checked(id.key, now)) else s
    case PlanMissed(p, id) =>
      if s.At(p) == SeekingActive(id.key) && id in a && !a[id].status.Active()
      then s.With(p, Overtaken(id.key)) else s
    case PlanRead(p, no) =>
      if s.At(p).Checked? && no > 0 && Largest(a, s.At(p).key, no - 1)
      then s.With(p, Planning(s.At(p).key, no, s.At(p).now)) else s
    case PlanInsert(p) =>
      if s.At(p).Planning? then
        var l := s.At(p);
        var id := AttemptId(l.key, l.no);
        s.WithAttempts(if id in a then a else a[id := NewAttempt(l.now)]).With(p, Idle)
      else s
    case PlanWhole(key, now, no) =>
      if no > 0 && Largest(s.store.attempts, key, no - 1) && now <= s.clock
         && !HasComplete(s.store, key) && !SomeAuthorized(s.store, key)
      then s.WithAttempts(PlannedWhole(s.store.attempts, key, now, no)) else s
  }

  predicate OfClaims(step: Step)
  {
    || step.Expire? || step.AdoptScheduled? || step.TakeClaim? || step.Compute? || step.Reenter? || step.Drift?
    || step.Fail?
  }

  /** Taking, losing and giving up claims. A process whose answer was lost, or that restarts with the token it was
      given, takes up its claim again with the partition computed anew. */
  ghost function DoClaim(s: State, step: Step): State
    requires OfClaims(step)
  {
    var a := s.store.attempts;
    match step
    case Expire(id, e, now) =>
      if Expires(e, now) && now <= s.clock then s.WithAttempts(UpdatedIf(a, id, e, x => ToExpired(x))) else s
    case AdoptScheduled(id, lease) =>
      if HasComplete(s.store, id.key) then
        s.WithAttempts(UpdatedIf(a, id, Unclaimed(lease), x => ToAdopted(x, s.store.partitions[id.key].id)))
      else s
    case TakeClaim(p, id, owner, lease, now) =>
      if s.At(p).Free() && !Expired(lease, now) && now <= s.clock && Hits(a, id, Unclaimed(lease)) then
        var token := Token(s.issued);
        s.(issued := s.issued + 1)
         .WithAttempts(UpdatedIf(a, id, Unclaimed(lease), x => ToRunning(x, owner, token, now)))
         .With(p, Working(Claim(id, owner, token)))
      else s
    case Compute(p, content, now, contract, evidenced) =>
      if s.At(p).Working? && now <= s.clock then
        var c := s.At(p).claim;
        s.With(p, InCommit(c, Computed(c.id.key, content, now, contract, evidenced), Ready))
      else s
    case Reenter(p, c, content, now, contract, evidenced) =>
      if s.At(p).Free() && Recorded(s, c) && now <= s.clock
      then s.With(p, InCommit(c, Computed(c.id.key, content, now, contract, evidenced), Ready)) else s
    case Drift(p) =>
      if s.At(p).Working? || (s.At(p).InCommit? && s.At(p).phase.Ready?) then
        var c := s.At(p).claim;
        s.WithAttempts(UpdatedIf(a, c.id, Held(c, {Running}, AnyLease), x => ToDrifted(x))).With(p, Idle)
      else s
    case Fail(p) =>
      if ClaimOf(s.At(p)).Some? then
        var c := ClaimOf(s.At(p)).value;
        s.WithAttempts(UpdatedIf(a, c.id, Held(c, {Running, Committing}, AnyLease), x => ToFailed(x))).With(p, Idle)
      else s
  }

  predicate OfCommits(step: Step)
  {
    || step.BeginCommit? || step.Recover? || step.Resume? || step.FindExisting? || step.FindNone?
    || step.CompleteOnExisting? || step.StoreRow? || step.Authorize? || step.Retry?
  }

  ghost function DoCommit(s: State, step: Step): State
    requires OfCommits(step)
  {
    if !s.At(step.p).InCommit? then s
    else
      var a := s.store.attempts;
      var InCommit(c, part, phase) := s.At(step.p);
      match step
      case BeginCommit(p, now) =>
        if phase.Ready? && now <= s.clock then
          var claim := Held(c, {Running}, LeaseAfter(now));
          s.WithAttempts(UpdatedIf(a, c.id, claim, x => ToCommitting(x, now + COMMITTING_TTL)))
           .With(p, InCommit(c, part, if Hits(a, c.id, claim) then Looking else Recovering))
        else s
      case Recover(p) =>
        if phase.Recovering? then
          if !Authorizes(s.store, c.id) then s.With(p, InCommit(c, part, Resuming))
          else
            var done := a[c.id].result.value;
            s.With(p, if done.token == c.token && done.partition.SameIdentity(part)
                      then Persisting(done.partition, Inserting) else Failing(c))
        else s
      case Resume(p, now) =>
        if phase.Resuming? && now <= s.clock then
          s.With(p, if Hits(a, c.id, Held(c, {Committing}, LeaseAfter(now))) then InCommit(c, part, Looking)
              else Failing(c))
        else s
      case FindExisting(p) =>
        if phase.Looking? && HasComplete(s.store, part.key) then
          var found := s.store.partitions[part.key];
          s.With(p, if found.content == part.content then InCommit(c, part, Adopting(found)) else Failing(c))
        else s
      case FindNone(p) =>
        if phase.Looking? && !SomeAuthorized(s.store, part.key) then s.With(p, InCommit(c, part, Storing)) else s
      case CompleteOnExisting(p, now) =>
        if phase.Adopting? && now <= s.clock then
          var held := Held(c, {Committing}, LeaseAfter(now));
          s.WithAttempts(UpdatedIf(a, c.id, held, x => ToCompleted(x, phase.found, c.token, now)))
           .With(p, if Hits(a, c.id, held) then Answered(AlreadyThere) else Failing(c))
        else s
      case StoreRow(p, kind, row) =>
        if phase.Storing? then s.(store := RowAdded(s.store, part, kind, row)) else s
      case Authorize(p, now) =>
        if phase.Storing? && RowsStored(s.store, part) && now <= s.clock then
          var held := Held(c, {Committing}, LeaseAfter(now));
          var payload := Authoritative(part, c.id, c.token, now);
          s.WithAttempts(UpdatedIf(a, c.id, held, x => ToCompleted(x, payload, c.token, now)))
           .With(p, if Hits(a, c.id, held) then Persisting(payload, Inserting) else Failing(c))
        else s
      case Retry(p) => s.With(p, InCommit(c, part, Ready))
  }

  /** Storing one row of a partition; storing it again changes nothing. */
  function RowAdded(s: Store, part: Partition, kind: Kind, row: Row): Store
  {
    match kind
    case MembershipRow => if row in part.content.memberships then s.(memberships := s.memberships
        + {StoredRow(part.id, row)}) else s
    case SnapshotRow => if row in part.content.snapshots then s.(snapshots := s.snapshots + {StoredRow(part.id,
        row)}) else s
    case StatRow => if row in part.content.stats then s.(stats := s.stats + {StoredRow(part.id, row)}) else s
  }

  predicate OfPersisting(step: Step) { step.Repair? || step.Insert? || step.Inspect? || step.Replace? }

  ghost function DoPersist(s: State, step: Step): State
    requires OfPersisting(step)
  {
    match step
    case Repair(p, id) =>
      if s.At(p).Free() && FirstAuthorized(s.store, id)
      then s.With(p, Persisting(s.store.attempts[id].result.value.partition, Inserting)) else s
    case Insert(p) =>
      if s.At(p).Persisting? && s.At(p).place.Inserting? then
        var doc := s.At(p).doc;
        if doc.key !in s.store.partitions
        then s.WithPartitions(s.store.partitions[doc.key := doc]).With(p, Answered(Stored))
        else s.With(p, Persisting(doc, Occupied))
      else s
    case Inspect(p) =>
      if s.At(p).Persisting? && s.At(p).place.Occupied? then
        var doc := s.At(p).doc;
        if doc.key !in s.store.partitions then s.With(p, Answered(Conflict))
        else
          var existing := s.store.partitions[doc.key];
          s.With(p, if !existing.Complete() then Persisting(doc, Replacing)
                    else Answered(if existing.SameIdentity(doc) then AlreadyThere else Conflict))
      else s
    case Replace(p) =>
      if s.At(p).Persisting? && s.At(p).place.Replacing? then
        var doc := s.At(p).doc;
        if doc.key in s.store.partitions && s.store.partitions[doc.key].commit.None?
        then s.WithPartitions(s.store.partitions[doc.key := doc]).With(p, Answered(Stored))
        else s.With(p, Answered(Conflict))
      else s
  }

  /** One step. A step that is not enabled changes nothing. */
  ghost function Do(s: State, step: Step): State
  {
    match step
    case Tick(t) => s.(clock := s.clock + t)
    case Crash(p) => s.With(p, Idle)
    case PlanLook(_, _) => DoPlan(s, step)
    case PlanNoneAuthorized(_, _) => DoPlan(s, step)
    case PlanNoneActive(_, _) => DoPlan(s, step)
    case PlanExpire(_, _, _, _) => DoPlan(s, step)
    case PlanMissed(_, _) => DoPlan(s, step)
    case PlanRead(_, _) => DoPlan(s, step)
    case PlanInsert(_) => DoPlan(s, step)
    case PlanWhole(_, _, _) => DoPlan(s, step)
    case Expire(_, _, _) => DoClaim(s, step)
    case AdoptScheduled(_, _) => DoClaim(s, step)
    case TakeClaim(_, _, _, _, _) => DoClaim(s, step)
    case Compute(_, _, _, _, _) => DoClaim(s, step)
    case Reenter(_, _, _, _, _, _) => DoClaim(s, step)
    case Drift(_) => DoClaim(s, step)
    case Fail(_) => DoClaim(s, step)
    case Repair(_, _) => DoPersist(s, step)
    case Insert(_) => DoPersist(s, step)
    case Inspect(_) => DoPersist(s, step)
    case Replace(_) => DoPersist(s, step)
    case _ => DoCommit(s, step)
  }

  /** A run. */
  ghost function Run(s: State, steps: seq<Step>): State
  {
    if steps == [] then s else Do(Run(s, steps[..|steps| - 1]), steps[|steps| - 1])
  }

  /** Where runs start: nothing planned, and at most incomplete partition documents left by earlier versions. */
  ghost predicate Initial(s: State)
  {
    && s.store.attempts == map[] && s.procs == map[]
    && forall key :: key in s.store.partitions ==>
        s.store.partitions[key].key == key && !s.store.partitions[key].Complete()
  }
}
