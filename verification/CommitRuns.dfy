/** A whole commit of the repository, with nothing between its parts, is a run of the partition protocol.
    So what holds of every run holds of every mixture of such commits with the steps of other processes. */
module CommitRuns {
  import opened Wrappers
  import opened Documents
  import opened Protocol
  import opened ProtocolInvariant
  import opened ProtocolTheorems
  import opened Runs

  // ----- storing rows -----

  function RowSteps(p: Proc, kind: Kind, rows: seq<Row>): seq<Step>
  {
    if rows == [] then [] else RowSteps(p, kind, rows[..|rows| - 1]) + [StoreRow(p, kind, rows[|rows| - 1])]
  }

  function RowsAdded(s: Store, part: Partition, kind: Kind, rows: seq<Row>): Store
  {
    match kind
    case MembershipRow => s.(memberships := s.memberships + RowsOf(part.id, rows))
    case SnapshotRow => s.(snapshots := s.snapshots + RowsOf(part.id, rows))
    case StatRow => s.(stats := s.stats + RowsOf(part.id, rows))
  }

  function RowsToStore(part: Partition, kind: Kind): seq<Row>
  {
    match kind
    case MembershipRow => part.content.memberships
    case SnapshotRow => part.content.snapshots
    case StatRow => part.content.stats
  }

  lemma RowsOfLast(id: PartitionId, rows: seq<Row>)
    requires rows != []
    ensures RowsOf(id, rows) == RowsOf(id, rows[..|rows| - 1]) + {StoredRow(id, rows[|rows| - 1])}
  {
    assert rows == rows[..|rows| - 1] + [rows[|rows| - 1]];
  }

  lemma OneRow(s: State, p: Proc, kind: Kind, row: Row)
    requires s.At(p).InCommit? && s.At(p).phase.Storing?
    ensures Do(s, StoreRow(p, kind, row)) == s.(store := RowAdded(s.store, s.At(p).part, kind, row))
  {
    hide DoPlan, DoClaim, DoPersist;
  }

  lemma AddedLast(s: Store, part: Partition, kind: Kind, rows: seq<Row>)
    requires rows != [] && rows[|rows| - 1] in RowsToStore(part, kind)
    ensures RowAdded(RowsAdded(s, part, kind, rows[..|rows| - 1]), part, kind, rows[|rows| - 1])
        == RowsAdded(s, part, kind, rows)
  {
    RowsOfLast(part.id, rows);
  }

  lemma AddedNone(s: Store, part: Partition, kind: Kind)
    ensures RowsAdded(s, part, kind, []) == s
  {
  }

  lemma {:induction false} RowsRun(s: State, p: Proc, kind: Kind, rows: seq<Row>)
    requires s.At(p).InCommit? && s.At(p).phase.Storing?
    requires forall r :: r in rows ==> r in RowsToStore(s.At(p).part, kind)
    ensures Run(s, RowSteps(p, kind, rows)) == s.(store := RowsAdded(s.store, s.At(p).part, kind, rows))
  {
    hide Do, RowsAdded, RowAdded, RowsToStore;
    var part := s.At(p).part;
    if rows == [] {
      AddedNone(s.store, part, kind);
    } else {
      var front, last := rows[..|rows| - 1], rows[|rows| - 1];
      RowsRun(s, p, kind, front);
      var t := s.(store := RowsAdded(s.store, part, kind, front));
      OneRow(t, p, kind, last);
      RunThen(s, RowSteps(p, kind, front), StoreRow(p, kind, last));
      AddedLast(s.store, part, kind, rows);
    }
  }

  function AllRowSteps(p: Proc, part: Partition): seq<Step>
  {
    RowSteps(p, MembershipRow, part.content.memberships) + RowSteps(p, SnapshotRow, part.content.snapshots)
    + RowSteps(p, StatRow, part.content.stats)
  }

  lemma AllRowsRun(s: State, p: Proc)
    requires s.At(p).InCommit? && s.At(p).phase.Storing?
    ensures var t := Run(s, AllRowSteps(p, s.At(p).part));
            t == s.(store := WithRows(s.store, s.At(p).part)) && RowsStored(t.store, s.At(p).part)
  {
    hide Do, RowsOf;
    var part := s.At(p).part;
    var a := RowSteps(p, MembershipRow, part.content.memberships);
    var b := RowSteps(p, SnapshotRow, part.content.snapshots);
    RunAdd(s, a + b, RowSteps(p, StatRow, part.content.stats));
    RunAdd(s, a, b);
    RowsRun(s, p, MembershipRow, part.content.memberships);
    RowsRun(Run(s, a), p, SnapshotRow, part.content.snapshots);
    RowsRun(Run(s, a + b), p, StatRow, part.content.stats);
  }

  // ----- the part of a commit that runs with the claim held -----

  /** The process holds the committing claim and is about to look for a completed partition. */
  predicate IsLooking(s: State, p: Proc) { s.At(p).InCommit? && s.At(p).phase.Looking? }

  /** What the commit of process p leaves, from where it holds its claim. */
  ghost function EnteredStore(s: State, p: Proc, at: nat): Store
    requires s.At(p).InCommit?
  {
    var c := s.At(p).claim;
    EnteredSpec(s.store, c.id, c.owner, c.token, at, s.At(p).part).0
  }

  /** With a completed document in place, the commit completes on it or refuses. */
  lemma AdoptRun(s: State, p: Proc, at: nat)
    requires IsLooking(s, p) && at <= s.clock && HasComplete(s.store, s.At(p).part.key)
    ensures Run(s, [FindExisting(p), CompleteOnExisting(p, at)]).store == EnteredStore(s, p, at)
  {
    hide DoPlan, DoClaim, DoPersist;
    RunThen(s, [FindExisting(p)], CompleteOnExisting(p, at));
    RunOne(s, FindExisting(p));
  }

  /** With none in place and none authorized, it stores its rows, completes its attempt and stores its document. */
  lemma NoneRun(s: State, p: Proc, at: nat) returns (steps: seq<Step>)
    requires IsLooking(s, p) && at <= s.clock && !HasComplete(s.store, s.At(p).part.key)
        && !SomeAuthorized(s.store, s.At(p).part.key)
    ensures Run(s, steps).store == EnteredStore(s, p, at)
  {
    hide DoPlan, DoClaim, DoPersist, RowsStored, WithRows, Repaired;
    var InCommit(c, part, phase) := s.At(p);
    var s1 := s.With(p, InCommit(c, part, Storing));
    assert Do(s, FindNone(p)) == s1;
    RunOne(s, FindNone(p));
    AllRowsRun(s1, p);
    var rows := [FindNone(p)] + AllRowSteps(p, part);
    RunAdd(s, [FindNone(p)], AllRowSteps(p, part));
    var s2 := s1.(store := WithRows(s1.store, part));
    var payload := Authoritative(part, c.id, c.token, at);
    var (t, done) := CompletedOn(s2.store, c.id, c.owner, c.token, at, payload);
    var s3 := s2.(store := t).With(p, if done then Persisting(payload, Inserting) else Failing(c));
    assert Do(s2, Authorize(p, at)) == s3;
    RunThen(s, rows, Authorize(p, at));
    if done {
      PersistRun(s3, p);
      RunAdd(s, rows + [Authorize(p, at)], PersistSteps(p));
      steps := rows + [Authorize(p, at)] + PersistSteps(p);
    } else {
      steps := rows + [Authorize(p, at)];
    }
  }

  /** The first attempt that authorized a partition of a key is one attempt. */
  lemma FirstIsOne(s: Store, i: AttemptId, j: AttemptId)
    requires FirstAuthorized(s, i) && FirstAuthorized(s, j) && i.key == j.key
    ensures i == j
  {
  }

  /** With no completed document but an authorized one, a lookup repairs it first; the repair is the work of q. */
  lemma RepairedRun(s: State, p: Proc, q: Proc, at: nat, id: AttemptId) returns (steps: seq<Step>)
    requires Inv(s) && IsLooking(s, p) && at <= s.clock && p != q && s.At(q).Free()
    requires !HasComplete(s.store, s.At(p).part.key) && FirstAuthorized(s.store, id) && id.key == s.At(p).part.key
    ensures Run(s, steps).store == EnteredStore(s, p, at)
  {
    hide DoPlan, DoClaim, DoCommit, Repaired, EnteredSpec;
    var part := s.At(p).part;
    var doc := s.store.attempts[id].result.value.partition;
    AttemptIs(s, id);
    var s1 := s.With(q, Persisting(doc, Inserting));
    assert Do(s, Repair(q, id)) == s1;
    RunOne(s, Repair(q, id));
    PersistRun(s1, q);
    RunAdd(s, [Repair(q, id)], PersistSteps(q));
    var repair := [Repair(q, id)] + PersistSteps(q);
    var (store, found) := Repaired(s.store, doc);
    var s2 := s1.(store := store).With(q, Answered(PersistOutcome(s.store.partitions, doc)));
    assert Run(s, repair) == s2;
    LookupIs(s.store, part.key, id);
    RepairIs(s.store, doc);
    if found.Found? {
      AdoptRun(s2, p, at);
      RunAdd(s, repair, [FindExisting(p), CompleteOnExisting(p, at)]);
      steps := repair + [FindExisting(p), CompleteOnExisting(p, at)];
      SameAfterLookup(s, s2, p, at);
    } else {
      steps := repair;
      RefusedLookup(s, p, at);
    }
  }

  lemma LookupIs(s: Store, key: SelectionKey, id: AttemptId)
    requires !HasComplete(s, key) && FirstAuthorized(s, id) && id.key == key
    ensures LookedUp(s, key) == Repaired(s, s.attempts[id].result.value.partition)
  {
    assert SomeAuthorized(s, key);
    forall j | FirstAuthorized(s, j) && j.key == key ensures j == id {
      FirstIsOne(s, id, j);
    }
  }

  /** What storing a complete document where there is none comes to. */
  lemma RepairIs(s: Store, doc: Partition)
    requires doc.Complete() && !HasComplete(s, doc.key)
    ensures var (t, found) := Repaired(s, doc);
            if found.Found? then HasComplete(t, doc.key)
                && t.partitions[doc.key] == found.partition else found.Refused? && t == s
  {
  }

  lemma SameAfterLookup(s: State, t: State, p: Proc, at: nat)
    requires s.At(p).InCommit? && t.At(p) == s.At(p)
    requires var (store, found) := LookedUp(s.store, s.At(p).part.key);
             t.store == store && found.Found? && HasComplete(t.store, s.At(p).part.key)
             && t.store.partitions[s.At(p).part.key] == found.partition
    ensures EnteredStore(t, p, at) == EnteredStore(s, p, at)
  {
    assert LookedUp(t.store, s.At(p).part.key) == (t.store, Found(t.store.partitions[s.At(p).part.key]));
  }

  lemma RefusedLookup(s: State, p: Proc, at: nat)
    requires s.At(p).InCommit? && LookedUp(s.store, s.At(p).part.key).1.Refused?
    ensures EnteredStore(s, p, at) == LookedUp(s.store, s.At(p).part.key).0
  {
  }

  lemma EnteredRun(s: State, p: Proc, q: Proc, at: nat) returns (steps: seq<Step>)
    requires Inv(s) && IsLooking(s, p) && at <= s.clock && p != q && s.At(q).Free()
    ensures Run(s, steps).store == EnteredStore(s, p, at)
  {
    hide Do, EnteredSpec, Inv;
    var key := s.At(p).part.key;
    if HasComplete(s.store, key) {
      AdoptRun(s, p, at);
      steps := [FindExisting(p), CompleteOnExisting(p, at)];
    } else if any :| Authorizes(s.store, any) && any.key == key {
      var id := FirstExists(s.store, any);
      steps := RepairedRun(s, p, q, at, id);
    } else {
      steps := NoneRun(s, p, at);
    }
  }

  // ----- the whole commit -----

  /** A commit done in one go, from a process that has computed its partition, leaves the store as some run of the
      protocol leaves it. The repair of a missing document, if one is needed, is the work of any idle process q. */
  lemma CommitIsARun(s: State, p: Proc, q: Proc, now: nat, at: nat) returns (steps: seq<Step>)
    requires Inv(s) && s.At(p).InCommit? && s.At(p).phase.Ready? && p != q && s.At(q).Free()
    requires now <= s.clock && at <= s.clock
    ensures var c := s.At(p).claim;
            Run(s, steps).store == CommitSpec(s.store, c.id, c.owner, c.token, now, now + COMMITTING_TTL, at,
                s.At(p).part).0
  {
    hide Inv, Evolves, DoPlan, DoClaim, DoPersist, EnteredSpec, Repaired;
    var InCommit(c, part, phase) := s.At(p);
    var claim := Held(c, {Running}, LeaseAfter(now));
    var s1 := Do(s, BeginCommit(p, now));
    RunOne(s, BeginCommit(p, now));
    StepKeeps(s, BeginCommit(p, now));
    if Hits(s.store.attempts, c.id, claim) {
      var rest := EnteredRun(s1, p, q, at);
      RunAdd(s, [BeginCommit(p, now)], rest);
      steps := [BeginCommit(p, now)] + rest;
    } else {
      assert s1 == s.With(p, InCommit(c, part, Recovering));
      var s2 := Do(s1, Recover(p));
      RunThen(s, [BeginCommit(p, now)], Recover(p));
      StepKeeps(s1, Recover(p));
      var two := [BeginCommit(p, now)] + [Recover(p)];
      if Authorizes(s.store, c.id) {
        var done := s.store.attempts[c.id].result.value;
        if done.token == c.token && done.partition.SameIdentity(part) {
          PersistRun(s2, p);
          RunAdd(s, two, PersistSteps(p));
          steps := two + PersistSteps(p);
        } else {
          steps := two;
        }
      } else {
        var s3 := Do(s2, Resume(p, now));
        RunThen(s, two, Resume(p, now));
        StepKeeps(s2, Resume(p, now));
        if Hits(s.store.attempts, c.id, Held(c, {Committing}, LeaseAfter(now))) {
          var rest := EnteredRun(s3, p, q, at);
          RunAdd(s, two + [Resume(p, now)], rest);
          steps := two + [Resume(p, now)] + rest;
        } else {
          steps := two + [Resume(p, now)];
        }
      }
    }
  }

  // ----- what a successful commit means -----

  /** What a store says of a commit that succeeded with partition q. */
  predicate Succeeded(t: Store, id: AttemptId, part: Partition, q: Partition)
  {
    && HasComplete(t, part.key) && t.partitions[part.key] == q && q.content == part.content
    && Authorizes(t, id)
  }

  lemma RepairSucceeds(s: Store, id: AttemptId, doc: Partition, part: Partition)
    requires doc.Complete() && doc.key == part.key && doc.content == part.content && Authorizes(s, id)
    ensures var (t, outcome) := Answer(Repaired(s, doc));
            outcome.Committed? ==> Succeeded(t, id, part, outcome.partition)
  {
  }

  lemma LookupFinds(s: State, key: SelectionKey)
    requires Inv(s)
    ensures var (t, found) := LookedUp(s.store, key);
            t.attempts == s.store.attempts && (found.Found? ==>
                HasComplete(t, key) && t.partitions[key] == found.partition)
  {
    hide Inv;
    if !HasComplete(s.store, key) && SomeAuthorized(s.store, key) {
      var any :| Authorizes(s.store, any) && any.key == key;
      var id := FirstExists(s.store, any);
      LookupIs(s.store, key, id);
      AttemptIs(s, id);
    }
  }

  lemma EnteredSucceeds(s: State, id: AttemptId, owner: string, token: Token, at: nat, part: Partition)
    requires Inv(s) && part.finished
    ensures var (t, outcome) := EnteredSpec(s.store, id, owner, token, at, part);
            outcome.Committed? ==> Succeeded(t, id, part, outcome.partition)
  {
    hide Inv, LookedUp, Repaired, WithRows;
    LookupFinds(s, part.key);
    var (s2, found) := LookedUp(s.store, part.key);
    if found.Missing? {
      var payload := Authoritative(part, id, token, at);
      var (s3, done) := CompletedOn(WithRows(s2, part), id, owner, token, at, payload);
      if done {
        RepairSucceeds(s3, id, payload, part);
      }
    }
  }

  /** A commit that succeeds leaves a completed document of the computed content, whose rows are all stored,
      and its own attempt completed. */
  lemma CommitSucceeds(s: State, p: Proc, q: Proc, now: nat, at: nat)
    requires Inv(s) && s.At(p).InCommit? && s.At(p).phase.Ready? && p != q && s.At(q).Free()
    requires now <= s.clock && at <= s.clock
    ensures var c, part := s.At(p).claim, s.At(p).part;
            var (t, outcome) := CommitSpec(s.store, c.id, c.owner, c.token, now, now + COMMITTING_TTL, at, part);
            outcome.Committed? ==> Succeeded(t, c.id, part, outcome.partition) && RowsStored(t, outcome.partition)
  {
    hide Inv, Evolves, EnteredSpec, Repaired, DoPlan, DoClaim, DoPersist;
    var InCommit(c, part, phase) := s.At(p);
    LocalIs(s, p);
    var (t, outcome) := CommitSpec(s.store, c.id, c.owner, c.token, now, now + COMMITTING_TTL, at, part);
    var claim := Held(c, {Running}, LeaseAfter(now));
    if Hits(s.store.attempts, c.id, claim) {
      StepKeeps(s, BeginCommit(p, now));
      EnteredSucceeds(Do(s, BeginCommit(p, now)), c.id, c.owner, c.token, at, part);
    } else if Authorizes(s.store, c.id) {
      AttemptIs(s, c.id);
      var done := s.store.attempts[c.id].result.value;
      if done.token == c.token && done.partition.SameIdentity(part) {
        RepairSucceeds(s.store, c.id, done.partition, part);
      }
    } else {
      EnteredSucceeds(s, c.id, c.owner, c.token, at, part);
    }
    if outcome.Committed? {
      var steps := CommitIsARun(s, p, q, now, at);
      CommitPoint(s, steps);
    }
  }

  // ----- exactly when a commit succeeds -----

  /** What is in place for the key lets a partition of this content through: a completed document of it,
      or none that is blocked and nothing authorized of another content. */
  ghost predicate Admits(s: Store, part: Partition)
  {
    if HasComplete(s, part.key) then s.partitions[part.key].content == part.content
    else
      && !Blocked(s, part.key)
      && forall id :: FirstAuthorized(s, id) && id.key == part.key ==>
           s.attempts[id].result.value.partition.content == part.content
  }

  /** The claim of a commit, as a caller can check it beforehand: running, or committing already, under an unexpired
      lease that, in the end, is later than the clock read then. */
  predicate ClaimHolds(s: Store, c: Claim, now: nat, at: nat)
  {
    if Hits(s.attempts, c.id, Held(c, {Running}, LeaseAfter(now))) then at < now + COMMITTING_TTL
    else
      && Hits(s.attempts, c.id, Held(c, {Committing}, LeaseAfter(now)))
      && Hits(s.attempts, c.id, Held(c, {Committing}, LeaseAfter(at)))
  }

  lemma LookupAdmits(s: State, part: Partition)
    requires Inv(s)
    ensures var found := LookedUp(s.store, part.key).1;
            Admits(s.store, part) <==>
              match found
              case Found(q) => q.content == part.content
              case Missing => !Blocked(s.store, part.key)
              case Refused => false
  {
    hide Inv;
    if !HasComplete(s.store, part.key) && SomeAuthorized(s.store, part.key) {
      var any :| Authorizes(s.store, any) && any.key == part.key;
      var id := FirstExists(s.store, any);
      LookupIs(s.store, part.key, id);
      AttemptIs(s, id);
      forall j | FirstAuthorized(s.store, j) && j.key == part.key ensures j == id {
        FirstIsOne(s.store, id, j);
      }
    }
  }

  lemma EnteredWhen(s: State, id: AttemptId, owner: string, token: Token, at: nat, part: Partition)
    requires Inv(s) && part.finished
    ensures EnteredSpec(s.store, id, owner, token, at, part).1.Committed? <==>
            Hits(s.store.attempts, id, HeldBy({Committing}, owner, token, LeaseAfter(at))) && Admits(s.store, part)
  {
    hide Inv, LookedUp, Admits, RowsOf;
    LookupFinds(s, part.key);
    LookupAdmits(s, part);
    LookupMisses(s.store, part.key);
  }

  /** A lookup that finds nothing leaves the store as it is. */
  lemma LookupMisses(s: Store, key: SelectionKey)
    ensures LookedUp(s, key).1.Missing? ==> LookedUp(s, key).0 == s && !HasComplete(s, key)
  {
  }

  /** Taking the committing claim does not change what is in place. */
  lemma StillAdmits(s: Store, id: AttemptId, a: Attempt, part: Partition)
    requires id in s.attempts && s.attempts[id].status != Completed && a.status != Completed
    ensures Admits(s.(attempts := s.attempts[id := a]), part) == Admits(s, part)
  {
    var t := s.(attempts := s.attempts[id := a]);
    assert forall j :: Authorizes(t, j) <==> Authorizes(s, j);
    assert forall j :: FirstAuthorized(t, j) <==> FirstAuthorized(s, j);
  }

  /** A commit succeeds exactly when its attempt has not authorized yet, its claim holds and what is in place admits its
      content; or when its attempt has authorized this very identity and no other document is in the way. */
  lemma CommitSucceedsWhen(s: State, p: Proc, now: nat, at: nat)
    requires Inv(s) && s.At(p).InCommit? && s.At(p).phase.Ready? && now <= s.clock
    ensures var c, part := s.At(p).claim, s.At(p).part;
            CommitSpec(s.store, c.id, c.owner, c.token, now, now + COMMITTING_TTL, at, part).1.Committed? <==>
            if Authorizes(s.store, c.id) then
              var doc := s.store.attempts[c.id].result.value.partition;
              doc.SameIdentity(part) && PersistOutcome(s.store.partitions, doc) != Conflict
            else ClaimHolds(s.store, c, now, at) && Admits(s.store, part)
  {
    hide Inv, Evolves, EnteredSpec, DoPlan, DoClaim, DoPersist, Admits;
    var InCommit(c, part, phase) := s.At(p);
    LocalIs(s, p);
    AttemptIs(s, c.id);
    if Hits(s.store.attempts, c.id, Held(c, {Running}, LeaseAfter(now))) {
      var t := Do(s, BeginCommit(p, now));
      StepKeeps(s, BeginCommit(p, now));
      EnteredWhen(t, c.id, c.owner, c.token, at, part);
      StillAdmits(s.store, c.id, ToCommitting(s.store.attempts[c.id], now + COMMITTING_TTL), part);
    } else if !Authorizes(s.store, c.id) {
      EnteredWhen(s, c.id, c.owner, c.token, at, part);
    }
  }
}
