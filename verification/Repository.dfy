/** The repository: conditional inserts, updates and replaces over the stored documents. */
module RepositoryClass {
  import opened Wrappers
  import opened Documents
  import opened Batches

  class Repository {
    var attempts: map<AttemptId, Attempt>
    var partitions: map<SelectionKey, Partition>
    var memberships: set<StoredRow>
    var snapshots: set<StoredRow>
    var stats: set<StoredRow>
    var batches: BatchMap
    var finals: Finals

    ghost function View(): Store
      reads this
    {
      Store(attempts, partitions, memberships, snapshots, stats)
    }

    constructor ()
      ensures View() == Store(map[], map[], {}, {}, {}) && batches == map[] && finals == map[]
    {
      attempts, partitions, memberships, snapshots, stats := map[], map[], {}, {}, {};
      batches, finals := map[], map[];
    }

    /** One more than the largest number in use. */
    method NextAttemptNo(key: SelectionKey) returns (no: nat)
      ensures no > 0 && Largest(attempts, key, no - 1)
    {
      var latest := 0;
      var ids := attempts.Keys;
      while ids != {}
        invariant ids <= attempts.Keys
        invariant latest > 0 ==> AttemptId(key, latest) in attempts
        invariant forall no: nat :: AttemptId(key, no) in attempts && AttemptId(key, no) !in ids ==> no <= latest
        decreases |ids|
      {
        var id :| id in ids;
        if id.key == key && id.no > latest {
          latest := id.no;
        }
        ids := ids - {id};
      }
      no := latest + 1;
    }

    /** Insert a new attempt; when its number is taken, answer with the one that took it. */
    method CreateAttempt(id: AttemptId, document: Attempt) returns (stored: Attempt)
      modifies this`attempts
      ensures attempts == if id in old(attempts) then old(attempts) else old(attempts)[id := document]
      ensures stored == attempts[id]
    {
      if id !in attempts {
        attempts := attempts[id := document];
      }
      stored := attempts[id];
    }

    method UpdateAttemptIf(id: AttemptId, expected: Expected, fields: Attempt -> Attempt)
      returns (matched: bool, current: Option<Attempt>)
      modifies this`attempts
      ensures attempts == UpdatedIf(old(attempts), id, expected, fields)
      ensures matched == Hits(old(attempts), id, expected)
      ensures current == if id in attempts then Some(attempts[id]) else None
    {
      matched := id in attempts && Matches(attempts[id], expected);
      if matched {
        attempts := attempts[id := fields(attempts[id])];
      }
      current := if id in attempts then Some(attempts[id]) else None;
    }

    method FirstAuthorizedAttempt(key: SelectionKey) returns (first: Option<AttemptId>)
      ensures first.None? ==> !SomeAuthorized(View(), key)
      ensures first.Some? ==> FirstAuthorized(View(), first.value) && first.value.key == key
    {
      first := None;
      var ids := attempts.Keys;
      while ids != {}
        invariant ids <= attempts.Keys
        invariant first.Some? ==> Authorizes(View(), first.value) && first.value.key == key
        invariant forall j :: Authorizes(View(), j) && j.key == key && j !in ids ==>
            first.Some? && first.value.no <= j.no
        decreases |ids|
      {
        var id :| id in ids;
        if id.key == key && attempts[id].status == Completed && attempts[id].result.Some?
           && (first.None? || id.no < first.value.no) {
          first := Some(id);
        }
        ids := ids - {id};
      }
    }

    method FindCompletedPartition(key: SelectionKey) returns (r: Lookup)
      modifies this`partitions
      ensures (View(), r) == LookedUp(old(View()), key)
    {
      if key in partitions && partitions[key].Complete() {
        return Found(partitions[key]);
      }
      var first := FirstAuthorizedAttempt(key);
      if first.None? {
        return Missing;
      }
      ghost var s := View();
      assert SomeAuthorized(s, key);
      r := PersistAuthoritativePartition(attempts[first.value].result.value.partition);
    }

    method PersistAuthoritativePartition(p: Partition) returns (r: Lookup)
      modifies this`partitions
      ensures (View(), r) == Repaired(old(View()), p)
    {
      if p.key !in partitions {
        partitions := partitions[p.key := p];
        return Found(p);
      }
      var existing := partitions[p.key];
      if existing.key == p.key && existing.id == p.id && existing.content == p.content && existing.Complete() {
        return Found(existing);
      }
      if existing.Complete() {
        return Refused;
      }
      if existing.commit.Some? {
        return Refused;
      }
      partitions := partitions[p.key := p];
      return Found(p);
    }

    method InsertImmutableRows(collection: set<StoredRow>, p: PartitionId, rows: seq<Row>) returns (r: set<StoredRow>)
      ensures r == collection + RowsOf(p, rows)
    {
      r := collection;
      for k := 0 to |rows|
        invariant r == collection + RowsOf(p, rows[..k])
      {
        r := r + {StoredRow(p, rows[k])};
        assert rows[..k + 1] == rows[..k] + [rows[k]];
      }
      assert rows[..|rows|] == rows;
    }

    method RecoverAuthorizedPartition(id: AttemptId, token: Token, p: Partition) returns (r: Option<CommitOutcome>)
      modifies this`partitions
      ensures !Authorizes(old(View()), id) ==> r == None && View() == old(View())
      ensures Authorizes(old(View()), id) ==>
                var done := old(View()).attempts[id].result.value;
                if done.token != token then r == Some(ClaimLost) && View() == old(View())
                else if !done.partition.SameIdentity(p) then r == Some(ImmutableConflict) && View() == old(View())
                else r.Some? && (View(), r.value) == Answer(Repaired(old(View()), done.partition))
    {
      if !(id in attempts && attempts[id].status == Completed && attempts[id].result.Some?) {
        return None;
      }
      var done := attempts[id].result.value;
      if done.token != token {
        return Some(ClaimLost);
      }
      if done.partition.key != p.key || done.partition.id != p.id || done.partition.content != p.content {
        return Some(ImmutableConflict);
      }
      var found := PersistAuthoritativePartition(done.partition);
      r := Some(if found.Found? then Committed(found.partition) else ImmutableConflict);
    }

    /** Commit a computed partition under a claim. `at` is the clock reading taken before the attempt completes. */
    method CommitPartition(id: AttemptId, owner: string, token: Token, now: nat, lease: nat, at: nat, p: Partition)
      returns (outcome: CommitOutcome)
      modifies this`attempts, this`partitions, this`memberships, this`snapshots, this`stats
      ensures (View(), outcome) == CommitSpec(old(View()), id, owner, token, now, lease, at, p)
    {
      ghost var s := View();
      var claimed, _ := UpdateAttemptIf(id, HeldBy({Running}, owner, token, LeaseAfter(now)), a => ToCommitting(a,
          lease));
      if !claimed {
        var recovered := RecoverAuthorizedPartition(id, token, p);
        if recovered.Some? {
          return recovered.value;
        }
        var resumed, _ := UpdateAttemptIf(id, HeldBy({Committing}, owner, token, LeaseAfter(now)), a => a);
        if !resumed {
          return ClaimLost;
        }
        assert attempts == s.attempts;
      }
      assert (View(), Entered) == Claimed(s, id, owner, token, now, lease, p);
      outcome := CommitEntered(id, owner, token, at, p);
    }

    /** The part of a commit that runs with the claim held. */
    method CommitEntered(id: AttemptId, owner: string, token: Token, at: nat,
        p: Partition) returns (outcome: CommitOutcome)
      modifies this`attempts, this`partitions, this`memberships, this`snapshots, this`stats
      ensures (View(), outcome) == EnteredSpec(old(View()), id, owner, token, at, p)
    {
      var existing := FindCompletedPartition(p.key);
      if existing.Refused? {
        return ImmutableConflict;
      }
      if existing.Found? {
        if existing.partition.content != p.content {
          return ImmutableConflict;
        }
        var completed, _ := UpdateAttemptIf(id, HeldBy({Committing}, owner, token, LeaseAfter(at)),
                                            a => ToCompleted(a, existing.partition, token, at));
        return if completed then Committed(existing.partition) else ClaimLost;
      }
      ghost var s2 := View();
      memberships := InsertImmutableRows(memberships, p.id, p.content.memberships);
      snapshots := InsertImmutableRows(snapshots, p.id, p.content.snapshots);
      stats := InsertImmutableRows(stats, p.id, p.content.stats);
      var payload := Authoritative(p, id, token, at);
      var completed, _ := UpdateAttemptIf(id, HeldBy({Committing}, owner, token, LeaseAfter(at)),
                                          a => ToCompleted(a, payload, token, at));
      if !completed {
        return ClaimLost;
      }
      var stored := PersistAuthoritativePartition(payload);
      outcome := if stored.Found? then Committed(stored.partition) else ImmutableConflict;
    }

    // ----- finalization attempts and batches -----

    /** Insert a planned finalization; when its number is taken, answer with the one that took it. When only its name is
        taken, by an attempt that completed under another batch, there is none to answer with and the insert fails. */
    method CreateFinalizationAttempt(id: FinId, planned: Material, now: nat) returns (stored: Option<Finalization>)
      modifies this`finals
      ensures finals == InsertedFinal(old(finals), id, planned, now)
      ensures stored.Some? <==> HasNumber(finals, id.batch, id.no)
      ensures stored.Some? ==>
                exists j :: j in finals && j.no == id.no && finals[j].batch == id.batch && finals[j] == stored.value
      ensures stored.None? <==> id in old(finals) && !HasNumber(old(finals), id.batch, id.no)
    {
      if Insertable(finals, id) {
        finals := finals[id := Finalization(id.batch, planned, NewAttempt(now))];
        return Some(finals[id]);
      }
      if j :| j in finals && j.no == id.no && finals[j].batch == id.batch {
        return Some(finals[j]);
      }
      stored := None;
    }

    /** Change the attempt if it matches; a change that names a batch fails when the number is taken there. */
    method UpdateFinalizationAttemptIf(id: FinId, expected: Expected, batch: Option<BatchId>,
                                       fields: Attempt -> Attempt)
      returns (r: FinalUpdate)
      modifies this`finals
      ensures finals == match batch
                        case None => FinalUpdatedIf(old(finals), id, expected, fields)
                        case Some(b) => UpdatedUnder(old(finals), id, expected, b, fields)
      ensures r.DuplicateNumber? <==>
              batch.Some? && HitsFinal(old(finals), id, expected) && !NumberFree(old(finals), id, batch.value)
      ensures r.UpdateDone? ==> r.matched == HitsFinal(old(finals), id, expected)
      ensures r.UpdateDone? ==> r.current == if id in finals then Some(finals[id]) else None
    {
      var matched := id in finals && Matches(finals[id].claim, expected);
      if matched {
        if batch.Some? && !NumberFree(finals, id, batch.value) {
          return DuplicateNumber;
        }
        var f := finals[id];
        finals := finals[id := f.(batch := if batch.Some? then batch.value else f.batch, claim := fields(f.claim))];
      }
      r := UpdateDone(matched, if id in finals then Some(finals[id]) else None);
    }

    /** Replace what is stored for the batch unless that is final. */
    method UpsertBatchStatus(id: BatchId, document: Batch) returns (r: UpsertOutcome)
      modifies this`batches
      ensures batches == UpsertedIn(old(batches), id, document)
      ensures r == UpsertAnswer(old(batches), id, document)
      ensures r.Upserted? ==> id in batches && r.batch == batches[id]
      ensures r.FinalConflict? ==> batches == old(batches)
    {
      if id in batches && batches[id].isFinal {
        if document.isFinal && batches[id].content != document.content {
          return FinalConflict;
        }
        return Upserted(batches[id]);
      }
      batches := batches[id := document];
      r := Upserted(batches[id]);
    }

    method UpdateBatchPublicationIf(id: BatchId, expected: PubExpected, fields: Publication -> Publication)
      returns (matched: bool, current: Option<Batch>)
      modifies this`batches
      ensures batches == PubUpdatedIf(old(batches), id, expected, fields)
      ensures matched == PubMatches(old(batches), id, expected)
      ensures current == if id in batches then Some(batches[id]) else None
    {
      matched := PubMatches(batches, id, expected);
      if matched {
        batches := batches[id := batches[id].(publication := Some(fields(batches[id].publication.value)))];
      }
      current := if id in batches then Some(batches[id]) else None;
    }
  }
}
