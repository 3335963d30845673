/** The documents of the daily selection store, and what one conditional operation does to a collection.
    canonical_hash is taken as injective: a hashed value stands for its own hash. */
module Documents {
  import opened Wrappers

  datatype Asset = Stock | Etf

  /** The identity of one partition's inputs: marker, QFQ pair, frozen universe and profile. */
  datatype SelectionKey = SelectionKey(tradeDate: string, asset: Asset, marker: string, qfqPair: string,
                                       universe: string, profile: string)

  type Row = string

  /** The computed rows; as a value it also stands for its own content hash. */
  datatype Content = Content(memberships: seq<Row>, snapshots: seq<Row>, stats: seq<Row>)

  datatype PartitionId = PartitionId(key: SelectionKey, content: Content)

  datatype AttemptId = AttemptId(key: SelectionKey, no: nat)

  /** A claim token; each claim draws a new one. */
  datatype Token = Token(nonce: nat)

  datatype Commit = Commit(attempt: AttemptId, token: Token, completedAt: nat)

  /** The versions a partition was computed under that its key does not name. */
  datatype Contract = Contract(schema: string, switchOpt: int, conditionCatalog: string, lineDefinition: string)

  /** A partition document. `finished` says that its own status is "completed"; `evidenced` that its QFQ pair,
      universe and key agree with the evidence it carries. */
  datatype Partition = Partition(id: PartitionId, key: SelectionKey, content: Content, computedAt: nat,
                                 contract: Contract, evidenced: bool, finished: bool, commit: Option<Commit>)
  {
    predicate Complete() { finished && commit.Some? }

    /** The identity triple that immutability is judged by. */
    predicate SameIdentity(p: Partition) { key == p.key && id == p.id && content == p.content }
  }

  datatype Status = Scheduled | Running | Committing | Completed | Failed | ClaimExpired | UpstreamDrift
  {
    predicate Active() { Scheduled? || Running? || Committing? }
  }

  /** What a completed attempt authorized, when it completed through a commit. */
  datatype CommitResult = CommitResult(partition: Partition, token: Token, completedAt: nat)

  datatype Attempt = Attempt(status: Status, owner: Option<string>, token: Option<Token>, lease: Option<nat>,
                             partitionId: Option<PartitionId>, result: Option<CommitResult>)

  // ----- conditional updates -----

  datatype LeaseTest = AnyLease | LeaseIs(lease: Option<nat>) | LeaseAfter(now: nat)

  /** The filter of a conditional update of an attempt; None leaves a field unconstrained. */
  datatype Expected = Expected(statuses: set<Status>, owner: Option<Option<string>>, token: Option<Option<Token>>,
                               lease: LeaseTest)

  predicate Matches(a: Attempt, e: Expected)
  {
    && a.status in e.statuses
    && (e.owner.Some? ==> a.owner == e.owner.value)
    && (e.token.Some? ==> a.token == e.token.value)
    && match e.lease
       case AnyLease => true
       case LeaseIs(l) => a.lease == l
       case LeaseAfter(now) => a.lease.Some? && a.lease.value > now
  }

  type Attempts = map<AttemptId, Attempt>

  predicate Hits<K>(attempts: map<K, Attempt>, id: K, e: Expected)
  {
    id in attempts && Matches(attempts[id], e)
  }

  /** A conditional update of one attempt. */
  function UpdatedIf<K>(attempts: map<K, Attempt>, id: K, e: Expected, patch: Attempt -> Attempt): map<K, Attempt>
  {
    if Hits(attempts, id, e) then attempts[id := patch(attempts[id])] else attempts
  }

  /** A claim is past its lease, or has none. */
  predicate Expired(lease: Option<nat>, now: nat) { lease.None? || lease.value <= now }

  const SCHEDULED_TTL: nat := 9 * 60
  const RUNNING_TTL: nat := 6 * 60 * 60
  const COMMITTING_TTL: nat := 60 * 60
  const FINALIZATION_TTL: nat := 10 * 60
  const PUBLICATION_TTL: nat := 2 * 60

  // The filters the service uses, one per operation.

  /** Claimed by this owner and token. */
  function HeldBy(statuses: set<Status>, owner: string, token: Token, lease: LeaseTest): Expected
  {
    Expected(statuses, Some(Some(owner)), Some(Some(token)), lease)
  }

  /** Scheduled, with the lease the caller read. */
  function Unclaimed(lease: Option<nat>): Expected
  {
    Expected({Scheduled}, None, None, LeaseIs(lease))
  }

  // The changes the service makes, one per operation.

  function NewAttempt(now: nat): Attempt
  {
    Attempt(Scheduled, None, None, Some(now + SCHEDULED_TTL), None, None)
  }

  function ToRunning(a: Attempt, owner: string, token: Token, now: nat): Attempt
  {
    a.(status := Running, owner := Some(owner), token := Some(token), lease := Some(now + RUNNING_TTL))
  }

  function ToCommitting(a: Attempt, lease: nat): Attempt { a.(status := Committing, lease := Some(lease)) }

  function ToExpired(a: Attempt): Attempt { a.(status := ClaimExpired) }

  function ToFailed(a: Attempt): Attempt { a.(status := Failed) }

  function ToDrifted(a: Attempt): Attempt { a.(status := UpstreamDrift, lease := None) }

  function ToAdopted(a: Attempt, p: PartitionId): Attempt
  {
    a.(status := Completed, partitionId := Some(p), lease := None)
  }

  function ToCompleted(a: Attempt, p: Partition, token: Token, now: nat): Attempt
  {
    a.(status := Completed, partitionId := Some(p.id), lease := None, result := Some(CommitResult(p, token, now)))
  }

  /** The partition as the commit of an attempt authorizes it. */
  function Authoritative(p: Partition, attempt: AttemptId, token: Token, now: nat): Partition
  {
    p.(commit := Some(Commit(attempt, token, now)))
  }

  // ----- the collections -----

  /** Rows are stored under the hash of their partition and payload, so a row is its own key. */
  datatype StoredRow = StoredRow(partition: PartitionId, row: Row)

  datatype Store = Store(attempts: Attempts, partitions: map<SelectionKey, Partition>,
                         memberships: set<StoredRow>, snapshots: set<StoredRow>, stats: set<StoredRow>)

  function RowsOf(p: PartitionId, rows: seq<Row>): set<StoredRow>
  {
    set r | r in rows :: StoredRow(p, r)
  }

  /** All rows of a partition are stored. */
  predicate RowsStored(s: Store, p: Partition)
  {
    && RowsOf(p.id, p.content.memberships) <= s.memberships
    && RowsOf(p.id, p.content.snapshots) <= s.snapshots
    && RowsOf(p.id, p.content.stats) <= s.stats
  }

  /** A completed partition document exists for the key. */
  predicate HasComplete(s: Store, key: SelectionKey)
  {
    key in s.partitions && s.partitions[key].Complete()
  }

  /** The attempt completed through a commit and says what it authorized. */
  predicate Authorizes(s: Store, id: AttemptId)
  {
    id in s.attempts && s.attempts[id].status == Completed && s.attempts[id].result.Some?
  }

  /** The first attempt of the key that authorized a partition. */
  ghost predicate FirstAuthorized(s: Store, id: AttemptId)
  {
    Authorizes(s, id) && forall j :: Authorizes(s, j) && j.key == id.key ==> id.no <= j.no
  }

  ghost predicate SomeAuthorized(s: Store, key: SelectionKey)
  {
    exists id :: Authorizes(s, id) && id.key == key
  }

  /** One of the authorizing attempts of a key has the smallest number. */
  lemma {:induction false} FirstExists(s: Store, id: AttemptId) returns (first: AttemptId)
    requires Authorizes(s, id)
    ensures FirstAuthorized(s, first) && first.key == id.key
    decreases id.no
  {
    if j :| Authorizes(s, j) && j.key == id.key && j.no < id.no {
      first := FirstExists(s, j);
    } else {
      first := id;
    }
  }

  /** The attempt numbers of a key used so far are exactly 1..n. */
  ghost predicate NumberedTo(attempts: Attempts, key: SelectionKey, n: nat)
  {
    forall no: nat :: AttemptId(key, no) in attempts <==> 1 <= no <= n
  }

  /** n is the largest attempt number of the key, 0 if it has none. */
  ghost predicate Largest(attempts: Attempts, key: SelectionKey, n: nat)
  {
    && (n > 0 ==> AttemptId(key, n) in attempts)
    && forall no: nat :: AttemptId(key, no) in attempts ==> no <= n
  }

  // ----- what storing a partition document does -----

  datatype Persisted = Stored | AlreadyThere | Conflict

  /** What becomes of a partition document that is to be stored: the unique index on the key lets it in,
      finds the same identity, or meets another document. */
  function PersistOutcome(partitions: map<SelectionKey, Partition>, p: Partition): Persisted
  {
    if p.key !in partitions then Stored
    else
      var q := partitions[p.key];
      if q.Complete() then (if q.SameIdentity(p) then AlreadyThere else Conflict)
      else if q.commit.None? then Stored
      else Conflict
  }

  /** The partition document of the key, or the one its first authorizing attempt carries. */
  datatype Lookup = Missing | Found(partition: Partition) | Refused

  /** Looking up the completed partition of a key: a document that is missing or incomplete is repaired
      from the first attempt that authorized one. */
  ghost function LookedUp(s: Store, key: SelectionKey): (Store, Lookup)
  {
    if HasComplete(s, key) then (s, Found(s.partitions[key]))
    else if SomeAuthorized(s, key) then
      var any :| Authorizes(s, any) && any.key == key;
      AnyFirst(s, any);
      var id :| FirstAuthorized(s, id) && id.key == key;
      Repaired(s, s.attempts[id].result.value.partition)
    else (s, Missing)
  }

  lemma AnyFirst(s: Store, id: AttemptId)
    requires Authorizes(s, id)
    ensures exists first :: FirstAuthorized(s, first) && first.key == id.key
  {
    var first := FirstExists(s, id);
  }

  /** Storing a partition document and answering with what is then in place. */
  function Repaired(s: Store, p: Partition): (Store, Lookup)
  {
    match PersistOutcome(s.partitions, p)
    case Stored => (s.(partitions := s.partitions[p.key := p]), Found(p))
    case AlreadyThere => (s, Found(s.partitions[p.key]))
    case Conflict => (s, Refused)
  }

  datatype CommitOutcome = Committed(partition: Partition) | ClaimLost | ImmutableConflict

  function Answer(r: (Store, Lookup)): (Store, CommitOutcome)
  {
    (r.0, if r.1.Found? then Committed(r.1.partition) else ImmutableConflict)
  }

  function WithRows(s: Store, p: Partition): Store
  {
    s.(memberships := s.memberships + RowsOf(p.id, p.content.memberships),
       snapshots := s.snapshots + RowsOf(p.id, p.content.snapshots),
       stats := s.stats + RowsOf(p.id, p.content.stats))
  }

  /** The first step of a commit: the claim is taken, found already authorized, taken up again, or lost. */
  datatype Entry = Entered | Settled(outcome: CommitOutcome) | Lost

  function Claimed(s: Store, id: AttemptId, owner: string, token: Token, now: nat, lease: nat,
      p: Partition): (Store, Entry)
  {
    var claim := HeldBy({Running}, owner, token, LeaseAfter(now));
    if Hits(s.attempts, id, claim) then
      (s.(attempts := UpdatedIf(s.attempts, id, claim, a => ToCommitting(a, lease))), Entered)
    else if Authorizes(s, id) then
      var done := s.attempts[id].result.value;
      if done.token != token then (s, Lost)
      else if !done.partition.SameIdentity(p) then (s, Settled(ImmutableConflict))
      else
        var r := Answer(Repaired(s, done.partition));
        (r.0, Settled(r.1))
    else if Hits(s.attempts, id, HeldBy({Committing}, owner, token, LeaseAfter(now))) then (s, Entered)
    else (s, Lost)
  }

  /** The last step of a commit: the attempt completes on partition p if its claim still holds. */
  function CompletedOn(s: Store, id: AttemptId, owner: string, token: Token, at: nat, p: Partition): (Store, bool)
  {
    var held := HeldBy({Committing}, owner, token, LeaseAfter(at));
    (s.(attempts := UpdatedIf(s.attempts, id, held, a => ToCompleted(a, p, token, at))), Hits(s.attempts, id, held))
  }

  /** A commit from the point where its claim is held. */
  ghost function EnteredSpec(s: Store, id: AttemptId, owner: string, token: Token, at: nat, p: Partition): (Store,
      CommitOutcome)
  {
    var (s2, found) := LookedUp(s, p.key);
    match found
    case Refused => (s2, ImmutableConflict)
    case Found(q) =>
      if q.content != p.content then (s2, ImmutableConflict)
      else
        var (s3, done) := CompletedOn(s2, id, owner, token, at, q);
        (s3, if done then Committed(q) else ClaimLost)
    case Missing =>
      var payload := Authoritative(p, id, token, at);
      var (s3, done) := CompletedOn(WithRows(s2, p), id, owner, token, at, payload);
      if done then Answer(Repaired(s3, payload)) else (s3, ClaimLost)
  }

  /** A whole commit, when nothing interferes. */
  ghost function CommitSpec(s: Store, id: AttemptId, owner: string, token: Token, now: nat, lease: nat, at: nat,
                            p: Partition): (Store, CommitOutcome)
  {
    var (s1, entry) := Claimed(s, id, owner, token, now, lease, p);
    match entry
    case Lost => (s1, ClaimLost)
    case Settled(outcome) => (s1, outcome)
    case Entered => EnteredSpec(s1, id, owner, token, at, p)
  }
}
