/** Batches, finalization attempts and publication records, and what one conditional operation does to them.
    As elsewhere, a hashed value stands for its own hash. */
module Batches {
  import opened Wrappers
  import opened Documents

  /** A batch is named by the selection keys its two partitions have at the time, or none while waiting. */
  datatype BatchId = BatchId(tradeDate: string, profile: string, stock: Option<SelectionKey>, etf: Option<SelectionKey>)

  /** The order by which published generations are compared: the times of the two partitions
      (marker and QFQ times follow from their keys) and the batch. */
  datatype Order = Order(stockAt: nat, etfAt: nat, batch: BatchId)

  /** What a final batch is hashed by. */
  datatype FinalContent = FinalContent(stockId: PartitionId, stockContent: Content, etfId: PartitionId,
      etfContent: Content)

  datatype Identity = Identity(generation: BatchId, order: Order, content: FinalContent)

  datatype PubStatus = Pending | NotRequired | Publishing | Published | Rejected
  {
    predicate Complete() { Published? || NotRequired? }
  }

  datatype Publication = Publication(status: PubStatus, attemptCount: nat, owner: Option<string>, token: Option<Token>,
                                     lease: Option<nat>, publishedAt: Option<nat>, identity: Identity)

  /** `body` is the rest of a batch document: states, counts and times. */
  datatype Batch = Batch(isFinal: bool, status: string, content: Option<FinalContent>, body: string,
                         publication: Option<Publication>)
  {
    predicate Final() { isFinal && content.Some? && publication.Some? }

    predicate Complete() { publication.Some? && publication.value.status.Complete() }
  }

  type BatchMap = map<BatchId, Batch>

  // ----- finalization attempts -----

  /** The name of a finalization attempt: hashed from the batch it was planned for, its material and its number. Its
      material is that of its batch, whose partitions never change. */
  datatype FinId = FinId(batch: BatchId, no: nat)

  /** The partitions a finalization was planned with. */
  datatype Material = Material(stock: PartitionId, etf: PartitionId, order: Order)

  /** `batch` is the batch the attempt is recorded under, at first the one in its name. */
  datatype Finalization = Finalization(batch: BatchId, planned: Material, claim: Attempt)

  type Finals = map<FinId, Finalization>

  predicate HitsFinal(finals: Finals, id: FinId, e: Expected)
  {
    id in finals && Matches(finals[id].claim, e)
  }

  function FinalUpdatedIf(finals: Finals, id: FinId, e: Expected, patch: Attempt -> Attempt): Finals
  {
    if HitsFinal(finals, id, e) then finals[id := finals[id].(claim := patch(finals[id].claim))] else finals
  }

  function ToFinalizing(a: Attempt, owner: string, token: Token, now: nat): Attempt
  {
    a.(status := Running, owner := Some(owner), token := Some(token), lease := Some(now + FINALIZATION_TTL))
  }

  function ToRenewed(a: Attempt, now: nat): Attempt { a.(lease := Some(now + FINALIZATION_TTL)) }

  /** Completed or failed: no lease is left. */
  function ToEnded(a: Attempt, status: Status): Attempt { a.(status := status, lease := None) }

  // Two attempts never have one number under one batch, and never one name.

  predicate HasNumber(finals: Finals, batch: BatchId, no: nat)
  {
    exists id :: id in finals && id.no == no && finals[id].batch == batch
  }

  /** No other attempt has the number of this one under the batch. */
  predicate NumberFree(finals: Finals, id: FinId, batch: BatchId)
  {
    forall j :: j in finals && j.no == id.no && finals[j].batch == batch ==> j == id
  }

  /** n is the largest number under the batch, 0 if there is none. */
  predicate LargestFinal(finals: Finals, batch: BatchId, n: nat)
  {
    && (n > 0 ==> HasNumber(finals, batch, n))
    && forall id :: id in finals && finals[id].batch == batch ==> id.no <= n
  }

  predicate Insertable(finals: Finals, id: FinId)
  {
    id !in finals && !HasNumber(finals, id.batch, id.no)
  }

  function InsertedFinal(finals: Finals, id: FinId, planned: Material, now: nat): Finals
  {
    if Insertable(finals, id) then finals[id := Finalization(id.batch, planned, NewAttempt(now))] else finals
  }

  /** A claimed attempt can complete under the batch it was answered with. */
  predicate Completable(finals: Finals, id: FinId, e: Expected, batch: BatchId)
  {
    HitsFinal(finals, id, e) && NumberFree(finals, id, batch)
  }

  function UpdatedUnder(finals: Finals, id: FinId, e: Expected, batch: BatchId, patch: Attempt -> Attempt): Finals
  {
    if Completable(finals, id, e, batch)
    then finals[id := finals[id].(batch := batch, claim := patch(finals[id].claim))]
    else finals
  }

  datatype FinalUpdate = UpdateDone(matched: bool, current: Option<Finalization>) | DuplicateNumber

  // ----- building a final batch -----

  function ContentOf(stock: Partition, etf: Partition): FinalContent
  {
    FinalContent(stock.id, stock.content, etf.id, etf.content)
  }

  function OrderOf(batch: BatchId, stock: Partition, etf: Partition): Order
  {
    Order(stock.computedAt, etf.computedAt, batch)
  }

  function MaterialOf(batch: BatchId, stock: Partition, etf: Partition): Material
  {
    Material(stock.id, etf.id, OrderOf(batch, stock, etf))
  }

  function IdentityOf(batch: BatchId, stock: Partition, etf: Partition): Identity
  {
    Identity(batch, OrderOf(batch, stock, etf), ContentOf(stock, etf))
  }

  /** A stock and an ETF partition that belong together, whatever process looks at them. */
  predicate Compatible(batch: BatchId, stock: Partition, etf: Partition)
  {
    && stock.key.asset == Stock && etf.key.asset == Etf
    && stock.key.tradeDate == etf.key.tradeDate == batch.tradeDate
    && stock.key.profile == etf.key.profile == batch.profile
    && stock.key.qfqPair == etf.key.qfqPair
    && stock.contract == etf.contract
    && stock.evidenced && etf.evidenced
  }

  /** They also fit the versions of the process that looks at them; these are not part of any key. */
  predicate Fits(batch: BatchId, contract: Contract, stock: Partition, etf: Partition)
  {
    Compatible(batch, stock, etf) && stock.contract == contract
  }

  function FinalBatch(batch: BatchId, stock: Partition, etf: Partition, publisher: bool, body: string): Batch
  {
    Batch(true, "completed", Some(ContentOf(stock, etf)), body,
          Some(Publication(if publisher then Pending
              else NotRequired, 0, None, None, None, None, IdentityOf(batch, stock, etf))))
  }

  const CONTRACT_MISMATCH := "contract_mismatch"
  const GENERATION_DRIFT := "generation_drift"

  /** A batch document that is not final. */
  function Partial(status: string, body: string): Batch { Batch(false, status, None, body, None) }

  // ----- storing a batch -----

  /** A batch document replaces what is stored for its id unless that is final. */
  predicate Replaceable(batches: BatchMap, id: BatchId)
  {
    id in batches ==> !batches[id].isFinal
  }

  function UpsertedIn(batches: BatchMap, id: BatchId, doc: Batch): BatchMap
  {
    if Replaceable(batches, id) then batches[id := doc] else batches
  }

  datatype UpsertOutcome = Upserted(batch: Batch) | FinalConflict

  /** What the caller of a store is answered: what is then stored, or a conflict of two final contents. */
  function UpsertAnswer(batches: BatchMap, id: BatchId, doc: Batch): UpsertOutcome
  {
    if Replaceable(batches, id) then Upserted(doc)
    else if doc.isFinal && batches[id].content != doc.content then FinalConflict
    else Upserted(batches[id])
  }

  // ----- publication -----

  /** A publisher's claim as it remembers it. */
  datatype PubClaim = PubClaim(count: nat, owner: string, token: Token, lease: nat)

  /** The filter of a conditional update of a publication record. */
  datatype PubExpected = PubExpected(status: PubStatus, count: nat,
                                     held: Option<(Option<string>, Option<Token>, Option<nat>)>)

  predicate PubMatches(batches: BatchMap, id: BatchId, e: PubExpected)
  {
    && id in batches && batches[id].isFinal && batches[id].publication.Some?
    && var p := batches[id].publication.value;
    && p.status == e.status && p.attemptCount == e.count
    && (e.held.Some? ==> e.held.value == (p.owner, p.token, p.lease))
  }

  function PubUpdatedIf(batches: BatchMap, id: BatchId, e: PubExpected, patch: Publication -> Publication): BatchMap
  {
    if PubMatches(batches, id, e)
    then batches[id := batches[id].(publication := Some(patch(batches[id].publication.value)))]
    else batches
  }

  /** To claim a publication, it must still be as it was seen. */
  function AsSeen(p: Publication): PubExpected
  {
    PubExpected(p.status, p.attemptCount, if p.status == Publishing then Some((p.owner, p.token, p.lease)) else None)
  }

  /** To record an outcome, the publication must still be the claimant's. */
  function StillHeld(c: PubClaim): PubExpected
  {
    PubExpected(Publishing, c.count, Some((Some(c.owner), Some(c.token), Some(c.lease))))
  }

  function ToPublishing(p: Publication, c: PubClaim): Publication
  {
    p.(status := Publishing, attemptCount := c.count, owner := Some(c.owner), token := Some(c.token),
       lease := Some(c.lease), publishedAt := None)
  }

  function ToOutcome(p: Publication, c: PubClaim, ok: bool, now: nat): Publication
  {
    p.(status := if ok then Published else Rejected, attemptCount := c.count, owner := None, token := None,
       lease := None, publishedAt := if ok then Some(now) else None)
  }
}
