/** What a final batch joins, field by field. */
module Joining {
  import opened Wrappers
  import opened Documents
  import opened Batches
  import opened BatchProtocol
  import opened BatchInvariant
  import opened BatchTheorems
  import opened Refusals
  import P = Protocol
  import PI = ProtocolInvariant

  predicate SameVersions(a: Contract, b: Contract)
  {
    && a.schema == b.schema && a.switchOpt == b.switchOpt && a.conditionCatalog == b.conditionCatalog
    && a.lineDefinition == b.lineDefinition
  }

  /** A stock and an ETF partition of one day, one profile and one QFQ pair, of the same versions, both with the
      evidence their keys were made from. */
  predicate Belong(tradeDate: string, profile: string, stock: Partition, etf: Partition)
  {
    && stock.key.asset == Stock && etf.key.asset == Etf
    && stock.key.tradeDate == tradeDate && etf.key.tradeDate == tradeDate
    && stock.key.profile == profile && etf.key.profile == profile
    && stock.key.qfqPair == etf.key.qfqPair
    && SameVersions(stock.contract, etf.contract)
    && stock.evidenced && etf.evidenced
  }

  /** The completed partitions a batch id names. */
  predicate Names(s: P.State, b: BatchId, stock: Partition, etf: Partition)
  {
    && b.stock == Some(stock.key) && b.etf == Some(etf.key)
    && stock.key in s.store.partitions && s.store.partitions[stock.key] == stock
    && etf.key in s.store.partitions && s.store.partitions[etf.key] == etf
    && stock.finished && stock.commit.Some? && etf.finished && etf.commit.Some?
  }

  lemma KeyOfDoc(s: P.State, key: SelectionKey)
    requires PI.Inv(s) && key in s.store.partitions
    ensures s.store.partitions[key].key == key
  {
    assert PI.PartitionOk(s, key);
  }

  /** Over every run, a final batch joins the two completed partitions its id names, and these belong together; it has
      their content, and its publication the order of their times. */
  lemma FinalBatchJoins(s: State, steps: seq<Step>, b: BatchId) returns (stock: Partition, etf: Partition)
    requires Sound(s)
    requires var t := Run(s, steps); b in t.batches && t.batches[b].isFinal
    ensures Names(Run(s, steps).core, b, stock, etf) && Belong(b.tradeDate, b.profile, stock, etf)
    ensures var doc := Run(s, steps).batches[b];
            var content := FinalContent(stock.id, stock.content, etf.id, etf.content);
            && doc.status == "completed" && doc.content == Some(content) && doc.publication.Some?
            && doc.publication.value.identity == Identity(b, Order(stock.computedAt, etf.computedAt, b), content)
  {
    hide Sound, Evolved, PI.Inv, Run;
    EveryRun(s, steps);
    var t := Run(s, steps);
    BatchIs(t, b);
    CoreIs(t);
    KeyOfDoc(t.core, b.stock.value);
    KeyOfDoc(t.core, b.etf.value);
    stock, etf := t.core.store.partitions[b.stock.value], t.core.store.partitions[b.etf.value];
  }

  lemma CoreIs(s: State)
    requires Sound(s)
    ensures PI.Inv(s.core)
  {
  }

  /** A direct finalization that reads two completed partitions goes on with them exactly when they belong together and
      are of its own versions; otherwise it is refused for the mismatch. */
  lemma DirectJoinsExactly(s: State, q: P.Proc, b: BatchId, publisher: bool, contract: Contract, body: string,
                           stock: Partition, etf: Partition)
    requires s.At(q).Resting? && Names(s.core, b, stock, etf)
    ensures var t := Do(Do(Do(s, Direct(q, b, publisher, contract)), ReadStock(q)), ReadEtf(q, body));
            && t.batches == s.batches && t.At(q).Busy? && t.At(q).job.claim.None?
            && t.At(q).stage ==
               if Belong(b.tradeDate, b.profile, stock, etf) && SameVersions(stock.contract, contract)
               then Paired(stock, etf)
               else Refusing(b, Batch(false, "contract_mismatch", None, body, None))
  {
    hide DoFinals, DoRefusal, DoPublication;
    var s1 := Do(s, Direct(q, b, publisher, contract));
    DirectIs(s, q, b, publisher, contract);
    assert Do(s1, ReadStock(q)) == s1.Move(q, Joining(stock));
  }

  lemma DirectIs(s: State, q: P.Proc, b: BatchId, publisher: bool, contract: Contract)
    requires s.At(q).Resting?
    ensures Do(s, Direct(q, b, publisher, contract)) == s.With(q, Busy(Job(None, b, publisher, contract), Opening))
  {
    hide DoBatches, DoRefusal, DoPublication;
  }

  /** Left alone, a direct finalization of two partitions that do not belong together, or are not of its versions,
      leaves the mismatch as the batch document unless that is final, and changes no other batch. */
  lemma DirectMismatch(s: State, q: P.Proc, b: BatchId, publisher: bool, contract: Contract, body: string,
                       stock: Partition, etf: Partition)
    requires s.At(q).Resting? && Names(s.core, b, stock, etf)
    requires !(Belong(b.tradeDate, b.profile, stock, etf) && SameVersions(stock.contract, contract))
    ensures var t := Do(Do(Do(s, Direct(q, b, publisher, contract)), ReadStock(q)), ReadEtf(q, body));
            Do(Do(Do(t, ReadRefused(q)), StoreRefused(q)), ReadBack(q)).batches ==
            if b in s.batches && s.batches[b].isFinal then s.batches
            else s.batches[b := Batch(false, "contract_mismatch", None, body, None)]
  {
    hide Do, Belong, SameVersions;
    DirectJoinsExactly(s, q, b, publisher, contract, body, stock, etf);
    var t := Do(Do(Do(s, Direct(q, b, publisher, contract)), ReadStock(q)), ReadEtf(q, body));
    ReadRefusedIs(t, q);
    var t1 := Do(t, ReadRefused(q));
    StoreRefusedIs(t1, q);
    ReadBackIs(Do(t1, StoreRefused(q)), q);
  }

  /** Left alone, one of two that do belong together stores their final batch, with its publication still to be
      claimed if it publishes and not required else. */
  lemma DirectStores(s: State, q: P.Proc, b: BatchId, publisher: bool, contract: Contract, body: string, now: nat,
                     stock: Partition, etf: Partition)
    requires s.At(q).Resting? && Names(s.core, b, stock, etf) && now <= s.core.clock
    requires Belong(b.tradeDate, b.profile, stock, etf) && SameVersions(stock.contract, contract)
    requires !(b in s.batches && s.batches[b].isFinal)
    ensures var content := FinalContent(stock.id, stock.content, etf.id, etf.content);
            var identity := Identity(b, Order(stock.computedAt, etf.computedAt, b), content);
            var status := if publisher then Pending else NotRequired;
            Run(s, DirectSteps(q, b, publisher, contract, body, now)).batches ==
            s.batches[b := Batch(true, "completed", Some(content), body,
                                 Some(Publication(status, 0, None, None, None, None, identity)))]
  {
    hide Do, Run;
    DirectRun(s, q, b, publisher, contract, body, now);
  }

  // ----- what a finalization does next -----

  /** A finalization that finds its batch final goes on with that one: it publishes it if it is to and that is not done
      yet, and else has nothing left to do. One that does not find it final prepares to write it. */
  lemma FoundFinal(s: State, p: P.Proc, body: string, now: nat)
    requires Sound(s) && s.At(p).Busy? && s.At(p).stage.Paired? && now <= s.core.clock && s.At(p).job.claim.None?
    ensures var job := s.At(p).job;
            var t := Do(Do(s, ReadBatch(p, body)), Renew(p, now));
            && t.batches == s.batches && t.At(p).Busy?
            && if job.batch in s.batches && s.batches[job.batch].isFinal then
                 var doc := s.batches[job.batch];
                 && HasFinal(s, job.batch)
                 && t.At(p).stage == if job.publisher && doc.publication.value.status in {Pending, Publishing, Rejected}
                                     then Viewing(doc) else Finished
               else t.At(p).stage.Writing?
  {
    hide Sound, Do;
    var job := s.At(p).job;
    if job.batch in s.batches {
      BatchIs(s, job.batch);
    }
    ReadBatchIs(s, p, body);
    RenewDirect(Do(s, ReadBatch(p, body)), p, now);
  }

  lemma ReadBatchIs(s: State, p: P.Proc, body: string)
    requires s.At(p).Busy? && s.At(p).stage.Paired?
    ensures var job, Paired(stock, etf) := s.At(p).job, s.At(p).stage;
            Do(s, ReadBatch(p, body)) == s.Move(p,
              if !(job.batch in s.batches && s.batches[job.batch].isFinal)
              then Renewing(ToWrite(FinalBatch(job.batch, stock, etf, job.publisher, body)))
              else if s.batches[job.batch].Complete() || !job.publisher then Finished
              else Renewing(ToPublish(s.batches[job.batch])))
  {
    hide DoFinals, DoRefusal, DoPublication;
  }

  lemma RenewDirect(s: State, p: P.Proc, now: nat)
    requires s.At(p).Busy? && s.At(p).job.claim.None? && now <= s.core.clock
    ensures Do(s, Renew(p, now)) == match s.At(p).stage
                                    case Renewing(ToWrite(doc)) => s.Move(p, Writing(doc))
                                    case Renewing(ToPublish(seen)) => s.Move(p, Viewing(seen))
                                    case Holding(pub) => s.Move(p, Armed(pub))
                                    case _ => s
  {
    hide DoFinals, DoBatches, DoRefusal;
  }

  /** A finalization that has written its batch publishes what is stored if it is to, and else has nothing left to do.
      */
  lemma WrittenGoesOn(s: State, p: P.Proc)
    requires Sound(s) && s.At(p).Busy? && s.At(p).stage.Written?
    ensures var job := s.At(p).job;
            && HasFinal(s, job.batch)
            && Do(s, ReadWritten(p)) == s.Move(p, if job.publisher then Viewing(s.batches[job.batch]) else Finished)
  {
    hide Sound, DoFinals, DoRefusal, DoPublication;
    WorkerIs(s, p);
    BatchIs(s, s.At(p).job.batch);
  }
}
