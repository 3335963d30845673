/** Runs from the empty start in which a refused finalization completes. */
module Inputs {
  import opened Wrappers
  import opened Documents
  import opened Batches
  import opened BatchProtocol
  import opened BatchInvariant
  import opened BatchTheorems
  import opened Refusals
  import P = Protocol
  import opened Runs

  // ----- runs put together -----

  function Cores(steps: seq<P.Step>): seq<Step> { seq(|steps|, i requires 0 <= i < |steps| => Core(steps[i])) }

  lemma {:induction false} CoresRun(s: State, steps: seq<P.Step>)
    ensures Run(s, Cores(steps)) == s.(core := P.Run(s.core, steps))
  {
    hide P.Do;
    if steps == [] {
      assert s.(core := s.core) == s;
    } else {
      var front := steps[..|steps| - 1];
      CoresRun(s, front);
      assert Cores(steps)[..|steps| - 1] == Cores(front);
    }
  }

  // ----- one partition -----

  const NO_ROWS: Content := Content([], [], [])

  /** Planning, claiming, computing and committing a partition without rows. */
  function CommitSteps(p: P.Proc, key: SelectionKey, contract: Contract, now: nat): seq<P.Step>
  {
    [P.PlanWhole(key, now, 1), P.TakeClaim(p, AttemptId(key, 1), "", Some(now + SCHEDULED_TTL), now),
     P.Compute(p, NO_ROWS, now, contract, true), P.BeginCommit(p, now), P.FindNone(p), P.Authorize(p, now), P.Insert(p)]
  }

  predicate Unused(s: Store, key: SelectionKey)
  {
    key !in s.partitions && forall id :: id in s.attempts ==> id.key != key
  }

  /** The partition document that is committed so. */
  function Committed(key: SelectionKey, contract: Contract, now: nat, token: Token): Partition
  {
    Authoritative(P.Computed(key, NO_ROWS, now, contract, true), AttemptId(key, 1), token, now)
  }

  /** Only the attempts and the partition of the key change, and process p has its answer. */
  predicate Changed(s: P.State, t: P.State, p: P.Proc, key: SelectionKey, doc: Partition)
  {
    && t.clock == s.clock && t.At(p).Free()
    && t.store.partitions == s.store.partitions[key := doc]
    && t.store.attempts.Keys == s.store.attempts.Keys + {AttemptId(key, 1)}
  }

  lemma FreshCommit(s: P.State, p: P.Proc, key: SelectionKey, contract: Contract)
    requires s.At(p).Free() && Unused(s.store, key)
    ensures Changed(s, P.Run(s, CommitSteps(p, key, contract, s.clock)), p, key,
                    Committed(key, contract, s.clock, Token(s.issued)))
  {
    hide P.Do, Changed, Unused;
    var steps := CommitSteps(p, key, contract, s.clock);
    var a := P.Do(P.Do(s, steps[0]), steps[1]);
    FreshClaim(s, p, key);
    var b := P.Do(P.Do(P.Do(a, steps[2]), steps[3]), steps[4]);
    FreshEntry(s, a, p, key, contract);
    FreshEnd(s, b, p, key, contract);
    CoreRunOfSeven(s, steps);
  }

  function ClaimedBy(s: P.State, key: SelectionKey): P.Claim { P.Claim(AttemptId(key, 1), "", Token(s.issued)) }

  lemma FreshClaim(s: P.State, p: P.Proc, key: SelectionKey)
    requires s.At(p).Free() && Unused(s.store, key)
    ensures var id, now := AttemptId(key, 1), s.clock;
            var t := P.Do(P.Do(s, P.PlanWhole(key, now, 1)), P.TakeClaim(p, id, "", Some(now + SCHEDULED_TTL), now));
            && t.clock == now && t.At(p) == P.Working(ClaimedBy(s, key))
            && t.store == s.store.(attempts := s.store.attempts[id := ToRunning(NewAttempt(now), "",
                 Token(s.issued), now)])
  {
    hide P.DoCommit, P.DoPersist;
    var id, now := AttemptId(key, 1), s.clock;
    var t := P.Do(s, P.PlanWhole(key, now, 1));
    assert !SomeAuthorized(s.store, key);
    assert t == s.WithAttempts(s.store.attempts[id := NewAttempt(now)]);
  }

  /** The process p is in its commit. */
  predicate Entered(s: P.State, t: P.State, p: P.Proc, key: SelectionKey, contract: Contract, phase: P.Phase)
  {
    var id, now := AttemptId(key, 1), s.clock;
    && t.clock == now
    && t.At(p) == P.InCommit(ClaimedBy(s, key), P.Computed(key, NO_ROWS, now, contract, true), phase)
    && t.store == s.store.(attempts := s.store.attempts[id := ToCommitting(ToRunning(NewAttempt(now), "",
         Token(s.issued), now), now + COMMITTING_TTL)])
  }

  lemma FreshEntry(s: P.State, a: P.State, p: P.Proc, key: SelectionKey, contract: Contract)
    requires Unused(s.store, key) && a.clock == s.clock && a.At(p) == P.Working(ClaimedBy(s, key))
    requires a.store == s.store.(attempts := s.store.attempts[AttemptId(key, 1) := ToRunning(NewAttempt(s.clock), "",
               Token(s.issued), s.clock)])
    ensures var now := s.clock;
            Entered(s, P.Do(P.Do(P.Do(a, P.Compute(p, NO_ROWS, now, contract, true)), P.BeginCommit(p, now)),
                P.FindNone(p)), p, key, contract, P.Storing)
  {
    hide P.Do;
    FreshCommitting(s, a, p, key, contract);
    FreshLooking(s, P.Do(P.Do(a, P.Compute(p, NO_ROWS, s.clock, contract, true)), P.BeginCommit(p, s.clock)), p, key,
        contract);
  }

  lemma FreshCommitting(s: P.State, a: P.State, p: P.Proc, key: SelectionKey, contract: Contract)
    requires a.clock == s.clock && a.At(p) == P.Working(ClaimedBy(s, key))
    requires a.store == s.store.(attempts := s.store.attempts[AttemptId(key, 1) := ToRunning(NewAttempt(s.clock), "",
               Token(s.issued), s.clock)])
    ensures var now := s.clock;
            Entered(s, P.Do(P.Do(a, P.Compute(p, NO_ROWS, now, contract, true)), P.BeginCommit(p, now)), p, key,
                contract, P.Looking)
  {
    hide P.DoPlan, P.DoPersist;
  }

  lemma FreshLooking(s: P.State, t: P.State, p: P.Proc, key: SelectionKey, contract: Contract)
    requires Unused(s.store, key) && Entered(s, t, p, key, contract, P.Looking)
    ensures Entered(s, P.Do(t, P.FindNone(p)), p, key, contract, P.Storing)
  {
    hide P.DoPlan, P.DoClaim, P.DoPersist;
    assert !SomeAuthorized(t.store, key);
  }

  lemma FreshEnd(s: P.State, b: P.State, p: P.Proc, key: SelectionKey, contract: Contract)
    requires Unused(s.store, key) && Entered(s, b, p, key, contract, P.Storing)
    ensures Changed(s, P.Do(P.Do(b, P.Authorize(p, s.clock)), P.Insert(p)), p, key,
                    Committed(key, contract, s.clock, Token(s.issued)))
  {
    hide P.DoPlan, P.DoClaim;
  }

  lemma CoreRunOfSeven(s: P.State, steps: seq<P.Step>)
    requires |steps| == 7
    ensures var front := P.Do(P.Do(P.Do(P.Do(s, steps[0]), steps[1]), steps[2]), steps[3]);
            P.Run(s, steps) == P.Do(P.Do(P.Do(front, steps[4]), steps[5]), steps[6])
  {
    hide P.Do, P.Run;
    assert steps[..1] == [steps[0]];
    RunOne(s, steps[0]);
    forall k | 1 <= k < 7 ensures P.Run(s, steps[..k + 1]) == P.Do(P.Run(s, steps[..k]), steps[k]) {
      assert steps[..k] + [steps[k]] == steps[..k + 1];
      RunThen(s, steps[..k], steps[k]);
    }
    assert steps[..7] == steps;
  }

  // ----- a claimed finalization -----

  /** Planning and claiming the first finalization of a batch. */
  function TakenSteps(p: P.Proc, b: BatchId, planned: Contract, executing: Contract, publisher: bool, now: nat)
    : seq<Step>
  {
    [Plan(p, b, now, planned), PlanNumber(p, 1), PlanInsert(p),
     TakeFinal(p, FinId(b, 1), "", Some(now + SCHEDULED_TTL), now, publisher, executing)]
  }

  function FirstClaim(s: State, b: BatchId): FinClaim { FinClaim(FinId(b, 1), "", Token(s.drawn)) }

  lemma TakenRun(s: State, p: P.Proc, b: BatchId, planned: Contract, executing: Contract, publisher: bool)
    requires s.At(p).Resting? && s.finals == map[] && CanJoin(s, b, planned)
    ensures var now, c := s.core.clock, FirstClaim(s, b);
            var t := Run(s, TakenSteps(p, b, planned, executing, publisher, now));
            && t.core == s.core && t.batches == s.batches
            && t.At(p) == Busy(Job(Some(c), b, publisher, executing), Opening)
            && t.finals.Keys == {c.id} && t.finals[c.id].batch == b
            && HitsFinal(t.finals, c.id, FinHeld(c, LeaseAfter(now)))
            && forall q :: q != p ==> t.At(q) == s.At(q)
  {
    hide Do, Run, Fits;
    var now := s.core.clock;
    var steps := TakenSteps(p, b, planned, executing, publisher, now);
    PlannedFirst(s, p, b, planned);
    var m := Do(Do(Do(s, steps[0]), steps[1]), steps[2]);
    TakenFirst(s, m, p, b, executing, publisher);
    RunOfFour(s, steps);
  }

  lemma PlannedFirst(s: State, p: P.Proc, b: BatchId, planned: Contract)
    requires s.At(p).Resting? && s.finals == map[] && CanJoin(s, b, planned)
    ensures var now, id := s.core.clock, FinId(b, 1);
            var t := Do(Do(Do(s, Plan(p, b, now, planned)), PlanNumber(p, 1)), PlanInsert(p));
            && t.core == s.core && t.batches == s.batches && t.drawn == s.drawn && t.At(p).Resting?
            && t.finals.Keys == {id} && t.finals[id].batch == b && t.finals[id].claim == NewAttempt(now)
            && forall q :: q != p ==> t.At(q) == s.At(q)
  {
    hide DoBatches, DoRefusal, DoPublication, Fits;
  }

  lemma TakenFirst(s: State, m: State, p: P.Proc, b: BatchId, executing: Contract, publisher: bool)
    requires m.core == s.core && m.batches == s.batches && m.drawn == s.drawn && m.At(p).Resting?
    requires m.finals.Keys == {FinId(b, 1)} && m.finals[FinId(b, 1)].batch == b
    requires m.finals[FinId(b, 1)].claim == NewAttempt(s.core.clock)
    ensures var now, c := s.core.clock, FirstClaim(s, b);
            var t := Do(m, TakeFinal(p, FinId(b, 1), "", Some(now + SCHEDULED_TTL), now, publisher, executing));
            && t.core == s.core && t.batches == s.batches
            && t.At(p) == Busy(Job(Some(c), b, publisher, executing), Opening)
            && t.finals.Keys == {c.id} && t.finals[c.id].batch == b
            && HitsFinal(t.finals, c.id, FinHeld(c, LeaseAfter(now)))
            && forall q :: q != p ==> t.At(q) == m.At(q)
  {
    hide DoBatches, DoRefusal, DoPublication;
  }

  // ----- the inputs -----

  const START: State := State(P.State(Store(map[], map[], {}, {}, {}), 0, 0, map[]), map[], map[], 0, map[])

  /** The partitions of these keys committed under one contract, and nothing else done. */
  function CommitAll(keys: seq<SelectionKey>, contract: Contract): seq<P.Step>
  {
    if keys == [] then []
    else CommitAll(keys[..|keys| - 1], contract) + CommitSteps(0, keys[|keys| - 1], contract, 0)
  }

  /** Exactly the partitions of these keys are there, completed under the contract. */
  ghost predicate AllCommitted(s: P.State, keys: seq<SelectionKey>, contract: Contract)
  {
    && s.clock == 0 && s.At(0).Free()
    && (forall key :: key in s.store.partitions <==> key in keys)
    && (forall key :: key in keys ==>
          var doc := s.store.partitions[key];
          doc.key == key && doc.Complete() && doc.contract == contract && doc.evidenced)
    && (forall id :: id in s.store.attempts ==> id.key in keys)
  }

  lemma NoCoreSteps(s: P.State)
    ensures P.Run(s, []) == s
  {
  }

  lemma {:induction false} AllCommittedRun(keys: seq<SelectionKey>, contract: Contract)
    requires forall i, j :: 0 <= i < j < |keys| ==> keys[i] != keys[j]
    ensures AllCommitted(P.Run(START.core, CommitAll(keys, contract)), keys, contract)
  {
    hide P.Do, P.Run, CommitSteps, Committed, Changed, AllCommitted;
    if keys == [] {
      NothingCommitted(contract);
      NoCoreSteps(START.core);
    } else {
      var front, key := keys[..|keys| - 1], keys[|keys| - 1];
      AllCommittedRun(front, contract);
      var s := P.Run(START.core, CommitAll(front, contract));
      RunAdd(START.core, CommitAll(front, contract), CommitSteps(0, key, contract, 0));
      assert key !in front;
      StillUnused(s, front, key, contract);
      FreshCommit(s, 0, key, contract);
      OneMore(s, P.Run(s, CommitSteps(0, key, contract, 0)), front, key, contract);
      assert keys == front + [key];
    }
  }

  lemma NothingCommitted(contract: Contract)
    ensures AllCommitted(START.core, [], contract)
  {
  }

  lemma StillUnused(s: P.State, keys: seq<SelectionKey>, key: SelectionKey, contract: Contract)
    requires AllCommitted(s, keys, contract) && key !in keys
    ensures s.At(0).Free() && Unused(s.store, key) && s.clock == 0
  {
  }

  lemma OneMore(s: P.State, t: P.State, keys: seq<SelectionKey>, key: SelectionKey, contract: Contract)
    requires AllCommitted(s, keys, contract)
    requires Changed(s, t, 0, key, Committed(key, contract, 0, Token(s.issued)))
    ensures AllCommitted(t, keys + [key], contract)
  {
  }

  /** Two partitions of one day, profile and QFQ pair. */
  predicate Fitting(stock: SelectionKey, etf: SelectionKey)
  {
    && stock.asset == Stock && etf.asset == Etf && stock.tradeDate == etf.tradeDate && stock.profile == etf.profile
    && stock.qfqPair == etf.qfqPair
  }

  function BatchOf(stock: SelectionKey, etf: SelectionKey): BatchId
  {
    BatchId(stock.tradeDate, stock.profile, Some(stock), Some(etf))
  }

  /** Process 1 executes, under the versions `executing`, a finalization that was planned under `planned`. */
  function SetUp(keys: seq<SelectionKey>, b: BatchId, planned: Contract, executing: Contract): seq<Step>
  {
    Cores(CommitAll(keys, planned)) + TakenSteps(1, b, planned, executing, true, 0)
  }

  lemma SetUpRun(keys: seq<SelectionKey>, stock: SelectionKey, etf: SelectionKey, planned: Contract,
                 executing: Contract)
    requires forall i, j :: 0 <= i < j < |keys| ==> keys[i] != keys[j]
    requires stock in keys && etf in keys && Fitting(stock, etf)
    ensures var b := BatchOf(stock, etf);
            var t := Run(START, SetUp(keys, b, planned, executing));
            var c := FirstClaim(START, b);
            && Sound(t) && AllCommitted(t.core, keys, planned) && t.batches == map[] && t.At(2).Resting?
            && t.At(1) == Busy(Job(Some(c), b, true, executing), Opening)
            && t.finals.Keys == {c.id} && t.finals[c.id].batch == b
            && HitsFinal(t.finals, c.id, FinHeld(c, LeaseAfter(0)))
  {
    hide Do, Run, Sound, Evolved, P.Run;
    var b := BatchOf(stock, etf);
    AllCommittedRun(keys, planned);
    CoresRun(START, CommitAll(keys, planned));
    var s := Run(START, Cores(CommitAll(keys, planned)));
    RunBoth(START, Cores(CommitAll(keys, planned)), TakenSteps(1, b, planned, executing, true, 0));
    TakenRun(s, 1, b, planned, executing, true);
    InitialSound(START);
    EveryRun(START, SetUp(keys, b, planned, executing));
  }

  function OvertakenSteps(p: P.Proc, q: P.Proc, b: BatchId, publisher: bool, contract: Contract): seq<Step>
  {
    [ReadRefused(p)] + DirectSteps(q, b, publisher, contract, "", 0) + [StoreRefused(p), ReadBack(p)] + [Finish(p, 0)]
  }

  lemma OvertakenRun(s: State, p: P.Proc, q: P.Proc, b: BatchId, publisher: bool, contract: Contract)
    ensures Run(s, OvertakenSteps(p, q, b, publisher, contract)) == Overtaken(s, p, q, b, publisher, contract, "", 0)
  {
    hide Do, Run;
    var d := DirectSteps(q, b, publisher, contract, "", 0);
    RunTwo(s, ReadRefused(p), Finish(p, 0));
    RunBoth(s, [ReadRefused(p)], d);
    RunBoth(s, [ReadRefused(p)] + d, [StoreRefused(p), ReadBack(p)]);
    RunTwo(Run(s, [ReadRefused(p)] + d), StoreRefused(p), ReadBack(p));
    RunNext(s, [ReadRefused(p)] + d + [StoreRefused(p), ReadBack(p)], Finish(p, 0));
  }

  /** From the empty start, with any two contracts that differ: an attempt of a process that publishes completes while
      the publication is pending. */
  lemma UpgradeInput(stock: SelectionKey, etf: SelectionKey, planned: Contract, executing: Contract)
    returns (steps: seq<Step>)
    requires Fitting(stock, etf) && planned != executing
    ensures Initial(START)
    ensures var b := BatchOf(stock, etf);
            CompletedUnder(Run(START, steps), FinId(b, 1), b) && Unpublished(Run(START, steps), b)
  {
    hide Do, Run, Sound, Overtaken;
    var b := BatchOf(stock, etf);
    var keys := [stock, etf];
    SetUpRun(keys, stock, etf, planned, executing);
    var s := Run(START, SetUp(keys, b, planned, executing));
    StockRead(s, 1);
    EveryStep(s, ReadStock(1));
    var s1 := Do(s, ReadStock(1));
    UpgradeCompletesPending(s1, 1, 2, "", "", 0);
    OvertakenRun(Do(s1, ReadEtf(1, "")), 1, 2, b, true, planned);
    RunTwo(s, ReadStock(1), ReadEtf(1, ""));
    var tail := [ReadStock(1), ReadEtf(1, "")];
    RunBoth(START, SetUp(keys, b, planned, executing), tail);
    RunBoth(START, SetUp(keys, b, planned, executing) + tail, OvertakenSteps(1, 2, b, true, planned));
    steps := SetUp(keys, b, planned, executing) + tail + OvertakenSteps(1, 2, b, true, planned);
  }

  lemma StockRead(s: State, p: P.Proc)
    requires s.At(p).Busy? && s.At(p).stage.Opening? && BothComplete(s.core, s.At(p).job.batch)
    ensures Do(s, ReadStock(p)) == s.Move(p, Joining(s.core.store.partitions[s.At(p).job.batch.stock.value]))
  {
    hide DoFinals, DoRefusal, DoPublication;
  }

  /** From the empty start, when the stock marker of a day changes between planning and executing: the attempt that was
      planned for the old batch completes under the new one, and its old batch is not final. The next number is 1
      there, but an attempt of that name exists, so no planner can create it. */
  lemma DriftInput(stock: SelectionKey, newer: SelectionKey, etf: SelectionKey, contract: Contract)
    returns (steps: seq<Step>)
    requires Fitting(stock, etf) && Fitting(newer, etf) && stock != newer
    ensures Initial(START)
    ensures var was, b, t := BatchOf(stock, etf), BatchOf(newer, etf), Run(START, steps);
            && CompletedUnder(t, FinId(was, 1), b) && HasFinal(t, b) && !HasFinal(t, was)
            && LargestFinal(t.finals, was, 0) && FinId(was, 1) in t.finals
  {
    hide Do, Run, Sound, Overtaken;
    var was, b := BatchOf(stock, etf), BatchOf(newer, etf);
    var keys := [stock, newer, etf];
    SetUpRun(keys, stock, etf, contract, contract);
    var s := Run(START, SetUp(keys, was, contract, contract));
    DriftCompletesElsewhere(s, 1, 2, b, "", true, contract, "", 0);
    OvertakenRun(Do(s, Drift(1, b, "")), 1, 2, b, true, contract);
    RunNext(START, SetUp(keys, was, contract, contract), Drift(1, b, ""));
    steps := SetUp(keys, was, contract, contract) + [Drift(1, b, "")] + OvertakenSteps(1, 2, b, true, contract);
    RunBoth(START, SetUp(keys, was, contract, contract) + [Drift(1, b, "")], OvertakenSteps(1, 2, b, true, contract));
    InitialSound(START);
    EveryRun(START, steps);
    FinalIs(Run(START, steps), FinId(was, 1));
  }
}
