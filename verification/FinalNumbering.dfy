/** The numbers of finalization attempts. A refused attempt that completes under another batch takes its number with
    it. */
module FinalNumbering {
  import opened Wrappers
  import opened Documents
  import opened Batches
  import opened BatchProtocol
  import opened BatchInvariant
  import opened BatchTheorems
  import P = Protocol

  // ----- what was planned -----

  /** Below a number that was planned for a batch, each number was planned for it too, down to one that came with an
      attempt planned for another batch, if there is any. */
  lemma {:induction false} FinalNumbers(s: State, b: BatchId, n: nat, no: nat)
    requires Sound(s) && FinId(b, n) in s.finals && 1 <= no <= n
    ensures FinId(b, no) in s.finals || exists id :: MovedTo(s.finals, id, b) && no <= id.no < n
    decreases n
  {
    hide Sound, MovedTo;
    FinalIs(s, FinId(b, n));
    if no < n {
      var id :| id in s.finals && id.no == n - 1 && (id.batch == b || MovedTo(s.finals, id, b));
      if id.batch == b {
        FinalNumbers(s, b, n - 1, no);
      }
    }
  }

  // ----- what is in use -----

  /** The numbers in use under a batch. */
  function Numbers(finals: Finals, b: BatchId): set<nat>
  {
    set id | id in finals && finals[id].batch == b :: id.no
  }

  /** They are 1 up to some n. */
  ghost predicate Gapless(numbers: set<nat>)
  {
    exists n: nat :: UpTo(numbers, n)
  }

  ghost predicate UpTo(numbers: set<nat>, n: nat) { forall k: nat :: k in numbers <==> 1 <= k <= n }

  ghost predicate AllGapless(finals: Finals)
  {
    forall b :: Gapless(Numbers(finals, b))
  }

  predicate UniqueNumbers(finals: Finals)
  {
    forall i, j :: i in finals && j in finals && i.no == j.no && finals[i].batch == finals[j].batch ==> i == j
  }

  /** The step inserts no number beyond the next one, and an attempt it completes elsewhere had the last number of its
      batch and gets the next of the other. */
  predicate KeepsNumbers(s: State, step: Step)
  {
    if step.PlanInsert? && s.At(step.p).Numbered? then
      var id := FinId(s.At(step.p).batch, s.At(step.p).no);
      Insertable(s.finals, id) ==> id.no <= 1 || HasNumber(s.finals, id.batch, id.no - 1)
    else if Leaves(s, step) then
      var id, b := s.At(step.p).job.claim.value.id, AnswerOf(s.At(step.p)).value;
      !HasNumber(s.finals, s.finals[id].batch, id.no + 1) && (id.no <= 1 || HasNumber(s.finals, b, id.no - 1))
    else true
  }

  /** The step completes an attempt under another batch than the one it is recorded under. */
  predicate Leaves(s: State, step: Step)
  {
    && step.Finish? && s.At(step.p).Busy? && s.At(step.p).job.claim.Some? && AnswerOf(s.At(step.p)).Some?
    && step.now <= s.core.clock
    && var c, b := s.At(step.p).job.claim.value, AnswerOf(s.At(step.p)).value;
    && Completable(s.finals, c.id, FinHeld(c, LeaseAfter(step.now)), b) && s.finals[c.id].batch != b
  }

  lemma AddNumber(numbers: set<nat>, k: nat)
    requires Gapless(numbers) && k !in numbers && k >= 1
    ensures Gapless(numbers + {k}) <==> k == 1 || k - 1 in numbers
  {
    var n: nat :| UpTo(numbers, n);
    if k == 1 || k - 1 in numbers {
      assert UpTo(numbers + {k}, n + 1);
    }
    if Gapless(numbers + {k}) {
      var m: nat :| UpTo(numbers + {k}, m);
      assert k in numbers + {k};
      assert k > 1 ==> k - 1 in numbers + {k};
    }
  }

  lemma RemoveNumber(numbers: set<nat>, k: nat)
    requires Gapless(numbers) && k in numbers
    ensures Gapless(numbers - {k}) <==> k + 1 !in numbers
  {
    var n: nat :| UpTo(numbers, n);
    if k + 1 !in numbers {
      assert UpTo(numbers - {k}, n - 1);
    } else {
      forall m: nat ensures !UpTo(numbers - {k}, m) {
        assert k + 1 in numbers - {k} && k !in numbers - {k};
      }
    }
  }

  lemma InUse(finals: Finals, b: BatchId, no: nat)
    ensures no in Numbers(finals, b) <==> HasNumber(finals, b, no)
  {
  }

  /** The numbers after a change of one attempt. */
  lemma NumbersAfter(finals: Finals, id: FinId, f: Finalization, b: BatchId)
    requires UniqueNumbers(finals)
    ensures Numbers(finals[id := f], b) ==
            Numbers(finals, b) - (if id in finals && finals[id].batch == b then {id.no} else {})
            + (if f.batch == b then {id.no} else {})
  {
    var after := finals[id := f];
    var gone := if id in finals && finals[id].batch == b then {id.no} else {};
    forall k: nat ensures k in Numbers(after, b) <==> k in Numbers(finals, b) - gone || (f.batch == b && k == id.no) {
      InUse(finals, b, k);
      if j :| j in finals && finals[j].batch == b && j.no == k && j != id {
        assert j in after && after[j] == finals[j];
      }
      if f.batch == b && k == id.no {
        assert id in after && after[id].batch == b;
      }
    }
  }

  /** Inserting keeps it exactly when the number is the next one or below. */
  lemma InsertNumber(finals: Finals, id: FinId, f: Finalization)
    requires UniqueNumbers(finals) && AllGapless(finals) && Insertable(finals, id) && id.no >= 1 && f.batch == id.batch
    ensures AllGapless(finals[id := f]) <==> id.no <= 1 || HasNumber(finals, id.batch, id.no - 1)
  {
    hide Gapless, Numbers;
    var after := finals[id := f];
    forall b ensures Numbers(after, b) == Numbers(finals, b) + if b == id.batch then {id.no} else {} {
      NumbersAfter(finals, id, f, b);
    }
    InUse(finals, id.batch, id.no);
    AddNumber(Numbers(finals, id.batch), id.no);
    if id.no > 1 {
      InUse(finals, id.batch, id.no - 1);
    }
    OnlyThese(finals, after, id.batch, id.batch);
  }

  /** Recording an attempt under another batch keeps it exactly when it had the last number there and gets the next. */
  lemma MoveNumber(finals: Finals, id: FinId, f: Finalization)
    requires UniqueNumbers(finals) && AllGapless(finals) && id in finals && f.batch != finals[id].batch
    requires NumberFree(finals, id, f.batch) && id.no >= 1
    ensures AllGapless(finals[id := f]) <==>
            !HasNumber(finals, finals[id].batch, id.no + 1) && (id.no <= 1 || HasNumber(finals, f.batch, id.no - 1))
  {
    hide Gapless, Numbers;
    var after, a := finals[id := f], finals[id].batch;
    forall b ensures Numbers(after, b) ==
                     if b == a then Numbers(finals, b) - {id.no}
                     else if b == f.batch then Numbers(finals, b) + {id.no} else Numbers(finals, b)
    {
      NumbersAfter(finals, id, f, b);
    }
    InUse(finals, a, id.no);
    InUse(finals, a, id.no + 1);
    InUse(finals, f.batch, id.no);
    if id.no > 1 {
      InUse(finals, f.batch, id.no - 1);
    }
    RemoveNumber(Numbers(finals, a), id.no);
    AddNumber(Numbers(finals, f.batch), id.no);
    OnlyThese(finals, after, a, f.batch);
  }

  lemma OnlyThese(finals: Finals, after: Finals, a: BatchId, b: BatchId)
    requires AllGapless(finals)
    requires forall x :: x != a && x != b ==> Numbers(after, x) == Numbers(finals, x)
    ensures Gapless(Numbers(finals, a)) && Gapless(Numbers(finals, b))
    ensures AllGapless(after) <==> Gapless(Numbers(after, a)) && Gapless(Numbers(after, b))
  {
    hide Gapless, Numbers;
    forall x | x != a && x != b ensures Gapless(Numbers(after, x)) {
      assert Gapless(Numbers(finals, x));
    }
  }

  // ----- over every step and every run -----

  /** The attempts are recorded under the batches they were. */
  predicate SameBatches(finals: Finals, after: Finals)
  {
    after.Keys == finals.Keys && forall id :: id in finals ==> after[id].batch == finals[id].batch
  }

  lemma SameNumbers(finals: Finals, after: Finals)
    requires SameBatches(finals, after)
    ensures AllGapless(after) <==> AllGapless(finals)
  {
    forall b ensures Numbers(after, b) == Numbers(finals, b) {
      forall k: nat ensures k in Numbers(after, b) <==> k in Numbers(finals, b) {
        InUse(finals, b, k);
        InUse(after, b, k);
      }
    }
  }

  /** Only inserting and completing change what is recorded under a batch. */
  lemma OthersKeepBatches(s: State, step: Step)
    requires !step.PlanInsert? && !Leaves(s, step)
    ensures SameBatches(s.finals, Do(s, step).finals)
  {
    hide DoFinals, DoBatches, DoRefusal, DoPublication, Do, Leaves, OfFinals, OfBatches, OfRefusal, OfPublication;
    StepIs(s, step);
    if step.Core? || step.Crash? {
    } else if OfFinals(step) {
      FinalsKeepBatches(s, step);
    } else if OfBatches(step) {
      BatchesTouch(s, step);
    } else if OfRefusal(step) {
      RefusalTouches(s, step);
    } else {
      RenewingKeepsBatches(s, step);
    }
  }

  lemma FinalsKeepBatches(s: State, step: Step)
    requires OfFinals(step) && !step.PlanInsert? && !Leaves(s, step)
    ensures SameBatches(s.finals, DoFinals(s, step).finals)
  {
    hide NumberFree, LargestFinal, BothComplete, Matches;
  }

  lemma RenewingKeepsBatches(s: State, step: Step)
    requires OfPublication(step)
    ensures SameBatches(s.finals, DoPublication(s, step).finals)
  {
    hide Matches;
  }

  lemma PlanInsertIs(s: State, p: P.Proc)
    ensures Do(s, PlanInsert(p)).finals ==
            if s.At(p).Numbered?
            then InsertedFinal(s.finals, FinId(s.At(p).batch, s.At(p).no), s.At(p).planned, s.At(p).now) else s.finals
  {
    hide DoBatches, DoRefusal, DoPublication, InsertedFinal;
  }

  lemma LeavesIs(s: State, step: Step)
    requires Leaves(s, step)
    ensures var id, b := s.At(step.p).job.claim.value.id, AnswerOf(s.At(step.p)).value;
            Do(s, step).finals ==
            s.finals[id := s.finals[id].(batch := b, claim := ToEnded(s.finals[id].claim, Completed))]
  {
    hide DoBatches, DoRefusal, DoPublication, NumberFree, Matches;
  }

  lemma StepStaysUnique(s: State, step: Step)
    requires UniqueNumbers(s.finals)
    ensures UniqueNumbers(Do(s, step).finals)
  {
    hide Do;
    if step.PlanInsert? {
      PlanInsertIs(s, step.p);
    } else if Leaves(s, step) {
      LeavesIs(s, step);
    } else {
      hide Leaves;
      OthersKeepBatches(s, step);
    }
  }

  /** No two attempts ever have one number under one batch. */
  lemma {:induction false} NumbersStayUnique(s: State, steps: seq<Step>)
    requires UniqueNumbers(s.finals)
    ensures UniqueNumbers(Run(s, steps).finals)
  {
    hide Do, UniqueNumbers;
    if steps != [] {
      NumbersStayUnique(s, steps[..|steps| - 1]);
      StepStaysUnique(Run(s, steps[..|steps| - 1]), steps[|steps| - 1]);
    }
  }

  /** A step keeps the numbers of all batches without gaps exactly when it keeps to them. */
  lemma StepNumbers(s: State, step: Step)
    requires Sound(s) && UniqueNumbers(s.finals) && AllGapless(s.finals)
    ensures AllGapless(Do(s, step).finals) <==> KeepsNumbers(s, step)
  {
    hide Sound, Do, AllGapless, UniqueNumbers, HasNumber, NumberFree;
    if step.PlanInsert? {
      WorkerIs(s, step.p);
      PlanInsertIs(s, step.p);
      if s.At(step.p).Numbered? {
        var id := FinId(s.At(step.p).batch, s.At(step.p).no);
        if Insertable(s.finals, id) {
          InsertNumber(s.finals, id, Finalization(id.batch, s.At(step.p).planned, NewAttempt(s.At(step.p).now)));
        }
      }
    } else if Leaves(s, step) {
      var id := s.At(step.p).job.claim.value.id;
      FinalIs(s, id);
      LeavesIs(s, step);
      MoveNumber(s.finals, id, Do(s, step).finals[id]);
    } else {
      OthersKeepBatches(s, step);
      SameNumbers(s.finals, Do(s, step).finals);
    }
  }

  /** A run keeps the numbers of all batches without gaps throughout exactly when each of its steps keeps to them. */
  lemma {:induction false} NumbersExactly(s: State, steps: seq<Step>)
    requires Sound(s) && UniqueNumbers(s.finals) && AllGapless(s.finals)
    ensures (forall n :: 0 <= n <= |steps| ==> AllGapless(Run(s, steps[..n]).finals)) <==>
            (forall n :: 0 <= n < |steps| ==> KeepsNumbers(Run(s, steps[..n]), steps[n]))
  {
    hide Do, Run, Sound, Evolved, AllGapless, UniqueNumbers, KeepsNumbers;
    NoSteps(s);
    if steps == [] {
      assert steps[..0] == [];
    } else {
      var last := |steps| - 1;
      var front := steps[..last];
      NumbersExactly(s, front);
      assert forall n :: 0 <= n <= last ==> front[..n] == steps[..n];
      assert forall n :: 0 <= n < last ==> front[n] == steps[n];
      RunNext(s, front, steps[last]);
      assert steps[..|steps|] == steps == front + [steps[last]];
      assert front[..last] == front;
      EveryRun(s, front);
      NumbersStayUnique(s, front);
      if AllGapless(Run(s, front).finals) {
        StepNumbers(Run(s, front), steps[last]);
      }
    }
  }

  /** Both hold at the start. */
  lemma InitialNumbers(s: State)
    requires Initial(s)
    ensures Sound(s) && UniqueNumbers(s.finals) && AllGapless(s.finals)
  {
    InitialSound(s);
    forall b ensures Gapless(Numbers(s.finals, b)) {
      assert UpTo(Numbers(s.finals, b), 0);
    }
  }

  // ----- planning after a number has left -----

  /** A planner that is not interrupted gets the number after the largest in use. It creates an attempt exactly when no
      attempt has that name; otherwise an attempt that left has it, and the insert fails. */
  lemma PlanInsertsWhen(s: State, p: P.Proc, no: nat)
    requires Sound(s) && s.At(p).Drafting? && no > 0 && LargestFinal(s.finals, s.At(p).batch, no - 1)
    ensures var id := FinId(s.At(p).batch, no);
            var t := Do(Do(s, PlanNumber(p, no)), PlanInsert(p));
            if id in s.finals then t.finals == s.finals && MovedTo(s.finals, id, s.finals[id].batch)
            else t.finals == s.finals[id := Finalization(id.batch, s.At(p).planned, NewAttempt(s.At(p).now))]
  {
    hide Sound, Do;
    var id := FinId(s.At(p).batch, no);
    NumberIs(s, p, no);
    PlanInsertIs(Do(s, PlanNumber(p, no)), p);
    if id in s.finals {
      FinalIs(s, id);
    }
  }

  lemma NumberIs(s: State, p: P.Proc, no: nat)
    requires s.At(p).Drafting? && no > 0 && LargestFinal(s.finals, s.At(p).batch, no - 1)
    ensures Do(s, PlanNumber(p, no)) == s.With(p, Numbered(s.At(p).batch, s.At(p).planned, no, s.At(p).now))
  {
    hide DoBatches, DoRefusal, DoPublication, LargestFinal;
  }
}
