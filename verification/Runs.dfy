/** Runs put together, and the run of a process that stores a partition document. */
module Runs {
  import opened Wrappers
  import opened Documents
  import opened Protocol

  lemma {:induction false} RunAdd(s: State, a: seq<Step>, b: seq<Step>)
    ensures Run(s, a + b) == Run(Run(s, a), b)
  {
    hide Do;
    if b == [] {
      assert a + b == a;
    } else {
      RunAdd(s, a, b[..|b| - 1]);
      assert (a + b)[..|a + b| - 1] == a + b[..|b| - 1];
    }
  }

  lemma RunOne(s: State, step: Step)
    ensures Run(s, [step]) == Do(s, step)
  {
    assert [step][..0] == [];
  }

  lemma RunThen(s: State, a: seq<Step>, step: Step)
    ensures Run(s, a + [step]) == Do(Run(s, a), step)
  {
    hide Do;
    RunAdd(s, a, [step]);
    RunOne(Run(s, a), step);
  }

  lemma RunOfThree(s: State, a: Step, b: Step, c: Step)
    ensures Run(s, [a, b, c]) == Do(Do(Do(s, a), b), c)
  {
    hide Do;
    assert [a, b, c][..2] == [a, b];
    assert [a, b][..1] == [a];
    RunOne(s, a);
  }

  // ----- storing a document -----

  function PersistSteps(p: Proc): seq<Step> { [Insert(p), Inspect(p), Replace(p)] }

  /** Where a process that stores a document is after inserting, inspecting and replacing. */
  lemma InsertStep(s: State, p: Proc)
    requires s.At(p).Persisting? && s.At(p).place.Inserting?
    ensures var doc := s.At(p).doc;
            Do(s, Insert(p)) == if doc.key !in s.store.partitions
                                then s.WithPartitions(s.store.partitions[doc.key := doc]).With(p, Answered(Stored))
                                else s.With(p, Persisting(doc, Occupied))
  {
    hide DoPlan, DoClaim, DoCommit;
  }

  lemma InspectStep(s: State, p: Proc)
    requires s.At(p).Persisting? && s.At(p).place.Occupied? && s.At(p).doc.key in s.store.partitions
    ensures var doc := s.At(p).doc;
            var existing := s.store.partitions[doc.key];
            Do(s, Inspect(p)) == s.With(p, if !existing.Complete() then Persisting(doc, Replacing)
                                           else Answered(if existing.SameIdentity(doc) then AlreadyThere else Conflict))
  {
    hide DoPlan, DoClaim, DoCommit;
  }

  lemma ReplaceStep(s: State, p: Proc)
    requires s.At(p).Persisting? && s.At(p).place.Replacing? && s.At(p).doc.key in s.store.partitions
    ensures var doc := s.At(p).doc;
            Do(s, Replace(p)) ==
            if s.store.partitions[doc.key].commit.None?
            then s.WithPartitions(s.store.partitions[doc.key := doc]).With(p, Answered(Stored))
            else s.With(p, Answered(Conflict))
  {
    hide DoPlan, DoClaim, DoCommit;
  }

  lemma OtherwiseIdle(s: State, p: Proc)
    requires !s.At(p).Persisting?
    ensures Do(s, Insert(p)) == s && Do(s, Inspect(p)) == s && Do(s, Replace(p)) == s
  {
    hide DoPlan, DoClaim, DoCommit;
  }

  lemma WithTwice(s: State, p: Proc, l: Local, m: Local)
    ensures s.With(p, l).With(p, m) == s.With(p, m) && s.With(p, l).At(p) == l
  {
    assert s.procs[p := l][p := m] == s.procs[p := m];
  }

  /** Storing a document step by step leaves what storing it at once leaves, and the process with its answer;
      no other process is affected. */
  lemma PersistRun(s: State, p: Proc)
    requires s.At(p).Persisting? && s.At(p).place.Inserting?
    ensures var doc := s.At(p).doc;
            Run(s, PersistSteps(p)) ==
            s.(store := Repaired(s.store, doc).0).With(p, Answered(PersistOutcome(s.store.partitions, doc)))
  {
    hide Do, Run;
    RunOfThree(s, Insert(p), Inspect(p), Replace(p));
    var doc := s.At(p).doc;
    var answer := Answered(PersistOutcome(s.store.partitions, doc));
    InsertStep(s, p);
    if doc.key !in s.store.partitions {
      OtherwiseIdle(Do(s, Insert(p)), p);
    } else {
      var s1 := s.With(p, Persisting(doc, Occupied));
      InspectStep(s1, p);
      WithTwice(s, p, Persisting(doc, Occupied), answer);
      WithTwice(s, p, Persisting(doc, Occupied), Persisting(doc, Replacing));
      if s.store.partitions[doc.key].Complete() {
        OtherwiseIdle(s.With(p, answer), p);
      } else {
        ReplaceStep(s.With(p, Persisting(doc, Replacing)), p);
        WithTwice(s, p, Persisting(doc, Replacing), answer);
      }
    }
  }

  /** Those steps are nothing to a process that stores no document. */
  lemma PersistNothing(s: State, p: Proc)
    requires !s.At(p).Persisting?
    ensures Run(s, PersistSteps(p)) == s
  {
    hide Do, Run;
    RunOfThree(s, Insert(p), Inspect(p), Replace(p));
    OtherwiseIdle(s, p);
  }
}
