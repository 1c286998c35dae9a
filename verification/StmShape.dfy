/** Every step keeps the clock and the shape of each handle. */
module StmShape {
  import opened StmModel
  import opened StmInvariant

  predicate Nests(step: Step) {
    step.NestedBegin? || step.NestedCommit? || step.NestedAbort? || step.UndoNestedItem? || step.NestedAborted?
  }

  predicate Accesses(step: Step) {
    step.Load? || step.Check? || step.ReadLock? || step.Cas? || step.WriteStep? || step.Annotate?
  }

  predicate Ends(step: Step) {
    step.Abort? || step.UndoItem? || step.AbortStamp? || step.CommitReadOnly? || step.CommitStamp? || step.Push?
  }

  lemma PhaseNests(s: State, step: Step)
    requires Nests(step) && Enabled(s, step) && Phase(s.handles[step.h]) && Marked(s.handles[step.h])
    ensures Phase(DoHandle(s, step))
  {
    var hd := s.handles[step.h];
    if hd.marks != [] {
      assert MarkOk(hd, Last(hd.marks));
    }
  }

  lemma PhaseReads(s: State, step: Step)
    requires step.Load? || step.Check? || step.ReadLock?
    requires Enabled(s, step) && Phase(s.handles[step.h])
    ensures Phase(DoHandle(s, step))
  {
  }

  lemma PhaseWrites(s: State, step: Step)
    requires step.Cas? || step.WriteStep? || step.Annotate?
    requires Enabled(s, step) && Phase(s.handles[step.h])
    ensures Phase(DoHandle(s, step))
  {
  }

  lemma PhaseStamps(s: State, step: Step)
    requires step.AbortStamp? || step.CommitReadOnly? || step.CommitStamp? || step.Begin?
    requires Enabled(s, step) && Phase(s.handles[step.h]) && s.time % 2 == 1
    ensures Phase(DoHandle(s, step))
  {
  }

  lemma PhaseEnds(s: State, step: Step)
    requires step.Abort? || step.UndoItem? || step.Push?
    requires Enabled(s, step) && Phase(s.handles[step.h])
    ensures Phase(DoHandle(s, step))
  {
  }

  lemma PhaseLast(s: State, step: Step)
    requires step.Validate? || step.Decide? || step.Release? || step.Released? || step.Post?
    requires Enabled(s, step) && Phase(s.handles[step.h])
    ensures Phase(DoHandle(s, step))
  {
  }

  lemma PhaseKept(s: State, step: Step)
    requires HandleStep(step) && Enabled(s, step) && Phase(s.handles[step.h]) && Marked(s.handles[step.h])
    requires s.time % 2 == 1
    ensures Phase(DoHandle(s, step))
  {
    if Nests(step) {
      PhaseNests(s, step);
    } else if step.Load? || step.Check? || step.ReadLock? {
      PhaseReads(s, step);
    } else if Accesses(step) {
      PhaseWrites(s, step);
    } else if step.Abort? || step.UndoItem? || step.Push? {
      PhaseEnds(s, step);
    } else if Ends(step) || step.Begin? {
      PhaseStamps(s, step);
    } else {
      PhaseLast(s, step);
    }
  }

  lemma MarkedNests(s: State, step: Step)
    requires Nests(step) && Enabled(s, step) && Phase(s.handles[step.h]) && Marked(s.handles[step.h])
    ensures Marked(DoHandle(s, step))
  {
    var hd, hd' := s.handles[step.h], DoHandle(s, step);
    forall i | 0 <= i < |hd'.marks| ensures MarkOk(hd', hd'.marks[i]) {
      if i < |hd.marks| {
        assert MarkOk(hd, hd.marks[i]);
      }
    }
    if step.UndoNestedItem? || step.NestedAbort? {
      assert MarkOk(hd, Last(hd.marks));
    }
  }

  lemma MarkedAccesses(s: State, step: Step)
    requires Accesses(step) && Enabled(s, step) && Phase(s.handles[step.h]) && Marked(s.handles[step.h])
    ensures Marked(DoHandle(s, step))
  {
    var hd, hd' := s.handles[step.h], DoHandle(s, step);
    assert hd'.marks == hd.marks;
    forall i | 0 <= i < |hd'.marks| ensures MarkOk(hd', hd'.marks[i]) {
      assert MarkOk(hd, hd.marks[i]);
    }
  }

  lemma MarkedKept(s: State, step: Step)
    requires HandleStep(step) && Enabled(s, step) && Phase(s.handles[step.h]) && Marked(s.handles[step.h])
    ensures Marked(DoHandle(s, step))
  {
    if Nests(step) {
      MarkedNests(s, step);
    } else if Accesses(step) {
      MarkedAccesses(s, step);
    } else {
      var hd' := DoHandle(s, step);
      assert hd'.marks == [];
      if Active(hd'.pc) {
        assert hd'.readSet == [] || (hd'.readSet == s.handles[step.h].readSet && hd'.log == s.handles[step.h].log);
      }
    }
  }

  lemma LogShrinks(s: State, step: Step)
    requires (Nests(step) || Ends(step)) && Enabled(s, step)
    ensures var hd, hd' := s.handles[step.h], DoHandle(s, step);
      hd'.acquired == hd.acquired && (hd'.log == hd.log || (hd.log != [] && hd'.log == DropLast(hd.log)))
  {
  }

  lemma LogHeldKept(s: State, step: Step)
    requires HandleStep(step) && Enabled(s, step) && LogHeld(s.handles[step.h])
    requires step.WriteStep? ==> step.loc.obj in s.handles[step.h].acquired
    requires step.Annotate? ==> step.obj in s.handles[step.h].acquired
    requires step.Cas? && Acquires(s, step.h) ==> s.handles[step.h].pc.obj !in s.handles[step.h].acquired
    ensures LogHeld(DoHandle(s, step))
  {
    var hd, hd' := s.handles[step.h], DoHandle(s, step);
    if Nests(step) || Ends(step) {
      LogShrinks(s, step);
    } else if !Accesses(step) {
      assert hd'.log == hd.log || hd'.log == [];
    }
  }
}
