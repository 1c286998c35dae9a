/** How transactions end: an abort can be carried to its end and restores, and the queue goes on.

    A handle that aborts gets back to rest by its own steps, and what it wrote is undone; a
    nested abort leaves the outer transaction as it was at the nested begin.  And the job at
    the front of the queue is ready, or some handle that commits is about to make it so. */
module Endings {
  import opened StmModel
  import opened StmInvariant
  import opened StmShape
  import opened StmSteps
  import opened Progress

  lemma {:induction false} LeadsInv(s: State, steps: seq<Step>, t: State)
    requires Inv(s) && Leads(s, steps, t)
    ensures Inv(t)
    decreases |steps|
  {
    if steps != [] {
      var u := FirstMove(s, steps, t);
      StepKept(s, steps[0]);
      LeadsInv(u, steps[1..], t);
    }
  }

  lemma FirstMove(s: State, steps: seq<Step>, t: State) returns (u: State)
    requires Leads(s, steps, t) && steps != []
    ensures Enabled(s, steps[0]) && Do(s, steps[0]) == u && Leads(u, steps[1..], t)
  {
    var moves := (a: State, step: Step, b: State) => Moves(a, step, b);
    u :| moves(s, steps[0], u) && LeadsBy(moves, u, steps[1..], t);
  }

  // ----- undoing

  /** Memory is as before but for objects in the list. */
  ghost predicate Apart(mem: Memory, objs: seq<nat>, mem': Memory) {
    forall loc: Loc :: loc.obj !in objs ==> mem'[loc] == mem[loc]
  }

  ghost predicate LogIn(log: seq<LogItem>, objs: seq<nat>) {
    forall i :: 0 <= i < |log| ==> log[i].Obj() in objs
  }

  /** State `s` but for the handle and the memory. */
  ghost function Put(s: State, h: nat, hd: Handle, mem: Memory): (t: State)
    requires h < |s.handles|
    ensures t.mem == mem && |t.handles| == |s.handles| && t.handles[h] == hd
  {
    With(s, h, hd).(mem := mem)
  }

  lemma PutTwice(s: State, h: nat, hd: Handle, mem: Memory, hd': Handle, mem': Memory)
    requires h < |s.handles|
    ensures Put(Put(s, h, hd, mem), h, hd', mem') == Put(s, h, hd', mem')
  {
    assert s.handles[h := hd][h := hd'] == s.handles[h := hd'];
  }

  lemma PutSame(s: State, h: nat)
    requires h < |s.handles|
    ensures Put(s, h, s.handles[h], s.mem) == s
  {
    assert s.handles[h := s.handles[h]] == s.handles;
  }

  lemma UndoItemAlone(s: State, h: nat)
    requires h < |s.handles| && s.handles[h].pc.UndoMain? && s.handles[h].log != []
    ensures var hd := s.handles[h];
      Leads(s, [UndoItem(h)], Put(s, h, hd.(log := DropLast(hd.log)), UndoLast(s.mem, hd.log)))
  {
    var hd := s.handles[h];
    LeadsOne(s, UndoItem(h), Put(s, h, hd.(log := DropLast(hd.log)), UndoLast(s.mem, hd.log)));
  }

  lemma UndoApart(mem: Memory, log: seq<LogItem>, objs: seq<nat>)
    requires log != [] && LogIn(log, objs)
    ensures Apart(mem, objs, UndoLast(mem, log)) && LogIn(DropLast(log), objs)
  {
    assert Last(log).Obj() in objs;
  }

  lemma {:induction false} UndoAlone(s: State, h: nat) returns (steps: seq<Step>, mem: Memory)
    requires h < |s.handles| && s.handles[h].pc.UndoMain? && LogIn(s.handles[h].log, s.handles[h].acquired)
    ensures Leads(s, steps, Put(s, h, s.handles[h].(log := []), mem))
    ensures Apart(s.mem, s.handles[h].acquired, mem)
    decreases |s.handles[h].log|
  {
    var hd := s.handles[h];
    if hd.log == [] {
      steps, mem := [], s.mem;
      PutSame(s, h);
      LeadsNowhere(s);
    } else {
      var hd', mem' := hd.(log := DropLast(hd.log)), UndoLast(s.mem, hd.log);
      UndoItemAlone(s, h);
      UndoApart(s.mem, hd.log, hd.acquired);
      var t := Put(s, h, hd', mem');
      var more;
      more, mem := UndoAlone(t, h);
      PutTwice(s, h, hd', mem', hd.(log := []), mem);
      LeadsJoin(s, [UndoItem(h)], t, more, Put(s, h, hd.(log := []), mem));
      steps := [UndoItem(h)] + more;
    }
  }

  /** Nothing of the handle's log is left in memory: its objects are as the commits left them. */
  ghost predicate RolledBack(s: State, h: nat, mem: Memory)
    requires h < |s.handles|
  {
    && Apart(s.mem, s.handles[h].acquired, mem)
    && forall loc: Loc :: loc.obj in s.handles[h].acquired ==> mem[loc] == ValueAt(s.init, s.hist, |s.hist|, loc)
  }

  lemma AbortStarts(s: State, h: nat)
    requires h < |s.handles| && (s.handles[h].pc.Running? || s.handles[h].pc.Failed?)
    ensures var hd := s.handles[h];
      Leads(s, [Abort(h)], With(s, h, hd.(pc := UndoMain, readSet := [], good := 0, marks := [])))
  {
    var hd := s.handles[h];
    LeadsOne(s, Abort(h), With(s, h, hd.(pc := UndoMain, readSet := [], good := 0, marks := [])));
  }

  lemma StampAborted(s: State, h: nat)
    requires h < |s.handles| && s.handles[h].pc.UndoMain? && s.handles[h].log == []
    ensures var hd := s.handles[h];
      Leads(s, [AbortStamp(h)], With(s, h, hd.(pc := Releasing(s.time + 2, false)))
                                  .(time := s.time + 2, hist := s.hist + [Rec(h, hd.start, Rejected, [], [])]))
  {
    var hd := s.handles[h];
    LeadsOne(s, AbortStamp(h), With(s, h, hd.(pc := Releasing(s.time + 2, false)))
                                 .(time := s.time + 2, hist := s.hist + [Rec(h, hd.start, Rejected, [], [])]));
  }

  lemma AbortReleased(s: State, h: nat)
    requires h < |s.handles| && s.handles[h].pc.Releasing? && !s.handles[h].pc.committed && s.handles[h].acquired == []
    ensures Leads(s, [Released(h)], With(s, h, IDLE))
  {
    LeadsOne(s, Released(h), With(s, h, IDLE));
  }

  /** What the log of a handle that rolls back has left is nothing. */
  lemma UndoneMemory(s: State, h: nat, o: nat, a: nat)
    requires Inv(s) && h < |s.handles| && s.handles[h].pc.UndoMain? && s.handles[h].log == [] && o in s.handles[h].acquired
    ensures s.mem[Loc(o, a)] == ValueAt(s.init, s.hist, |s.hist|, Loc(o, a))
  {
    assert Tied(s, h);
    assert LockOk(s, o);
    assert HeldOk(s, o, h);
  }

  lemma UndoRestores(s: State, h: nat, steps: seq<Step>, mem: Memory)
    requires Inv(s) && h < |s.handles| && s.handles[h].pc.UndoMain?
    requires Leads(s, steps, Put(s, h, s.handles[h].(log := []), mem)) && Apart(s.mem, s.handles[h].acquired, mem)
    ensures RolledBack(s, h, mem)
  {
    var t := Put(s, h, s.handles[h].(log := []), mem);
    LeadsInv(s, steps, t);
    forall loc: Loc | loc.obj in s.handles[h].acquired ensures mem[loc] == ValueAt(s.init, s.hist, |s.hist|, loc) {
      UndoneMemory(t, h, loc.obj, loc.attr);
      assert loc == Loc(loc.obj, loc.attr);
    }
  }

  /** The handle when it begins to roll back, and when it has. */
  ghost function Aborting(hd: Handle): Handle {
    hd.(pc := UndoMain, readSet := [], good := 0, marks := [])
  }

  lemma BeginsUndo(s: State, h: nat) returns (t: State)
    requires Inv(s) && h < |s.handles| && (s.handles[h].pc.Running? || s.handles[h].pc.Failed?)
    ensures Leads(s, [Abort(h)], t) && t == Put(s, h, Aborting(s.handles[h]), s.mem) && Inv(t)
    ensures LogIn(s.handles[h].log, s.handles[h].acquired)
  {
    assert Shape(s.handles[h]);
    AbortStarts(s, h);
    t := With(s, h, Aborting(s.handles[h]));
    StepKept(s, Abort(h));
    assert t == Do(s, Abort(h));
  }

  /** Rolls everything back. */
  lemma UndoneAlone(s: State, h: nat) returns (steps: seq<Step>, t: State)
    requires Inv(s) && h < |s.handles| && (s.handles[h].pc.Running? || s.handles[h].pc.Failed?)
    ensures Leads(s, steps, t) && t == Put(s, h, Aborting(s.handles[h]).(log := []), t.mem)
    ensures RolledBack(s, h, t.mem)
  {
    var s1 := BeginsUndo(s, h);
    var more, mem := UndoAlone(s1, h);
    UndoRestores(s1, h, more, mem);
    t := Put(s1, h, s1.handles[h].(log := []), mem);
    PutTwice(s, h, Aborting(s.handles[h]), s.mem, Aborting(s.handles[h]).(log := []), mem);
    LeadsJoin(s, [Abort(h)], s1, more, t);
    steps := [Abort(h)] + more;
  }

  /** The state after an abort. */
  ghost function Aborted(s: State, h: nat, mem: Memory, locks: Locks): (t: State)
    requires h < |s.handles|
    ensures t.mem == mem && t.locks == locks
  {
    Put(s, h, IDLE, mem).(time := s.time + 2, locks := locks, hist := s.hist + [Rec(h, s.handles[h].start, Rejected, [], [])])
  }

  lemma AbortedPut(s: State, h: nat, hd: Handle, mem: Memory, locks: Locks)
    requires h < |s.handles| && hd.start == s.handles[h].start
    ensures Aborted(Put(s, h, hd, mem), h, mem, locks) == Aborted(s, h, mem, locks)
  {
    PutTwice(s, h, hd, mem, IDLE, mem);
  }

  lemma PutLocks(s: State, h: nat, hd: Handle, mem: Memory)
    requires h < |s.handles|
    ensures Put(s, h, hd, mem).locks == s.locks && Put(s, h, hd, mem).time == s.time
  {
  }

  /** Takes the end time, releases and is done. */
  lemma AbortFinish(s: State, h: nat) returns (steps: seq<Step>, t: State, locks: Locks)
    requires h < |s.handles| && s.handles[h].pc.UndoMain? && s.handles[h].log == []
    ensures Leads(s, steps, t) && FreedAs(s.locks, s.handles[h].acquired, s.time + 2, locks)
    ensures t == Aborted(s, h, s.mem, locks)
  {
    var hd := s.handles[h];
    var s1 := With(s, h, hd.(pc := Releasing(s.time + 2, false)))
                .(time := s.time + 2, hist := s.hist + [Rec(h, hd.start, Rejected, [], [])]);
    StampAborted(s, h);
    steps, locks := ReleaseAlone(s1, h);
    var s2 := With(s1, h, s1.handles[h].(acquired := [])).(locks := locks);
    AbortReleased(s2, h);
    t := With(s2, h, IDLE);
    assert t.handles == s.handles[h := IDLE];
    LeadsJoin(s1, steps, s2, [Released(h)], t);
    LeadsJoin(s, [AbortStamp(h)], s1, steps + [Released(h)], t);
    steps := [AbortStamp(h)] + (steps + [Released(h)]);
  }

  lemma AbortedState(s: State, h: nat, s1: State, t: State, locks: Locks)
    requires h < |s.handles| && s1 == Put(s, h, Aborting(s.handles[h]).(log := []), s1.mem)
    requires t == Aborted(s1, h, s1.mem, locks)
    ensures t.mem == s1.mem && t.locks == locks && t == Aborted(s, h, t.mem, t.locks)
    ensures s1.handles[h].acquired == s.handles[h].acquired && s1.locks == s.locks && s1.time == s.time
  {
    AbortedPut(s, h, s1.handles[h], s1.mem, locks);
    PutLocks(s, h, s1.handles[h], s1.mem);
  }

  /** A transaction that runs, or that has failed, can be aborted by steps of its own: what it
      wrote is as the commits so far left it, nothing else in memory changes, its locks get the
      new time, and the handle is idle. */
  lemma AbortAlone(s: State, h: nat) returns (steps: seq<Step>, t: State)
    requires Inv(s) && h < |s.handles| && (s.handles[h].pc.Running? || s.handles[h].pc.Failed?)
    ensures Leads(s, steps, t) && RolledBack(s, h, t.mem) && FreedAs(s.locks, s.handles[h].acquired, s.time + 2, t.locks)
    ensures t == Aborted(s, h, t.mem, t.locks)
  {
    var first, s1 := UndoneAlone(s, h);
    var last, locks;
    last, t, locks := AbortFinish(s1, h);
    LeadsJoin(s, first, s1, last, t);
    steps := first + last;
    AbortedState(s, h, s1, t, locks);
  }

  // ----- nested aborts

  lemma UndoNestedAlone(s: State, h: nat)
    requires h < |s.handles| && s.handles[h].pc.UndoNested? && s.handles[h].marks != []
    requires |s.handles[h].log| > Last(s.handles[h].marks).log
    ensures var hd := s.handles[h];
      Leads(s, [UndoNestedItem(h)], Put(s, h, hd.(log := DropLast(hd.log)), UndoLast(s.mem, hd.log)))
  {
    var hd := s.handles[h];
    LeadsOne(s, UndoNestedItem(h), Put(s, h, hd.(log := DropLast(hd.log)), UndoLast(s.mem, hd.log)));
  }

  lemma {:induction false} UndoDownTo(s: State, h: nat, n: nat) returns (steps: seq<Step>, mem: Memory)
    requires h < |s.handles| && s.handles[h].pc.UndoNested? && LogIn(s.handles[h].log, s.handles[h].acquired)
    requires s.handles[h].marks != [] && n == Last(s.handles[h].marks).log <= |s.handles[h].log|
    ensures Leads(s, steps, Put(s, h, s.handles[h].(log := s.handles[h].log[..n]), mem))
    ensures Apart(s.mem, s.handles[h].acquired, mem)
    decreases |s.handles[h].log|
  {
    var hd := s.handles[h];
    if |hd.log| == n {
      steps, mem := [], s.mem;
      assert hd.log[..n] == hd.log;
      PutSame(s, h);
      LeadsNowhere(s);
    } else {
      var hd', mem' := hd.(log := DropLast(hd.log)), UndoLast(s.mem, hd.log);
      UndoNestedAlone(s, h);
      UndoApart(s.mem, hd.log, hd.acquired);
      var t := Put(s, h, hd', mem');
      var more;
      more, mem := UndoDownTo(t, h, n);
      assert hd'.log[..n] == hd.log[..n];
      PutTwice(s, h, hd', mem', hd.(log := hd.log[..n]), mem);
      LeadsJoin(s, [UndoNestedItem(h)], t, more, Put(s, h, hd.(log := hd.log[..n]), mem));
      steps := [UndoNestedItem(h)] + more;
    }
  }

  /** The handle as it was at the innermost nested begin, but for the locks it has since taken. */
  ghost function BackAt(hd: Handle): Handle
    requires hd.marks != [] && Last(hd.marks).readSet <= |hd.readSet| && Last(hd.marks).log <= |hd.log|
  {
    var m := Last(hd.marks);
    Handle(hd.start, Running, hd.readSet[..m.readSet], m.readSet, hd.acquired, hd.log[..m.log], DropLast(hd.marks), hd.cur)
  }

  /** Objects the handle holds are as its log, so far, left them. */
  ghost predicate AsLogged(s: State, h: nat)
    requires h < |s.handles|
  {
    forall loc: Loc :: loc.obj in s.handles[h].acquired ==>
      s.mem[loc] == ApplyAt(s.handles[h].log, loc, ValueAt(s.init, s.hist, |s.hist|, loc))
  }

  lemma RunningAsLogged(s: State, h: nat)
    requires Inv(s) && h < |s.handles| && s.handles[h].pc.Running?
    ensures AsLogged(s, h)
  {
    assert Tied(s, h);
    forall loc: Loc | loc.obj in s.handles[h].acquired
      ensures s.mem[loc] == ApplyAt(s.handles[h].log, loc, ValueAt(s.init, s.hist, |s.hist|, loc))
    {
      assert LockOk(s, loc.obj);
      assert HeldOk(s, loc.obj, h);
      assert loc == Loc(loc.obj, loc.attr);
    }
  }

  lemma NestedAbortStarts(s: State, h: nat)
    requires h < |s.handles| && (s.handles[h].pc.Running? || s.handles[h].pc.Failed?) && s.handles[h].marks != []
    requires Last(s.handles[h].marks).readSet <= |s.handles[h].readSet|
    ensures var hd := s.handles[h]; var n := Last(hd.marks).readSet;
      Leads(s, [NestedAbort(h)], With(s, h, hd.(pc := UndoNested, readSet := hd.readSet[..n], good := n)))
  {
    var hd := s.handles[h];
    var n := Last(hd.marks).readSet;
    LeadsOne(s, NestedAbort(h), With(s, h, hd.(pc := UndoNested, readSet := hd.readSet[..n], good := n)));
  }

  lemma NestedAbortEnds(s: State, h: nat)
    requires h < |s.handles| && s.handles[h].pc.UndoNested? && s.handles[h].marks != []
    requires |s.handles[h].log| == Last(s.handles[h].marks).log
    ensures Leads(s, [NestedAborted(h)], With(s, h, s.handles[h].(pc := Running, marks := DropLast(s.handles[h].marks))))
  {
    LeadsOne(s, NestedAborted(h), With(s, h, s.handles[h].(pc := Running, marks := DropLast(s.handles[h].marks))));
  }

  lemma NestedMark(s: State, h: nat)
    requires Inv(s) && h < |s.handles| && s.handles[h].marks != []
    ensures var m := Last(s.handles[h].marks); m.readSet <= |s.handles[h].readSet| && m.log <= |s.handles[h].log|
    ensures Active(s.handles[h].pc) ==> LogIn(s.handles[h].log, s.handles[h].acquired)
  {
    assert Shape(s.handles[h]);
    assert MarkOk(s.handles[h], Last(s.handles[h].marks));
  }

  /** Rolls back to the innermost bookmark. */
  lemma NestedUndone(s: State, h: nat) returns (steps: seq<Step>, t: State)
    requires Inv(s) && h < |s.handles| && (s.handles[h].pc.Running? || s.handles[h].pc.Failed?) && s.handles[h].marks != []
    ensures var m := Last(s.handles[h].marks); m.readSet <= |s.handles[h].readSet| && m.log <= |s.handles[h].log|
    ensures Leads(s, steps, t) && Apart(s.mem, s.handles[h].acquired, t.mem)
    ensures t == Put(s, h, BackAt(s.handles[h]).(pc := UndoNested, marks := s.handles[h].marks), t.mem)
  {
    var hd := s.handles[h];
    NestedMark(s, h);
    var m := Last(hd.marks);
    NestedAbortStarts(s, h);
    var hd' := hd.(pc := UndoNested, readSet := hd.readSet[..m.readSet], good := m.readSet);
    var s1 := Put(s, h, hd', s.mem);
    var more, mem := UndoDownTo(s1, h, m.log);
    t := Put(s1, h, hd'.(log := hd.log[..m.log]), mem);
    PutTwice(s, h, hd', s.mem, hd'.(log := hd.log[..m.log]), mem);
    LeadsJoin(s, [NestedAbort(h)], s1, more, t);
    steps := [NestedAbort(h)] + more;
  }

  /** A nested transaction that runs, or in which something failed, can be aborted by steps of the
      handle: reads, log and bookmarks are those of the nested begin, the objects the handle
      holds are as the log left them then, and the rest of the state is untouched. */
  lemma NestedAbortAlone(s: State, h: nat) returns (steps: seq<Step>, t: State)
    requires Inv(s) && h < |s.handles| && (s.handles[h].pc.Running? || s.handles[h].pc.Failed?) && s.handles[h].marks != []
    ensures var m := Last(s.handles[h].marks); m.readSet <= |s.handles[h].readSet| && m.log <= |s.handles[h].log|
    ensures Leads(s, steps, t) && t == Put(s, h, BackAt(s.handles[h]), t.mem)
    ensures Apart(s.mem, s.handles[h].acquired, t.mem) && AsLogged(t, h)
  {
    var first, s1 := NestedUndone(s, h);
    NestedAbortEnds(s1, h);
    t := Put(s1, h, BackAt(s.handles[h]), s1.mem);
    PutTwice(s, h, s1.handles[h], s1.mem, BackAt(s.handles[h]), s1.mem);
    LeadsJoin(s, first, s1, [NestedAborted(h)], t);
    steps := first + [NestedAborted(h)];
    LeadsInv(s, steps, t);
    RunningAsLogged(t, h);
  }

  // ----- the queue goes on

  /** Rejected commits in the queue are ready. */
  ghost predicate RejectedReady(s: State) {
    forall p :: 0 <= p < |s.queue| && s.queue[p] < |s.hist| && s.hist[s.queue[p]].status.Rejected? ==> s.queue[p] in s.ready
  }

  lemma ReadyGrows(s: State, step: Step)
    requires Enabled(s, step)
    ensures s.ready <= Do(s, step).ready
  {
  }

  lemma RejectedNow(s: State, step: Step, i: nat)
    requires Enabled(s, step) && i < |Do(s, step).hist| && Do(s, step).hist[i].status.Rejected?
    ensures i >= |s.hist| || s.hist[i].status.Rejected? || i in Do(s, step).ready
  {
  }

  lemma RejectedReadyKept(s: State, step: Step)
    requires Inv(s) && RejectedReady(s) && Enabled(s, step)
    ensures RejectedReady(Do(s, step))
  {
    var s' := Do(s, step);
    ReadyGrows(s, step);
    forall p | 0 <= p < |s'.queue| && s'.queue[p] < |s'.hist| && s'.hist[s'.queue[p]].status.Rejected?
      ensures s'.queue[p] in s'.ready
    {
      RejectedNow(s, step, s'.queue[p]);
      if p == |s.queue| {
        PushesPending(s, step.h);
      } else {
        assert s'.queue[p] == s.queue[p];
      }
    }
  }

  lemma PushesPending(s: State, h: nat)
    requires Inv(s) && Enabled(s, Push(h))
    ensures s.handles[h].cur < |s.hist| && s.hist[s.handles[h].cur].status.Pending?
  {
    assert Tied(s, h);
  }

  lemma {:induction false} RunReady(run: seq<State>, steps: seq<Step>, n: nat)
    requires Steps(run, steps) && n < |run|
    ensures RejectedReady(run[n])
  {
    if n > 0 {
      RunReady(run, steps, n - 1);
      ReadyAt(run, steps, n - 1, n);
    }
  }

  lemma ReadyAt(run: seq<State>, steps: seq<Step>, n: nat, m: nat)
    requires Steps(run, steps) && n < |steps| && m == n + 1 && RejectedReady(run[n])
    ensures RejectedReady(run[m])
  {
    assert Stepped(run, steps, n);
    AllHold(run, steps, n);
    RejectedReadyKept(run[n], steps[n]);
  }

  /** The service thread never waits for a job that nobody makes ready: the first job not
      processed is ready, or a handle is committing it, and that handle can go on. */
  lemma QueueGoesOn(run: seq<State>, steps: seq<Step>, n: nat)
    requires Steps(run, steps) && n < |run| && run[n].done < |run[n].queue|
    ensures Enabled(run[n], Process) || exists h, step ::
      && 0 <= h < |run[n].handles| && InCommit(run[n].handles[h].pc) && run[n].handles[h].cur == run[n].queue[run[n].done]
      && HandleStep(step) && step.h == h && Enabled(run[n], step)
  {
    var s := run[n];
    AllHold(run, steps, n);
    RunReady(run, steps, n);
    var i := s.queue[s.done];
    if i !in s.ready {
      assert Live(s.hist[i]);
      var h := s.hist[i].owner;
      var step := CanStep(s, h);
    }
  }
}
