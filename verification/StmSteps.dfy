/** Each step keeps the invariant, so it holds in every reachable state. */
module StmSteps {
  import opened StmModel
  import opened StmInvariant
  import opened StmValues
  import opened StmShape
  import opened StmLocks
  import opened StmFrames
  import opened StmForms

  lemma OwnShape(s: State, step: Step)
    requires Clock(s) && LocksOk(s) && Handles(s) && Enabled(s, step) && HandleStep(step)
    ensures Shape(DoHandle(s, step))
  {
    var hd := s.handles[step.h];
    assert Shape(hd) && Tied(s, step.h);
    PhaseKept(s, step);
    MarkedKept(s, step);
    if step.WriteStep? {
      assert LockOk(s, step.loc.obj);
    } else if step.Annotate? {
      assert LockOk(s, step.obj);
    }
    LogHeldKept(s, step);
  }

  /** What a handle knows about itself before a step. */
  lemma Facts(s: State, h: nat)
    requires Inv(s) && h < |s.handles|
    ensures Shape(s.handles[h]) && Tied(s, h) && LoadOk(s, h)
    ensures Chained(s, s.handles[h]) && Reads(s, s.handles[h]) && Validated(s, s.handles[h])
  {
  }

  lemma BeginStep(s: State, h: nat)
    requires Inv(s) && Enabled(s, Begin(h))
    ensures Inv(Do(s, Begin(h)))
  {
    Facts(s, h);
    OwnShape(s, Begin(h));
    FormPrivate(s, Do(s, Begin(h)), h);
  }

  /** Steps that change neither the log nor what is validated. */
  lemma ReadsShrink(s: State, s': State, hd: Handle, hd': Handle)
    requires Reads(s, hd) && Active(hd.pc) && s'.init == s.init && s'.hist == s.hist
    requires hd'.good <= hd.good && hd.good <= |hd.readSet| && hd'.good <= |hd'.readSet| <= |hd.readSet|
    requires hd'.readSet[..hd'.good] == hd.readSet[..hd'.good]
    requires hd'.log == hd.log && hd'.start == hd.start
    ensures Reads(s', hd')
  {
    if Active(hd'.pc) {
      forall i | 0 <= i < hd'.good ensures ReadOk(s'.init, s'.hist, hd'.start, hd'.log, hd'.readSet[i]) {
        assert hd'.readSet[..hd'.good][i] == hd.readSet[..hd'.good][i];
      }
    }
  }

  lemma BookmarkSteps(s: State, step: Step)
    requires Inv(s) && Enabled(s, step)
    requires step.NestedBegin? || step.NestedCommit? || step.NestedAborted?
    ensures Inv(Do(s, step))
  {
    var h, s' := step.h, Do(s, step);
    Facts(s, h);
    OwnShape(s, step);
    BookmarkIs(s, s', step);
    BookmarkOn(s, s', h);
  }

  lemma BookmarkIs(s: State, s': State, step: Step)
    requires Enabled(s, step) && s' == Do(s, step)
    requires step.NestedBegin? || step.NestedCommit? || step.NestedAborted?
    ensures step.h < |s.handles| && s' == s.(handles := s.handles[step.h := DoHandle(s, step)])
    ensures s'.handles[step.h] == s.handles[step.h].(pc := Running, marks := s'.handles[step.h].marks)
    ensures s.handles[step.h].pc.Running? || s.handles[step.h].pc.UndoNested?
  {
  }

  lemma BookmarkOn(s: State, s': State, h: nat)
    requires Inv(s) && s' == s.(handles := s'.handles) && OnlyHandle(s, s', h) && Shape(s'.handles[h])
    requires s'.handles[h] == s.handles[h].(pc := Running, marks := s'.handles[h].marks)
    requires s.handles[h].pc.Running? || s.handles[h].pc.UndoNested?
    ensures Inv(s')
  {
    Facts(s, h);
    ReadsShrink(s, s', s.handles[h], s'.handles[h]);
    FormPrivate(s, s', h);
  }

  lemma NestedAbortStep(s: State, h: nat)
    requires Inv(s) && Enabled(s, NestedAbort(h))
    ensures Inv(Do(s, NestedAbort(h)))
  {
    var s' := Do(s, NestedAbort(h));
    Facts(s, h);
    OwnShape(s, NestedAbort(h));
    assert MarkOk(s.handles[h], Last(s.handles[h].marks));
    ReadsShrink(s, s', s.handles[h], s'.handles[h]);
    FormPrivate(s, s', h);
  }

  lemma UptoOrder(a: nat, b: nat)
    requires a <= b
    ensures Upto(a) <= Upto(b)
  {
  }

  /** A handle's log says nothing about an object it does not hold. */
  lemma NotLogged(s: State, h: nat, loc: Loc, before: int)
    requires h < |s.handles| && LogHeld(s.handles[h]) && Active(s.handles[h].pc) && Tied(s, h)
    requires s.locks[loc.obj] != Held(h)
    ensures ApplyAt(s.handles[h].log, loc, before) == before
  {
    var hd := s.handles[h];
    forall i | 0 <= i < |hd.log| ensures hd.log[i].Obj() != loc.obj {
      assert hd.log[i].Obj() in hd.acquired;
    }
    ApplyUntouched(hd.log, loc, before);
  }

  /** A value with no live writer since the start time is the snapshot value. */
  lemma SnapshotValue(s: State, start: nat, loc: Loc)
    requires start <= s.time && Clock(s)
    requires forall i :: Upto(start) <= i < |s.hist| && s.hist[i].status.Committed? ==> !Touches(s.hist[i].log, loc.obj)
    ensures Upto(start) <= |s.hist|
    ensures Now(s, loc) == ValueAt(s.init, s.hist, Upto(start), loc)
  {
    UptoOrder(start, s.time);
    ValueSkip(s.init, s.hist, Upto(start), |s.hist|, loc);
  }

  lemma LoadedFree(s: State, h: nat, loc: Loc, version: nat)
    requires Clock(s) && h < |s.handles| && s.handles[h].pc.Running? && Shape(s.handles[h]) && Tied(s, h)
    requires FreeOk(s, loc.obj, version) && s.locks[loc.obj] != Held(h) && version <= s.handles[h].start
    ensures ReadOk(s.init, s.hist, s.handles[h].start, s.handles[h].log, ReadEv(loc, s.mem[loc], |s.handles[h].log|))
  {
    var hd := s.handles[h];
    UptoOrder(version, hd.start);
    SnapshotValue(s, hd.start, loc);
    assert loc == Loc(loc.obj, loc.attr);
    assert hd.log[..|hd.log|] == hd.log;
    NotLogged(s, h, loc, Now(s, loc));
  }

  lemma LoadedHeld(s: State, h: nat, loc: Loc)
    requires Clock(s) && h < |s.handles| && s.handles[h].pc.Running? && Shape(s.handles[h]) && Tied(s, h)
    requires HeldOk(s, loc.obj, h)
    ensures ReadOk(s.init, s.hist, s.handles[h].start, s.handles[h].log, ReadEv(loc, s.mem[loc], |s.handles[h].log|))
  {
    var hd := s.handles[h];
    SnapshotValue(s, hd.start, loc);
    assert loc == Loc(loc.obj, loc.attr);
    assert hd.log[..|hd.log|] == hd.log;
  }

  lemma LoadedReleased(s: State, h: nat, loc: Loc, k: nat)
    requires Clock(s) && h < |s.handles| && s.handles[h].pc.Running? && Shape(s.handles[h]) && Tied(s, h)
    requires HeldOk(s, loc.obj, k) && s.locks[loc.obj] == Held(k) && k != h
    requires Shape(s.handles[k]) && Tied(s, k) && s.handles[k].pc.Releasing? && s.handles[k].pc.end <= s.handles[h].start
    ensures ReadOk(s.init, s.hist, s.handles[h].start, s.handles[h].log, ReadEv(loc, s.mem[loc], |s.handles[h].log|))
  {
    var hd, hk := s.handles[h], s.handles[k];
    ReleasedValue(s, k, loc);
    UptoOrder(hk.start, hd.start);
    SnapshotValue(s, hd.start, loc);
    assert hd.log[..|hd.log|] == hd.log;
    NotLogged(s, h, loc, Now(s, loc));
  }

  lemma LoadedValue(s: State, h: nat, loc: Loc)
    requires Inv(s) && h < |s.handles| && s.handles[h].pc.Running?
    ensures var hd := s.handles[h]; var r := ReadEv(loc, s.mem[loc], |hd.log|);
      || ReadOk(s.init, s.hist, hd.start, hd.log, r)
      || Doomed(s, loc.obj, h, hd.start)
      || LoadedFromPending(s, r, h, hd.start)
  {
    var hd := s.handles[h];
    Facts(s, h);
    assert LockOk(s, loc.obj);
    match s.locks[loc.obj]
    case Free(version) =>
      if version <= hd.start { LoadedFree(s, h, loc, version); }
    case Dumping =>
      if s.dumper.version <= hd.start { LoadedFree(s, h, loc, s.dumper.version); }
    case Held(k) =>
      Facts(s, k);
      assert loc == Loc(loc.obj, loc.attr);
      if k == h {
        LoadedHeld(s, h, loc);
      } else if s.handles[k].pc.Releasing? && s.handles[k].pc.end <= hd.start {
        LoadedReleased(s, h, loc, k);
      }
  }

  lemma LoadEffect(s: State, h: nat, loc: Loc, s': State)
    requires Enabled(s, Load(h, loc)) && s' == Do(s, Load(h, loc))
    ensures s'.handles[h] == DoHandle(s, Load(h, loc))
    ensures s' == s.(handles := s.handles[h := LoadedHandle(s, h, loc)])
  {
  }

  ghost function LoadedHandle(s: State, h: nat, loc: Loc): Handle
    requires h < |s.handles|
  {
    var hd := s.handles[h];
    hd.(pc := Loaded, readSet := hd.readSet + [ReadEv(loc, s.mem[loc], |hd.log|)])
  }

  lemma LoadedOwn(s: State, h: nat, loc: Loc, s': State)
    requires Inv(s) && At(s, h, Running) && s' == s.(handles := s.handles[h := LoadedHandle(s, h, loc)])
    requires Shape(s'.handles[h])
    ensures OwnOk(s', h)
  {
    Facts(s, h);
    var hd, hd' := s.handles[h], s'.handles[h];
    assert hd'.readSet[..hd.good] == hd.readSet[..hd.good];
    forall i | 0 <= i < hd'.good ensures ReadOk(s'.init, s'.hist, hd'.start, hd'.log, hd'.readSet[i]) {
      assert hd'.readSet[i] == hd.readSet[i];
    }
    LoadedValue(s, h, loc);
  }

  lemma LoadStep(s: State, h: nat, loc: Loc)
    requires Inv(s) && Enabled(s, Load(h, loc))
    ensures Inv(Do(s, Load(h, loc)))
  {
    var s' := Do(s, Load(h, loc));
    OwnShape(s, Load(h, loc));
    LoadEffect(s, h, loc, s');
    LoadedOwn(s, h, loc, s');
    Facts(s, h);
    FormPrivate(s, s', h);
  }

  /** A value whose check passes is the snapshot's. */
  lemma CheckedRead(s: State, h: nat, hd: Handle, r: ReadEv)
    requires Inv(s) && Enabled(s, Check(h)) && hd == s.handles[h] && r == Last(hd.readSet)
    requires Passes(s.locks[r.loc.obj], h, hd.start)
    ensures ReadOk(s.init, s.hist, hd.start, hd.log, r) && |hd.readSet| == hd.good + 1
  {
    Facts(s, h);
    assert LockOk(s, r.loc.obj);
  }

  lemma CheckPasses(s: State, h: nat)
    requires Inv(s) && Enabled(s, Check(h)) && Passes(s.locks[Last(s.handles[h].readSet).loc.obj], h, s.handles[h].start)
    ensures Inv(Do(s, Check(h)))
  {
    var s' := Do(s, Check(h));
    Facts(s, h);
    OwnShape(s, Check(h));
    var hd, hd' := s.handles[h], s'.handles[h];
    CheckedRead(s, h, hd, Last(hd.readSet));
    OneMoreGood(s, s', hd, hd');
    FormPrivate(s, s', h);
  }

  /** The newest read of the set has passed its check, too. */
  lemma OneMoreGood(s: State, s': State, hd: Handle, hd': Handle)
    requires Reads(s, hd) && Active(hd.pc) && s'.init == s.init && s'.hist == s.hist
    requires hd.readSet != [] && hd.good == |hd.readSet| - 1 && ReadOk(s.init, s.hist, hd.start, hd.log, Last(hd.readSet))
    requires hd'.start == hd.start && hd'.log == hd.log && hd'.readSet == hd.readSet && hd'.good == |hd.readSet|
    ensures Reads(s', hd')
  {
    forall i | 0 <= i < hd'.good ensures ReadOk(s'.init, s'.hist, hd'.start, hd'.log, hd'.readSet[i]) {
      if i == hd.good {
        assert hd'.readSet[i] == Last(hd.readSet);
      }
    }
  }

  lemma CheckStep(s: State, h: nat)
    requires Inv(s) && Enabled(s, Check(h))
    ensures Inv(Do(s, Check(h)))
  {
    if Passes(s.locks[Last(s.handles[h].readSet).loc.obj], h, s.handles[h].start) {
      CheckPasses(s, h);
    } else {
      var s' := Do(s, Check(h));
      Facts(s, h);
      OwnShape(s, Check(h));
      ReadsShrink(s, s', s.handles[h], s'.handles[h]);
      FormPrivate(s, s', h);
    }
  }

  lemma ReadLockStep(s: State, h: nat, o: nat)
    requires Inv(s) && Enabled(s, ReadLock(h, o))
    ensures Inv(Do(s, ReadLock(h, o)))
  {
    var s' := Do(s, ReadLock(h, o));
    Facts(s, h);
    OwnShape(s, ReadLock(h, o));
    ReadsShrink(s, s', s.handles[h], s'.handles[h]);
    FormPrivate(s, s', h);
  }

  lemma CasStep(s: State, h: nat)
    requires Inv(s) && Enabled(s, Cas(h))
    ensures Inv(Do(s, Cas(h)))
  {
    var s' := Do(s, Cas(h));
    Facts(s, h);
    OwnShape(s, Cas(h));
    ReadsShrink(s, s', s.handles[h], s'.handles[h]);
    if Acquires(s, h) {
      FormCas(s, s', h, s.handles[h].pc.obj);
    } else {
      FormPrivate(s, s', h);
    }
  }

  /** A longer log leaves every earlier read as it was. */
  lemma ReadsLogged(s: State, s': State, hd: Handle, item: LogItem)
    requires Reads(s, hd) && Marked(hd) && Active(hd.pc) && s'.init == s.init && s'.hist == s.hist
    ensures Reads(s', hd.(log := hd.log + [item]))
  {
    var hd' := hd.(log := hd.log + [item]);
    if hd.good <= |hd.readSet| {
      forall i | 0 <= i < hd.good ensures ReadOk(s'.init, s'.hist, hd'.start, hd'.log, hd'.readSet[i]) {
        assert ReadOk(s.init, s.hist, hd.start, hd.log, hd.readSet[i]);
        assert hd'.log[..hd.readSet[i].at] == hd.log[..hd.readSet[i].at];
      }
    }
  }

  lemma ChainedLogged(s: State, s': State, hd: Handle, item: LogItem)
    requires Chained(s, hd) && Active(hd.pc) && s'.init == s.init && s'.hist == s.hist
    requires item.Wrote? ==> item.oldVal == ApplyAt(hd.log, item.loc, Now(s, item.loc))
    ensures Chained(s', hd.(log := hd.log + [item]))
  {
    var log' := hd.log + [item];
    forall i | 0 <= i < |log'| && log'[i].Wrote?
      ensures log'[i].oldVal == ApplyAt(log'[..i], log'[i].loc, Now(s', log'[i].loc))
    {
      assert Now(s', log'[i].loc) == Now(s, log'[i].loc);
      if i < |hd.log| {
        assert log'[..i] == hd.log[..i];
      } else {
        assert log'[..i] == hd.log;
      }
    }
  }

  lemma AppliesWrite(log: seq<LogItem>, item: LogItem)
    requires item.Wrote?
    ensures forall l: Loc, before: int ::
      ApplyAt(log + [item], l, before) == if l == item.loc then item.newVal else ApplyAt(log, l, before)
  {
    forall l: Loc, before: int
      ensures ApplyAt(log + [item], l, before) == if l == item.loc then item.newVal else ApplyAt(log, l, before)
    {
      ApplyPush(log, item, l, before);
    }
  }

  /** Memory and log agree on the object after a write, and nothing else changes. */
  lemma WriteMemory(s: State, s': State, h: nat, loc: Loc, val: int)
    requires LockOk(s, loc.obj) && s.locks[loc.obj] == Held(h) && h < |s.handles| == |s'.handles|
    requires s'.mem == s.mem[loc := val] && s'.handles[h].log == s.handles[h].log + [Wrote(loc, s.mem[loc], val)]
    ensures forall l: Loc :: l.obj != loc.obj ==> s'.mem[l] == s.mem[l]
    ensures forall l: Loc :: l.obj != loc.obj ==>
      ApplyAt(s'.handles[h].log, l, Now(s, l)) == ApplyAt(s.handles[h].log, l, Now(s, l))
    ensures forall a: nat ::
      s'.mem[Loc(loc.obj, a)] == ApplyAt(s'.handles[h].log, Loc(loc.obj, a), Now(s, Loc(loc.obj, a)))
    ensures s.mem[loc] == ApplyAt(s.handles[h].log, loc, Now(s, loc))
  {
    assert loc == Loc(loc.obj, loc.attr);
    AppliesWrite(s.handles[h].log, Wrote(loc, s.mem[loc], val));
  }

  lemma WriteStepKept(s: State, h: nat, loc: Loc, val: int)
    requires Inv(s) && Enabled(s, WriteStep(h, loc, val))
    ensures Inv(Do(s, WriteStep(h, loc, val)))
  {
    var s' := Do(s, WriteStep(h, loc, val));
    Facts(s, h);
    OwnShape(s, WriteStep(h, loc, val));
    WriteIs(s, s', h, loc, val);
    WriteOn(s, s', h, loc, val);
  }

  lemma WriteIs(s: State, s': State, h: nat, loc: Loc, val: int)
    requires Enabled(s, WriteStep(h, loc, val)) && s' == Do(s, WriteStep(h, loc, val))
    ensures h < |s.handles| && s.handles[h].pc.Running? && s.locks[loc.obj] == Held(h)
    ensures s' == s.(handles := s.handles[h := DoHandle(s, WriteStep(h, loc, val))], mem := s.mem[loc := val])
    ensures s'.handles[h] == s.handles[h].(log := s.handles[h].log + [Wrote(loc, s.mem[loc], val)])
  {
  }

  lemma WriteOn(s: State, s': State, h: nat, loc: Loc, val: int)
    requires Inv(s) && h < |s.handles| && s.handles[h].pc.Running? && s.locks[loc.obj] == Held(h)
    requires s' == s.(handles := s'.handles, mem := s.mem[loc := val]) && OnlyHandle(s, s', h) && Shape(s'.handles[h])
    requires s'.handles[h] == s.handles[h].(log := s.handles[h].log + [Wrote(loc, s.mem[loc], val)])
    ensures Inv(s')
  {
    var item := Wrote(loc, s.mem[loc], val);
    Facts(s, h);
    WriteMemory(s, s', h, loc, val);
    ReadsLogged(s, s', s.handles[h], item);
    ChainedLogged(s, s', s.handles[h], item);
    FormMemory(s, s', h, loc.obj);
  }

  lemma AnnotateStep(s: State, h: nat, o: nat, note: Note)
    requires Inv(s) && Enabled(s, Annotate(h, o, note))
    ensures Inv(Do(s, Annotate(h, o, note)))
  {
    var step := Annotate(h, o, note);
    var s' := Do(s, step);
    Facts(s, h);
    OwnShape(s, step);
    var hd := s.handles[h];
    var item := Noted(o, note);
    forall l: Loc, before: int ensures ApplyAt(hd.log + [item], l, before) == ApplyAt(hd.log, l, before) {
      ApplyPush(hd.log, item, l, before);
    }
    ReadsLogged(s, s', hd, item);
    ChainedLogged(s, s', hd, item);
    FormPrivate(s, s', h);
  }

  /** Undoing the newest item restores what the log below it left. */
  lemma UndoMemory(s: State, s': State, h: nat)
    requires Inv(s) && h < |s.handles| && Active(s.handles[h].pc) && s.handles[h].log != []
    requires s'.init == s.init && s'.hist == s.hist && OnlyHandle(s, s', h)
    requires s'.mem == UndoLast(s.mem, s.handles[h].log)
    requires s'.handles[h] == s.handles[h].(log := DropLast(s.handles[h].log))
    ensures var o := Last(s.handles[h].log).Obj();
      && s.locks[o] == Held(h)
      && (forall loc: Loc :: loc.obj != o ==> s'.mem[loc] == s.mem[loc])
      && (forall loc: Loc :: loc.obj != o ==>
            ApplyAt(s'.handles[h].log, loc, Now(s, loc)) == ApplyAt(s.handles[h].log, loc, Now(s, loc)))
      && (forall a: nat :: s'.mem[Loc(o, a)] == ApplyAt(s'.handles[h].log, Loc(o, a), Now(s, Loc(o, a))))
    ensures Chained(s', s'.handles[h])
  {
    Facts(s, h);
    var hd, hd' := s.handles[h], s'.handles[h];
    var item := Last(hd.log);
    assert item.Obj() in hd.acquired;
    assert LockOk(s, item.Obj());
    assert hd.log[..|hd.log| - 1] == hd'.log;
    forall i | 0 <= i < |hd'.log| && hd'.log[i].Wrote?
      ensures hd'.log[i].oldVal == ApplyAt(hd'.log[..i], hd'.log[i].loc, Now(s', hd'.log[i].loc))
    {
      assert hd'.log[..i] == hd.log[..i] && hd'.log[i] == hd.log[i];
      assert Now(s', hd'.log[i].loc) == Now(s, hd'.log[i].loc);
    }
  }

  lemma ReadsUndone(s: State, s': State, hd: Handle)
    requires Reads(s, hd) && Active(hd.pc) && hd.log != [] && s'.init == s.init && s'.hist == s.hist
    requires forall i :: 0 <= i < |hd.readSet| ==> hd.readSet[i].at < |hd.log|
    ensures Reads(s', hd.(log := DropLast(hd.log)))
  {
    var hd' := hd.(log := DropLast(hd.log));
    if hd.good <= |hd.readSet| {
      forall i | 0 <= i < hd.good ensures ReadOk(s'.init, s'.hist, hd'.start, hd'.log, hd'.readSet[i]) {
        assert ReadOk(s.init, s.hist, hd.start, hd.log, hd.readSet[i]);
        assert hd'.log[..hd.readSet[i].at] == hd.log[..hd.readSet[i].at];
      }
    }
  }

  lemma UndoNestedStep(s: State, h: nat)
    requires Inv(s) && Enabled(s, UndoNestedItem(h))
    ensures Inv(Do(s, UndoNestedItem(h)))
  {
    var s' := Do(s, UndoNestedItem(h));
    Facts(s, h);
    OwnShape(s, UndoNestedItem(h));
    assert MarkOk(s.handles[h], Last(s.handles[h].marks));
    UndoMemory(s, s', h);
    ReadsUndone(s, s', s.handles[h]);
    FormMemory(s, s', h, Last(s.handles[h].log).Obj());
  }

  lemma UndoMainStep(s: State, h: nat)
    requires Inv(s) && Enabled(s, UndoItem(h))
    ensures Inv(Do(s, UndoItem(h)))
  {
    var s' := Do(s, UndoItem(h));
    Facts(s, h);
    OwnShape(s, UndoItem(h));
    UndoMemory(s, s', h);
    ReadsUndone(s, s', s.handles[h]);
    FormMemory(s, s', h, Last(s.handles[h].log).Obj());
  }

  lemma AbortStep(s: State, h: nat)
    requires Inv(s) && Enabled(s, Abort(h))
    ensures Inv(Do(s, Abort(h)))
  {
    var s' := Do(s, Abort(h));
    Facts(s, h);
    OwnShape(s, Abort(h));
    FormPrivate(s, s', h);
  }

  lemma AbortStampStep(s: State, h: nat)
    requires Inv(s) && Enabled(s, AbortStamp(h))
    ensures Inv(Do(s, AbortStamp(h)))
  {
    var s' := Do(s, AbortStamp(h));
    Facts(s, h);
    OwnShape(s, AbortStamp(h));
    FormAppend(s, s', h, Rec(h, s.handles[h].start, Rejected, [], []));
  }

  lemma CommitReadOnlyStep(s: State, h: nat)
    requires Inv(s) && Enabled(s, CommitReadOnly(h))
    ensures Inv(Do(s, CommitReadOnly(h)))
  {
    var s' := Do(s, CommitReadOnly(h));
    Facts(s, h);
    OwnShape(s, CommitReadOnly(h));
    var hd := s.handles[h];
    var r := Rec(h, hd.start, Snapshot, hd.readSet, []);
    forall k | 0 <= k < |hd.readSet| ensures ReadOk(s'.init, s'.hist, hd.start, [], hd.readSet[k]) {
      ReadKept(s.init, s.hist, s'.hist, hd.start, hd.log, hd.readSet[k]);
    }
    FormAppend(s, s', h, r);
  }

  lemma CommitStampStep(s: State, h: nat)
    requires Inv(s) && Enabled(s, CommitStamp(h))
    ensures Inv(Do(s, CommitStamp(h)))
  {
    var s' := Do(s, CommitStamp(h));
    Facts(s, h);
    OwnShape(s, CommitStamp(h));
    var hd := s.handles[h];
    var r := Rec(h, hd.start, Pending, hd.readSet, hd.log);
    ReadsKept(s, s', hd);
    assert |s.hist| !in s.queue && |s.hist| !in s.ready;
    AppendedNow(s, s', r);
    FormAppend(s, s', h, r);
  }

  lemma PushStep(s: State, h: nat)
    requires Inv(s) && Enabled(s, Push(h))
    ensures Inv(Do(s, Push(h)))
  {
    var s' := Do(s, Push(h));
    Facts(s, h);
    OwnShape(s, Push(h));
    assert s.handles[h].cur in s'.queue by {
      assert s'.queue[|s.queue|] == s.handles[h].cur;
    }
    FormPush(s, s', h);
  }

  /** A read-set entry whose lock still passes has no live writer after the start time. */
  lemma ValidEntry(s: State, h: nat, o: nat)
    requires Inv(s) && h < |s.handles| && s.handles[h].pc.Validating?
    requires Passes(s.locks[o], h, s.handles[h].start)
    ensures ValidatedRead(s, s.handles[h].start, s.handles[h].cur, o)
  {
    var hd := s.handles[h];
    Facts(s, h);
    assert LockOk(s, o);
    assert Upto(hd.start) <= hd.cur;
    if s.locks[o].Free? {
      UptoOrder(s.locks[o].version, hd.start);
    }
  }

  lemma ValidatedMore(s: State, s': State, hd: Handle)
    requires Validated(s, hd) && hd.pc.Validating? && hd.pc.next < |hd.readSet|
    requires ValidatedRead(s, hd.start, hd.cur, hd.readSet[hd.pc.next].loc.obj)
    requires s'.hist == s.hist && s'.queue == s.queue
    ensures Validated(s', hd.(pc := Validating(hd.pc.next + 1)))
  {
    forall k | 0 <= k <= hd.pc.next ensures ValidatedRead(s', hd.start, hd.cur, hd.readSet[k].loc.obj) {
      assert ValidatedRead(s, hd.start, hd.cur, hd.readSet[k].loc.obj);
    }
  }

  lemma ValidateStep(s: State, h: nat)
    requires Inv(s) && Enabled(s, Validate(h)) && Validates(s, h)
    ensures Inv(Do(s, Validate(h)))
  {
    var s' := Do(s, Validate(h));
    Facts(s, h);
    OwnShape(s, Validate(h));
    var hd := s.handles[h];
    ValidEntry(s, h, hd.readSet[hd.pc.next].loc.obj);
    ValidatedMore(s, s', hd);
    ReadsShrink(s, s', s.handles[h], s'.handles[h]);
    FormPrivate(s, s', h);
  }

  lemma RejectStep(s: State, h: nat)
    requires Inv(s) && Enabled(s, Validate(h)) && !Validates(s, h)
    ensures Inv(Do(s, Validate(h)))
  {
    var s' := Do(s, Validate(h));
    Facts(s, h);
    OwnShape(s, Validate(h));
    forall loc: Loc ensures Now(s', loc) == Now(s, loc) {
      ValueDecide(s.init, s.hist, s.handles[h].cur, Rejected, |s.hist|, loc);
    }
    FormReject(s, s', h);
  }

  lemma DecideStep(s: State, h: nat)
    requires Inv(s) && Enabled(s, Decide(h))
    ensures Inv(Do(s, Decide(h)))
  {
    var s' := Do(s, Decide(h));
    Facts(s, h);
    OwnShape(s, Decide(h));
    assert Upto(s.handles[h].start) <= s.handles[h].cur;
    FormCommit(s, s', h);
  }

  lemma ReleaseStep(s: State, h: nat)
    requires Inv(s) && Enabled(s, Release(h))
    ensures Inv(Do(s, Release(h)))
  {
    var s' := Do(s, Release(h));
    Facts(s, h);
    OwnShape(s, Release(h));
    FormRelease(s, s', h);
  }

  lemma ReleasedStep(s: State, h: nat)
    requires Inv(s) && Enabled(s, Released(h))
    ensures Inv(Do(s, Released(h)))
  {
    var s' := Do(s, Released(h));
    Facts(s, h);
    OwnShape(s, Released(h));
    FormPrivate(s, s', h);
  }

  lemma PostStep(s: State, h: nat)
    requires Inv(s) && Enabled(s, Post(h))
    ensures Inv(Do(s, Post(h)))
  {
    var s' := Do(s, Post(h));
    Facts(s, h);
    OwnShape(s, Post(h));
    FormPost(s, s', h);
  }

  lemma DumpSteps(s: State, step: Step)
    requires Inv(s) && Enabled(s, step) && (step.DumpTake? || step.DumpRelease?)
    ensures Inv(Do(s, step))
  {
    FormDump(s, Do(s, step), if step.DumpTake? then step.obj else s.dumper.obj);
  }

  lemma ProcessIs(s: State, s': State)
    requires Enabled(s, Process) && s' == Do(s, Process)
    ensures s' == s.(done := s.done + 1)
  {
  }

  lemma ProcessStep(s: State)
    requires Inv(s) && Enabled(s, Process)
    ensures Inv(Do(s, Process))
  {
    ProcessIs(s, Do(s, Process));
    FormProcess(s);
  }

  lemma NestsKept(s: State, step: Step)
    requires Inv(s) && Enabled(s, step) && Nests(step)
    ensures Inv(Do(s, step))
  {
    if step.NestedAbort? {
      NestedAbortStep(s, step.h);
    } else if step.UndoNestedItem? {
      UndoNestedStep(s, step.h);
    } else {
      BookmarkSteps(s, step);
    }
  }

  lemma AccessesKept(s: State, step: Step)
    requires Inv(s) && Enabled(s, step) && Accesses(step)
    ensures Inv(Do(s, step))
  {
    match step
    case Load(h, loc) => LoadStep(s, h, loc);
    case Check(h) => CheckStep(s, h);
    case ReadLock(h, o) => ReadLockStep(s, h, o);
    case Cas(h) => CasStep(s, h);
    case WriteStep(h, loc, val) => WriteStepKept(s, h, loc, val);
    case Annotate(h, o, note) => AnnotateStep(s, h, o, note);
  }

  lemma EndsKept(s: State, step: Step)
    requires Inv(s) && Enabled(s, step) && Ends(step)
    ensures Inv(Do(s, step))
  {
    match step
    case Abort(h) => AbortStep(s, h);
    case UndoItem(h) => UndoMainStep(s, h);
    case AbortStamp(h) => AbortStampStep(s, h);
    case CommitReadOnly(h) => CommitReadOnlyStep(s, h);
    case CommitStamp(h) => CommitStampStep(s, h);
    case Push(h) => PushStep(s, h);
  }

  lemma CommitsKept(s: State, step: Step)
    requires Inv(s) && Enabled(s, step)
    requires step.Begin? || step.Validate? || step.Decide? || step.Release? || step.Released? || step.Post?
    ensures Inv(Do(s, step))
  {
    match step
    case Begin(h) => BeginStep(s, h);
    case Validate(h) => if Validates(s, h) { ValidateStep(s, h); } else { RejectStep(s, h); }
    case Decide(h) => DecideStep(s, h);
    case Release(h) => ReleaseStep(s, h);
    case Released(h) => ReleasedStep(s, h);
    case Post(h) => PostStep(s, h);
  }

  /** The invariant is inductive. */
  lemma StepKept(s: State, step: Step)
    requires Inv(s) && Enabled(s, step)
    ensures Inv(Do(s, step))
  {
    if Nests(step) {
      NestsKept(s, step);
    } else if Accesses(step) {
      AccessesKept(s, step);
    } else if Ends(step) {
      EndsKept(s, step);
    } else if HandleStep(step) {
      CommitsKept(s, step);
    } else if step.Process? {
      ProcessStep(s);
    } else {
      DumpSteps(s, step);
    }
  }

  lemma InitInv(s: State)
    requires Init(s)
    ensures Inv(s)
  {
  }

  /** Every state of every run satisfies the invariant. */
  lemma {:induction false} RunInv(run: seq<State>, n: nat)
    requires Run(run) && n < |run|
    ensures Inv(run[n])
  {
    if n == 0 {
      InitInv(run[0]);
    } else {
      RunInv(run, n - 1);
      assert StepAt(run, n - 1);
      var step :| Enabled(run[n - 1], step) && run[n] == Do(run[n - 1], step);
      StepKept(run[n - 1], step);
    }
  }
}
