/** Every kind of step keeps the meaning of the lock words. */
module StmLocks {
  import opened StmModel
  import opened StmInvariant
  import opened StmValues

  /** All shared parts but the handle table and memory stay. */
  ghost predicate SameWords(s: State, s': State) {
    s'.init == s.init && s'.hist == s.hist && s'.locks == s.locks && s'.dumper == s.dumper && s'.time == s.time
  }

  ghost predicate OnlyHandle(s: State, s': State, h: nat) {
    && h < |s.handles| && |s'.handles| == |s.handles|
    && forall k :: 0 <= k < |s.handles| && k != h ==> s'.handles[k] == s.handles[k]
  }

  /** The handle keeps what its locked objects depend on, or holds nothing. */
  ghost predicate SameHold(hd: Handle, hd': Handle) {
    || hd.acquired == []
    || (hd'.acquired == hd.acquired && hd'.start == hd.start && Own(hd') == Own(hd)
        && forall loc, before :: ApplyAt(hd'.log, loc, before) == ApplyAt(hd.log, loc, before))
  }

  lemma LocksPrivate(s: State, s': State, h: nat)
    requires LocksOk(s) && SameWords(s, s') && s'.mem == s.mem && OnlyHandle(s, s', h)
    requires SameHold(s.handles[h], s'.handles[h])
    ensures LocksOk(s')
  {
    forall o: nat ensures LockOk(s', o) {
      assert LockOk(s, o);
      if s.locks[o].Held? {
        var k := s.locks[o].owner;
        var hd, hd' := s.handles[k], s'.handles[k];
        assert Own(hd') == Own(hd) && hd'.start == hd.start;
        forall a: nat ensures s'.mem[Loc(o, a)] == ApplyAt(hd'.log, Loc(o, a), Now(s', Loc(o, a))) {
          assert s.mem[Loc(o, a)] == ApplyAt(hd.log, Loc(o, a), Now(s, Loc(o, a)));
        }
      } else {
        assert forall a: nat :: Now(s', Loc(o, a)) == Now(s, Loc(o, a));
      }
    }
  }

  /** A write or an undo changes one object, held by `h`, and the log of `h`. */
  lemma LocksMemory(s: State, s': State, h: nat, o: nat)
    requires LocksOk(s) && SameWords(s, s') && OnlyHandle(s, s', h)
    requires s.locks[o] == Held(h)
    requires forall loc: Loc :: loc.obj != o ==> s'.mem[loc] == s.mem[loc]
    requires s'.handles[h] == s.handles[h].(log := s'.handles[h].log)
    requires forall loc: Loc :: loc.obj != o ==>
               ApplyAt(s'.handles[h].log, loc, Now(s, loc)) == ApplyAt(s.handles[h].log, loc, Now(s, loc))
    requires forall a: nat :: s'.mem[Loc(o, a)] == ApplyAt(s'.handles[h].log, Loc(o, a), Now(s, Loc(o, a)))
    ensures LocksOk(s')
  {
    forall k: nat ensures LockOk(s', k) {
      assert LockOk(s, k);
      assert forall a: nat :: Now(s', Loc(k, a)) == Now(s, Loc(k, a));
      if s.locks[k] == Held(h) && k != o {
        forall a: nat ensures s'.mem[Loc(k, a)] == ApplyAt(s'.handles[h].log, Loc(k, a), Now(s', Loc(k, a))) {
          assert s'.mem[Loc(k, a)] == s.mem[Loc(k, a)];
        }
      } else if k != o {
        assert forall a: nat :: s'.mem[Loc(k, a)] == s.mem[Loc(k, a)];
      }
    }
  }

  /** A new record changes no committed value. */
  lemma LocksAppend(s: State, s': State, h: nat, r: Rec)
    requires LocksOk(s) && OnlyHandle(s, s', h)
    requires s'.init == s.init && s'.mem == s.mem && s'.locks == s.locks && s'.dumper == s.dumper
    requires s.time <= s'.time && s'.hist == s.hist + [r] && !r.status.Committed?
    requires Own(s.handles[h]) == -1
    requires Own(s'.handles[h]) == if r.status.Pending? then |s.hist| else -1
    requires s'.handles[h].acquired == s.handles[h].acquired && s'.handles[h].start == s.handles[h].start
    requires s'.handles[h].log == s.handles[h].log
    requires r.status.Pending? ==> forall o: nat :: Touches(r.log, o) ==> s.locks[o] == Held(h)
    ensures LocksOk(s')
  {
    forall o: nat ensures LockOk(s', o) {
      assert LockOk(s, o);
      forall a: nat ensures Now(s', Loc(o, a)) == Now(s, Loc(o, a)) {
        ValueAppend(s.init, s.hist, r, |s.hist|, Loc(o, a));
      }
      forall i | 0 <= i < |s'.hist| && i < |s.hist| ensures s'.hist[i] == s.hist[i] {
      }
      if s.locks[o].Held? {
        var k := s.locks[o].owner;
        forall a: nat ensures s'.mem[Loc(o, a)] == ApplyAt(s'.handles[k].log, Loc(o, a), Now(s', Loc(o, a))) {
          assert s.mem[Loc(o, a)] == ApplyAt(s.handles[k].log, Loc(o, a), Now(s, Loc(o, a)));
        }
      } else {
        assert NoPending(s'.hist, o, -1);
      }
    }
  }

  /** Rejecting the pending record of `h` changes no committed value. */
  lemma LocksReject(s: State, s': State, h: nat)
    requires LocksOk(s) && OnlyHandle(s, s', h)
    requires s'.init == s.init && s'.mem == s.mem && s'.locks == s.locks && s'.dumper == s.dumper && s.time == s'.time
    requires Own(s.handles[h]) == s.handles[h].cur < |s.hist| && s.hist[s.handles[h].cur].status.Pending?
    requires s'.hist == SetStatus(s.hist, s.handles[h].cur, Rejected)
    requires Own(s'.handles[h]) == -1
    requires s'.handles[h].acquired == s.handles[h].acquired && s'.handles[h].start == s.handles[h].start
    requires s'.handles[h].log == s.handles[h].log
    ensures LocksOk(s')
  {
    var cur := s.handles[h].cur;
    forall o: nat ensures LockOk(s', o) {
      assert LockOk(s, o);
      forall a: nat ensures Now(s', Loc(o, a)) == Now(s, Loc(o, a)) {
        ValueDecide(s.init, s.hist, cur, Rejected, |s.hist|, Loc(o, a));
      }
      if s.locks[o].Held? {
        var k := s.locks[o].owner;
        forall a: nat ensures s'.mem[Loc(o, a)] == ApplyAt(s'.handles[k].log, Loc(o, a), Now(s', Loc(o, a))) {
          assert s.mem[Loc(o, a)] == ApplyAt(s.handles[k].log, Loc(o, a), Now(s, Loc(o, a)));
        }
      }
    }
  }

  /** Committing the pending record of `h` makes its writes the committed values. */
  lemma LocksCommit(s: State, s': State, h: nat)
    requires LocksOk(s) && OnlyHandle(s, s', h)
    requires s'.init == s.init && s'.mem == s.mem && s'.locks == s.locks && s'.dumper == s.dumper && s.time == s'.time
    requires Own(s.handles[h]) == s.handles[h].cur < |s.hist|
    requires Upto(s.handles[h].start) <= s.handles[h].cur
    requires s.hist[s.handles[h].cur].status.Pending? && s.hist[s.handles[h].cur].log == s.handles[h].log
    requires s'.hist == SetStatus(s.hist, s.handles[h].cur, Committed)
    requires forall o: nat :: Touches(s.handles[h].log, o) ==> s.locks[o] == Held(h)
    requires s'.handles[h] == s.handles[h].(pc := s'.handles[h].pc) && Own(s'.handles[h]) == s.handles[h].cur
    ensures LocksOk(s')
  {
    var hd := s.handles[h];
    forall o: nat ensures LockOk(s', o) {
      assert LockOk(s, o);
      if Touches(hd.log, o) {
        forall a: nat ensures s'.mem[Loc(o, a)] == ApplyAt(hd.log, Loc(o, a), Now(s', Loc(o, a))) {
          ValueCommit(s.init, s.hist, hd.cur, Loc(o, a));
          ApplyAgain(hd.log, Loc(o, a), Now(s, Loc(o, a)));
        }
      } else {
        forall a: nat ensures Now(s', Loc(o, a)) == Now(s, Loc(o, a)) {
          ValueDecide(s.init, s.hist, hd.cur, Committed, |s.hist|, Loc(o, a));
        }
        if s.locks[o].Held? {
          var k := s.locks[o].owner;
          forall a: nat ensures s'.mem[Loc(o, a)] == ApplyAt(s'.handles[k].log, Loc(o, a), Now(s', Loc(o, a))) {
            assert s.mem[Loc(o, a)] == ApplyAt(s.handles[k].log, Loc(o, a), Now(s, Loc(o, a)));
          }
        }
      }
    }
  }

  /** A CAS takes a free word whose version is at most the start time. */
  lemma LocksCas(s: State, s': State, h: nat, o: nat)
    requires LocksOk(s) && OnlyHandle(s, s', h)
    requires s'.init == s.init && s'.hist == s.hist && s'.mem == s.mem && s'.dumper == s.dumper && s'.time == s.time
    requires s.locks[o].Free? && s.locks[o].version <= s.handles[h].start
    requires s'.locks == s.locks[o := Held(h)]
    requires s'.handles[h] == s.handles[h].(pc := s'.handles[h].pc, acquired := s.handles[h].acquired + [o])
    requires Own(s.handles[h]) == Own(s'.handles[h]) == -1
    requires forall i :: 0 <= i < |s.handles[h].log| ==> s.handles[h].log[i].Obj() in s.handles[h].acquired
    requires o !in s.handles[h].acquired
    ensures LocksOk(s')
  {
    var hd := s.handles[h];
    forall k: nat ensures LockOk(s', k) {
      assert LockOk(s, k);
      forall a: nat ensures Now(s', Loc(k, a)) == Now(s, Loc(k, a)) {
      }
      if k == o {
        assert !Touches(hd.log, o);
        forall a: nat ensures ApplyAt(hd.log, Loc(o, a), Now(s', Loc(o, a))) == Now(s, Loc(o, a)) {
          ApplyUntouched(hd.log, Loc(o, a), Now(s, Loc(o, a)));
        }
      }
    }
  }

  /** A release publishes the memory of an object whose changes are committed or undone. */
  lemma LocksRelease(s: State, s': State, h: nat)
    requires LocksOk(s) && OnlyHandle(s, s', h) && Clock(s)
    requires s'.init == s.init && s'.hist == s.hist && s'.mem == s.mem && s'.dumper == s.dumper && s'.time == s.time
    requires s.handles[h].pc.Releasing? && s.handles[h].acquired != []
    requires Phase(s.handles[h]) && LogHeld(s.handles[h]) && Tied(s, h)
    requires s'.locks == s.locks[Last(s.handles[h].acquired) := Free(s.handles[h].pc.end)]
    requires s'.handles[h] == s.handles[h].(acquired := DropLast(s.handles[h].acquired))
    ensures LocksOk(s')
  {
    var hd := s.handles[h];
    var o := Last(hd.acquired);
    assert s.locks[o] == Held(h);
    forall k: nat ensures LockOk(s', k) {
      assert LockOk(s, k);
      forall a: nat ensures Now(s', Loc(k, a)) == Now(s, Loc(k, a)) {
      }
      if k == o {
        forall a: nat ensures s'.mem[Loc(o, a)] == Now(s', Loc(o, a)) {
          ReleasedValue(s, h, Loc(o, a));
        }
        assert NoPending(s.hist, o, -1);
        assert NoCommitted(s.hist, o, Upto(hd.pc.end), -1);
      }
    }
  }

  lemma ReleasedValue(s: State, h: nat, loc: Loc)
    requires h < |s.handles| && s.handles[h].pc.Releasing? && Phase(s.handles[h]) && Tied(s, h)
    requires HeldOk(s, loc.obj, h) && Clock(s)
    ensures s.mem[loc] == Now(s, loc)
  {
    var hd := s.handles[h];
    assert s.mem[loc] == ApplyAt(hd.log, loc, Now(s, loc)) by {
      assert loc == Loc(loc.obj, loc.attr);
    }
    if hd.pc.committed {
      assert Upto(hd.start) <= hd.cur;
      ValueSkip(s.init, s.hist, hd.cur + 1, |s.hist|, loc);
      ApplyAgain(hd.log, loc, ValueAt(s.init, s.hist, hd.cur, loc));
    }
  }

  lemma LocksDump(s: State, s': State, o: nat)
    requires LocksOk(s)
    requires s'.init == s.init && s'.hist == s.hist && s'.mem == s.mem && s'.time == s.time && s'.handles == s.handles
    requires
      || (s.dumper.NoDump? && s.locks[o].Free? && s'.dumper == DumpHolds(o, s.locks[o].version)
          && s'.locks == s.locks[o := Dumping])
      || (s.dumper.DumpHolds? && s.dumper.obj == o && s'.dumper == NoDump
          && s'.locks == s.locks[o := Free(s.dumper.version)])
    ensures LocksOk(s')
  {
    forall k: nat ensures LockOk(s', k) {
      assert LockOk(s, k);
      assert LockOk(s, o);
      forall a: nat ensures Now(s', Loc(k, a)) == Now(s, Loc(k, a)) {
      }
    }
  }
}
