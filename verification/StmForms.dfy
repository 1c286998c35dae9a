/** The whole invariant under each kind of state change. */
module StmForms {
  import opened StmModel
  import opened StmInvariant
  import opened StmValues
  import opened StmLocks
  import opened StmFrames

  /** What a step must establish about its own handle. */
  ghost predicate OwnOk(s': State, h: nat) {
    && h < |s'.handles|
    && Shape(s'.handles[h]) && Tied(s', h)
    && Chained(s', s'.handles[h]) && Reads(s', s'.handles[h]) && LoadOk(s', h) && Validated(s', s'.handles[h])
  }

  ghost predicate SameCommit(hd: Handle, hd': Handle) {
    InCommit(hd.pc) ==> InCommit(hd'.pc) && hd'.cur == hd.cur
  }

  lemma ExtendsRefl(hist: seq<Rec>)
    ensures Extends(hist, hist)
  {
  }

  /** Only the handle's own fields change. */
  lemma FormPrivate(s: State, s': State, h: nat)
    requires Inv(s) && s' == s.(handles := s'.handles) && OnlyHandle(s, s', h) && OwnOk(s', h)
    requires SameHold(s.handles[h], s'.handles[h]) && SameCommit(s.handles[h], s'.handles[h])
    requires FloorKept(s, s.handles[h], s'.handles[h]) && PendingKept(s, s', h)
    ensures Inv(s')
  {
    ExtendsRefl(s.hist);
    LocksPrivate(s, s', h);
    HandlesFrame(s, s', h);
    UnpostedFrame(s, s', h);
    ValuesFrame(s, s', h);
    LoadsFrame(s, s', h);
    ValidationFrame(s, s', h);
    HistoryFrame(s, s');
  }

  /** One object held by `h` and the log of `h` change. */
  lemma FormMemory(s: State, s': State, h: nat, o: nat)
    requires Inv(s) && s' == s.(handles := s'.handles, mem := s'.mem) && OnlyHandle(s, s', h) && OwnOk(s', h)
    requires s.locks[o] == Held(h)
    requires s'.handles[h] == s.handles[h].(log := s'.handles[h].log) && !InCommit(s.handles[h].pc)
    requires forall loc: Loc :: loc.obj != o ==> s'.mem[loc] == s.mem[loc]
    requires forall loc: Loc :: loc.obj != o ==>
               ApplyAt(s'.handles[h].log, loc, Now(s, loc)) == ApplyAt(s.handles[h].log, loc, Now(s, loc))
    requires forall a: nat :: s'.mem[Loc(o, a)] == ApplyAt(s'.handles[h].log, Loc(o, a), Now(s, Loc(o, a)))
    ensures Inv(s')
  {
    ExtendsRefl(s.hist);
    LocksMemory(s, s', h, o);
    HandlesFrame(s, s', h);
    UnpostedFrame(s, s', h);
    ValuesFrame(s, s', h);
    LoadsFrame(s, s', h);
    ValidationFrame(s, s', h);
    HistoryFrame(s, s');
  }

  // ----- appending to the history

  lemma OrderedAppend(hist: seq<Rec>, r: Rec, queue: seq<nat>, p: nat)
    requires p < |queue| && queue[p] < |hist| && WritersFirst(hist, queue, p)
    ensures WritersFirst(hist + [r], queue, p)
  {
    var hist' := hist + [r];
    var j := queue[p];
    if Live(hist'[j]) {
      forall i, k | 0 <= i < Upto(hist'[j].start) && i < j && hist'[i].status.Committed?
                    && 0 <= k < |hist'[j].readSet| && Touches(hist'[i].log, hist'[j].readSet[k].loc.obj)
        ensures i in queue[..p]
      {
        assert hist'[i] == hist[i] && hist'[j] == hist[j];
      }
      forall i, o: nat | 0 <= i < j && hist'[i].status.Committed? && Touches(hist'[i].log, o) && Touches(hist'[j].log, o)
        ensures i in queue[..p]
      {
        assert hist'[i] == hist[i] && hist'[j] == hist[j];
      }
    }
  }

  lemma QueueAppend(s: State, s': State, r: Rec)
    requires QueueOk(s) && Ordered(s)
    requires s'.hist == s.hist + [r] && !r.status.Committed?
    requires s'.queue == s.queue && s'.ready == s.ready && s'.done == s.done
    ensures QueueOk(s') && Ordered(s')
  {
    forall p | 0 <= p < |s'.queue| ensures WritersFirst(s'.hist, s'.queue, p) {
      assert WritersFirst(s.hist, s.queue, p);
      OrderedAppend(s.hist, r, s.queue, p);
    }
  }

  /** The clock advances and `h` appends one record, which it is about to decide or has not
      committed. */
  ghost predicate Appends(s: State, s': State, h: nat, r: Rec) {
    && OnlyHandle(s, s', h) && OwnOk(s', h)
    && s' == s.(handles := s'.handles, time := s.time + 2, hist := s.hist + [r])
    && r.owner == h && r.start == s.handles[h].start && !r.status.Committed?
    && Active(s.handles[h].pc) && !InCommit(s.handles[h].pc)
    && s'.handles[h] == s.handles[h].(pc := s'.handles[h].pc, cur := s'.handles[h].cur)
    && (if r.status.Pending? then s'.handles[h].pc.Stamped? && s'.handles[h].cur == |s.hist| && r.log == s.handles[h].log
        else s'.handles[h].pc == Releasing(s.time + 2, false))
    && RecOk(s', |s.hist|)
  }

  lemma AppendedNow(s: State, s': State, r: Rec)
    requires Clock(s) && s'.init == s.init && s'.hist == s.hist + [r] && !r.status.Committed?
    ensures forall loc: Loc :: Now(s', loc) == Now(s, loc)
  {
    forall loc: Loc ensures Now(s', loc) == Now(s, loc) {
      ValueAppend(s.init, s.hist, r, |s.hist|, loc);
    }
  }

  lemma AppendShared(s: State, s': State, h: nat, r: Rec)
    requires Inv(s) && Appends(s, s', h, r)
    ensures LocksOk(s') && Clock(s') && Handles(s') && Unposted(s') && QueueOk(s') && Ordered(s')
  {
    assert Shape(s.handles[h]) && Tied(s, h);
    AppendedNow(s, s', r);
    LocksAppend(s, s', h, r);
    ClockAppend(s, s', r);
    HandlesFrame(s, s', h);
    UnpostedFrame(s, s', h);
    QueueAppend(s, s', r);
  }

  lemma FormAppend(s: State, s': State, h: nat, r: Rec)
    requires Inv(s) && Appends(s, s', h, r)
    ensures Inv(s')
  {
    assert Shape(s.handles[h]) && Tied(s, h);
    AppendedNow(s, s', r);
    AppendShared(s, s', h, r);
    ValuesFrame(s, s', h);
    LoadsFrame(s, s', h);
    ValidationFrame(s, s', h);
    HistoryFrame(s, s');
  }

  lemma ClockAppend(s: State, s': State, r: Rec)
    requires Clock(s) && |s'.handles| == |s.handles| && s'.time == s.time + 2 && s'.hist == s.hist + [r]
    requires r.owner < |s.handles| && r.start % 2 == 1 && r.start <= s.time
    ensures Clock(s')
  {
  }

  // ----- deciding a record

  lemma OrderedReject(s: State, s': State, cur: nat)
    requires Ordered(s) && QueueOk(s) && cur < |s.hist| && s.hist[cur].status.Pending?
    requires s'.hist == SetStatus(s.hist, cur, Rejected) && s'.queue == s.queue
    ensures Ordered(s')
  {
    forall p | 0 <= p < |s'.queue| ensures WritersFirst(s'.hist, s'.queue, p) {
      assert WritersFirst(s.hist, s.queue, p);
    }
  }

  lemma FormReject(s: State, s': State, h: nat)
    requires Inv(s) && OnlyHandle(s, s', h) && OwnOk(s', h)
    requires s.handles[h].pc.Validating? && s.handles[h].cur < |s.hist|
    requires s' == s.(handles := s'.handles, hist := SetStatus(s.hist, s.handles[h].cur, Rejected),
                      ready := s.ready + {s.handles[h].cur})
    requires s'.handles[h] == s.handles[h].(pc := UndoMain, readSet := [], good := 0, marks := [])
    ensures Inv(s')
  {
    var hd := s.handles[h];
    assert Shape(hd) && Tied(s, h);
    forall loc: Loc ensures Now(s', loc) == Now(s, loc) {
      ValueDecide(s.init, s.hist, hd.cur, Rejected, |s.hist|, loc);
    }
    LocksReject(s, s', h);
    HandlesFrame(s, s', h);
    UnpostedFrame(s, s', h);
    ValuesFrame(s, s', h);
    LoadsFrame(s, s', h);
    OrderedReject(s, s', hd.cur);
    ValidationFrame(s, s', h);
    HistoryFrame(s, s');
  }

  /** A live record read nothing that an undecided earlier commit was still writing. */
  lemma NoPendingSource(s: State, i: nat, j: nat, k: nat)
    requires Clock(s) && Handles(s) && Unposted(s) && Values(s) && QueueOk(s) && History(s)
    requires j < |s.hist| && Live(s.hist[j]) && k < |s.hist[j].readSet|
    requires i < Upto(s.hist[j].start) && s.hist[i].status.Pending?
    ensures !Touches(s.hist[i].log, s.hist[j].readSet[k].loc.obj)
  {
    if s.hist[j].status.Pending? {
      var h := s.hist[j].owner;
      assert Shape(s.handles[h]) && Tied(s, h) && Reads(s, s.handles[h]);
    } else {
      assert RecOk(s, j);
    }
  }

  lemma OrderedCommit(s: State, s': State, h: nat)
    requires Inv(s) && h < |s.handles| && s.handles[h].pc.Validating?
    requires s.handles[h].cur < |s.hist|
    requires s'.hist == SetStatus(s.hist, s.handles[h].cur, Committed) && s'.queue == s.queue
    ensures Ordered(s')
  {
    var hd := s.handles[h];
    var cur := hd.cur;
    assert Shape(hd) && Tied(s, h);
    forall p | 0 <= p < |s'.queue| ensures WritersFirst(s'.hist, s'.queue, p) {
      assert WritersFirst(s.hist, s.queue, p);
      var j := s.queue[p];
      if Live(s'.hist[j]) {
        assert Live(s.hist[j]);
        forall i, o: nat | 0 <= i < j && s'.hist[i].status.Committed? && Touches(s'.hist[i].log, o) && Touches(s'.hist[j].log, o)
          ensures i in s'.queue[..p]
        {
          if i == cur {
            HolderAlone(s, h, o, j);
          }
        }
        forall i, k | 0 <= i < Upto(s'.hist[j].start) && i < j && s'.hist[i].status.Committed?
                      && 0 <= k < |s'.hist[j].readSet| && Touches(s'.hist[i].log, s'.hist[j].readSet[k].loc.obj)
          ensures i in s'.queue[..p]
        {
          if i == cur {
            NoPendingSource(s, i, j, k);
          }
        }
      }
    }
  }

  /** While a commit is undecided no later live record touches what it writes. */
  lemma HolderAlone(s: State, h: nat, o: nat, j: nat)
    requires Inv(s) && h < |s.handles| && (s.handles[h].pc.Stamped? || s.handles[h].pc.Validating?)
    requires Touches(s.handles[h].log, o)
    requires s.handles[h].cur < j < |s.hist| && Live(s.hist[j])
    ensures !Touches(s.hist[j].log, o)
  {
    var hd := s.handles[h];
    assert Shape(hd) && Tied(s, h);
    assert s.locks[o] == Held(h);
    assert LockOk(s, o);
    assert Upto(hd.start) <= hd.cur;
  }

  lemma FormCommit(s: State, s': State, h: nat)
    requires Inv(s) && OnlyHandle(s, s', h) && OwnOk(s', h)
    requires s.handles[h].pc.Validating? && s.handles[h].pc.next >= |s.handles[h].readSet|
    requires s.handles[h].cur < |s.hist|
    requires s' == s.(handles := s'.handles, hist := SetStatus(s.hist, s.handles[h].cur, Committed))
    requires s'.handles[h] == s.handles[h].(pc := Releasing(EndTime(s.handles[h].cur), true))
    ensures Inv(s')
  {
    var hd := s.handles[h];
    assert Shape(hd) && Tied(s, h);
    forall loc: Loc | s.locks[loc.obj] != Held(h) ensures Now(s', loc) == Now(s, loc) {
      assert !Touches(hd.log, loc.obj);
      ValueDecide(s.init, s.hist, hd.cur, Committed, |s.hist|, loc);
    }
    LocksCommit(s, s', h);
    HandlesFrame(s, s', h);
    UnpostedFrame(s, s', h);
    ValuesFrame(s, s', h);
    LoadsCommit(s, s', h);
    OrderedCommit(s, s', h);
    ValidationFrame(s, s', h);
    RecCommit(s, s', h);
    HistoryFrame(s, s');
  }

  lemma RecCommit(s: State, s': State, h: nat)
    requires Inv(s) && h < |s.handles| && s.handles[h].pc.Validating? && s.handles[h].pc.next >= |s.handles[h].readSet|
    requires s.handles[h].cur < |s.hist|
    requires s'.init == s.init && s'.queue == s.queue && s'.hist == SetStatus(s.hist, s.handles[h].cur, Committed)
    ensures RecOk(s', s.handles[h].cur)
  {
    var hd := s.handles[h];
    assert Shape(hd) && Tied(s, h) && Validated(s, hd) && Reads(s, hd);
    forall k | 0 <= k < |hd.readSet|
      ensures ReadOk(s'.init, s'.hist, hd.start, hd.log, hd.readSet[k])
      ensures ValidatedRead(s', hd.start, hd.cur, hd.readSet[k].loc.obj)
    {
      ReadKept(s.init, s.hist, s'.hist, hd.start, hd.log, hd.readSet[k]);
      ValidatedKept(s, s', hd.start, hd.cur, hd.readSet[k].loc.obj);
    }
  }

  /** A value loaded from the commit that now succeeds has become the committed value. */
  lemma LoadCommit(s: State, s': State, h: nat, k: nat)
    requires Inv(s) && OnlyHandle(s, s', h) && k < |s.handles| && k != h
    requires s.handles[h].pc.Validating? && s.handles[h].cur < |s.hist|
    requires s' == s.(handles := s'.handles, hist := SetStatus(s.hist, s.handles[h].cur, Committed))
    requires s.handles[k].pc.Loaded? && s.handles[k].readSet != []
    requires LoadedFromPending(s, Last(s.handles[k].readSet), k, s.handles[k].start)
    requires s.locks[Last(s.handles[k].readSet).loc.obj] == Held(h)
    ensures LoadOk(s', k)
  {
    var hd, hk := s.handles[h], s.handles[k];
    var r := Last(hk.readSet);
    var o := r.loc.obj;
    assert Shape(hd) && Tied(s, h) && Shape(hk) && Tied(s, k) && LockOk(s, o);
    forall i | 0 <= i < r.at ensures hk.log[..r.at][i].Obj() != o {
      assert hk.log[i].Obj() in hk.acquired;
    }
    ApplyUntouched(hk.log[..r.at], r.loc, ValueAt(s'.init, s'.hist, Upto(hk.start), r.loc));
    assert Upto(hd.start) <= hd.cur;
    ValueCommit(s.init, s.hist, hd.cur, r.loc);
    ValueSkip(s'.init, s'.hist, Upto(hk.start), |s'.hist|, r.loc);
    assert ReadOk(s'.init, s'.hist, hk.start, hk.log, r);
  }

  lemma LoadsCommit(s: State, s': State, h: nat)
    requires Inv(s) && OnlyHandle(s, s', h) && NowKept(s, s', h)
    requires s.handles[h].pc.Validating? && s.handles[h].cur < |s.hist|
    requires s' == s.(handles := s'.handles, hist := SetStatus(s.hist, s.handles[h].cur, Committed))
    requires s'.handles[h] == s.handles[h].(pc := Releasing(EndTime(s.handles[h].cur), true))
    ensures Loads(s')
  {
    forall k | 0 <= k < |s'.handles| ensures LoadOk(s', k) {
      assert LoadOk(s, k) && Tied(s, k) && Shape(s.handles[k]) && Tied(s, h);
      var hk := s.handles[k];
      if k != h && hk.pc.Loaded? && hk.readSet != [] {
        var r := Last(hk.readSet);
        if ReadOk(s.init, s.hist, hk.start, hk.log, r) {
          ReadKept(s.init, s.hist, s'.hist, hk.start, hk.log, r);
        } else if Doomed(s, r.loc.obj, k, hk.start) {
          assert Doomed(s', r.loc.obj, k, hk.start);
        } else if s.locks[r.loc.obj] == Held(h) {
          LoadCommit(s, s', h, k);
        } else {
          assert LoadedFromPending(s', r, k, hk.start);
        }
      }
    }
  }

  // ----- the queue

  lemma OrderedPush(s: State, s': State, h: nat)
    requires Inv(s) && h < |s.handles| && s.handles[h].pc.Stamped?
    requires s'.hist == s.hist && s'.queue == s.queue + [s.handles[h].cur]
    ensures Ordered(s')
  {
    var hd := s.handles[h];
    assert Shape(hd) && Tied(s, h);
    forall p | 0 <= p < |s'.queue| ensures WritersFirst(s'.hist, s'.queue, p) {
      if p < |s.queue| {
        assert WritersFirst(s.hist, s.queue, p);
        assert s'.queue[..p] == s.queue[..p];
      } else {
        assert s'.queue[..p] == s.queue;
      }
    }
  }

  lemma QueuePush(s: State, s': State, h: nat)
    requires QueueOk(s) && h < |s.handles| && s.handles[h].pc.Stamped? && Tied(s, h)
    requires s'.hist == s.hist && s'.queue == s.queue + [s.handles[h].cur] && s'.ready == s.ready && s'.done == s.done
    ensures QueueOk(s') && QueueGrows(s, s')
  {
    assert s'.queue[..|s.queue|] == s.queue;
    forall i | i in s.queue ensures i in s'.queue {
    }
  }

  lemma FormPush(s: State, s': State, h: nat)
    requires Inv(s) && OnlyHandle(s, s', h) && OwnOk(s', h)
    requires s.handles[h].pc.Stamped?
    requires s' == s.(handles := s'.handles, queue := s.queue + [s.handles[h].cur])
    requires s'.handles[h] == s.handles[h].(pc := Validating(0))
    ensures Inv(s')
  {
    ExtendsRefl(s.hist);
    assert Shape(s.handles[h]) && Tied(s, h);
    LocksPrivate(s, s', h);
    HandlesFrame(s, s', h);
    UnpostedFrame(s, s', h);
    ValuesFrame(s, s', h);
    LoadsFrame(s, s', h);
    QueuePush(s, s', h);
    OrderedPush(s, s', h);
    ValidationFrame(s, s', h);
    HistoryFrame(s, s');
  }

  lemma FormPost(s: State, s': State, h: nat)
    requires Inv(s) && OnlyHandle(s, s', h) && OwnOk(s', h)
    requires s.handles[h].pc.Building?
    requires s' == s.(handles := s'.handles, ready := s.ready + {s.handles[h].cur})
    requires s'.handles[h] == IDLE
    ensures Inv(s')
  {
    ExtendsRefl(s.hist);
    assert Shape(s.handles[h]) && Tied(s, h);
    LocksPrivate(s, s', h);
    HandlesFrame(s, s', h);
    UnpostedFrame(s, s', h);
    ValuesFrame(s, s', h);
    LoadsFrame(s, s', h);
    ValidationFrame(s, s', h);
    HistoryFrame(s, s');
  }

  // ----- lock words

  /** One lock word is taken by `h` or released by it. */
  ghost predicate WordMoves(s: State, s': State, h: nat, o: nat) {
    && OnlyHandle(s, s', h)
    && s'.init == s.init && s'.hist == s.hist && s'.dumper == s.dumper && s'.time == s.time
    && (forall k: nat :: k != o ==> s'.locks[k] == s.locks[k])
    && (if s.locks[o].Free?
        then s'.locks[o] == Held(h) && !s'.handles[h].pc.Releasing? && !InCommit(s'.handles[h].pc)
        else s.locks[o] == Held(h) && s.handles[h].pc.Releasing? && s'.locks[o] == Free(s.handles[h].pc.end)
             && s'.handles[h].pc == s.handles[h].pc && s'.handles[h].cur == s.handles[h].cur)
    && !s.handles[h].pc.Stamped? && !s.handles[h].pc.Validating?
  }

  /** Lock words change hands without unsettling any loaded value of another handle. */
  lemma DoomedMoves(s: State, s': State, h: nat, o: nat, q: nat, k: nat, start: nat)
    requires WordMoves(s, s', h, o) && k != h && Doomed(s, q, k, start)
    requires h < |s.handles| && (s.locks[o].Free? ==> !s.handles[h].pc.Releasing? && !InCommit(s.handles[h].pc))
    ensures Doomed(s', q, k, start)
  {
  }

  lemma LoadWord(s: State, s': State, h: nat, o: nat, k: nat)
    requires WordMoves(s, s', h, o) && k < |s.handles| && k != h && LoadOk(s, k)
    requires s.locks[o].Free? ==> !s.handles[h].pc.Releasing? && !InCommit(s.handles[h].pc)
    ensures LoadOk(s', k)
  {
    var hk := s.handles[k];
    if hk.pc.Loaded? && hk.readSet != [] {
      var r := Last(hk.readSet);
      if Doomed(s, r.loc.obj, k, hk.start) {
        DoomedMoves(s, s', h, o, r.loc.obj, k, hk.start);
      } else if LoadedFromPending(s, r, k, hk.start) {
        assert Now(s', r.loc) == Now(s, r.loc);
        assert LoadedFromPending(s', r, k, hk.start);
      }
    }
  }

  lemma LoadsWord(s: State, s': State, h: nat, o: nat)
    requires Loads(s) && WordMoves(s, s', h, o)
    requires s.locks[o].Free? ==> !s.handles[h].pc.Releasing? && !InCommit(s.handles[h].pc)
    requires LoadOk(s', h)
    ensures Loads(s')
  {
    forall k | 0 <= k < |s'.handles| ensures LoadOk(s', k) {
      if k != h {
        assert LoadOk(s, k);
        LoadWord(s, s', h, o, k);
      }
    }
  }

  lemma FormCas(s: State, s': State, h: nat, o: nat)
    requires Inv(s) && OnlyHandle(s, s', h) && OwnOk(s', h)
    requires s.handles[h].pc.Locking? && s.locks[o].Free? && s.locks[o].version <= s.handles[h].start
    requires s' == s.(handles := s'.handles, locks := s.locks[o := Held(h)])
    requires s'.handles[h] == s.handles[h].(pc := Running, acquired := s.handles[h].acquired + [o])
    ensures Inv(s')
  {
    ExtendsRefl(s.hist);
    assert Shape(s.handles[h]) && Tied(s, h);
    LocksCas(s, s', h, o);
    HandlesFrame(s, s', h);
    UnpostedFrame(s, s', h);
    ValuesFrame(s, s', h);
    LoadsWord(s, s', h, o);
    ValidationFrame(s, s', h);
    HistoryFrame(s, s');
  }

  lemma FormRelease(s: State, s': State, h: nat)
    requires Inv(s) && OnlyHandle(s, s', h) && OwnOk(s', h)
    requires s.handles[h].pc.Releasing? && s.handles[h].acquired != []
    requires s' == s.(handles := s'.handles, locks := s.locks[Last(s.handles[h].acquired) := Free(s.handles[h].pc.end)])
    requires s'.handles[h] == s.handles[h].(acquired := DropLast(s.handles[h].acquired))
    ensures Inv(s')
  {
    ExtendsRefl(s.hist);
    assert Shape(s.handles[h]) && Tied(s, h);
    LocksRelease(s, s', h);
    HandlesFrame(s, s', h);
    UnpostedFrame(s, s', h);
    ValuesFrame(s, s', h);
    LoadsWord(s, s', h, Last(s.handles[h].acquired));
    ValidationFrame(s, s', h);
    HistoryFrame(s, s');
  }

  // ----- the service thread

  lemma LoadsDump(s: State, s': State, o: nat)
    requires LocksOk(s) && Loads(s) && s'.init == s.init && s'.hist == s.hist && s'.handles == s.handles
    requires
      || (s.dumper.NoDump? && s.locks[o].Free? && s'.dumper == DumpHolds(o, s.locks[o].version)
          && s'.locks == s.locks[o := Dumping])
      || (s.dumper.DumpHolds? && s.dumper.obj == o && s'.dumper == NoDump
          && s'.locks == s.locks[o := Free(s.dumper.version)])
    ensures Loads(s')
  {
    forall k | 0 <= k < |s'.handles| ensures LoadOk(s', k) {
      assert LoadOk(s, k);
      var hk := s.handles[k];
      if hk.pc.Loaded? && hk.readSet != [] {
        var r := Last(hk.readSet);
        assert LockOk(s, r.loc.obj) && LockOk(s, o);
        assert Now(s', r.loc) == Now(s, r.loc);
      }
    }
  }

  lemma FormDump(s: State, s': State, o: nat)
    requires Inv(s) && s' == s.(locks := s'.locks, dumper := s'.dumper)
    requires
      || (s.dumper.NoDump? && s.locks[o].Free? && s'.dumper == DumpHolds(o, s.locks[o].version)
          && s'.locks == s.locks[o := Dumping])
      || (s.dumper.DumpHolds? && s.dumper.obj == o && s'.dumper == NoDump
          && s'.locks == s.locks[o := Free(s.dumper.version)])
    ensures Inv(s')
  {
    ExtendsRefl(s.hist);
    LocksDump(s, s', o);
    LoadsDump(s, s', o);
    forall k | 0 <= k < |s'.handles|
      ensures Shape(s'.handles[k]) && Tied(s', k)
      ensures Chained(s', s'.handles[k]) && Reads(s', s'.handles[k]) && Validated(s', s'.handles[k])
    {
      assert Shape(s.handles[k]) && Tied(s, k) && Validated(s, s.handles[k]);
      assert Chained(s, s.handles[k]) && Reads(s, s.handles[k]);
      DumpTied(s, s', o, k);
      DumpChained(s, s', k);
    }
    HistoryFrame(s, s');
  }

  lemma DumpTied(s: State, s': State, o: nat, k: nat)
    requires k < |s.handles| && Tied(s, k) && !s.locks[o].Held?
    requires s' == s.(locks := s'.locks, dumper := s'.dumper)
    requires forall p: nat :: p != o ==> s'.locks[p] == s.locks[p]
    ensures Tied(s', k)
  {
  }

  lemma DumpChained(s: State, s': State, k: nat)
    requires k < |s.handles| && Chained(s, s.handles[k]) && s'.init == s.init && s'.hist == s.hist
    ensures Chained(s', s.handles[k])
  {
    var hd := s.handles[k];
    forall i | Active(hd.pc) && 0 <= i < |hd.log| && hd.log[i].Wrote?
      ensures hd.log[i].oldVal == ApplyAt(hd.log[..i], hd.log[i].loc, Now(s', hd.log[i].loc))
    {
      assert Now(s', hd.log[i].loc) == Now(s, hd.log[i].loc);
    }
  }

  lemma FormProcess(s: State)
    requires Inv(s) && s.done < |s.queue| && s.queue[s.done] in s.ready
    ensures Inv(s.(done := s.done + 1))
  {
    var s' := s.(done := s.done + 1);
    ExtendsRefl(s.hist);
    forall k | 0 <= k < |s'.handles|
      ensures Shape(s'.handles[k]) && Tied(s', k) && LoadOk(s', k)
      ensures Chained(s', s'.handles[k]) && Reads(s', s'.handles[k]) && Validated(s', s'.handles[k])
    {
      assert Shape(s.handles[k]) && Tied(s, k) && LoadOk(s, k) && Validated(s, s.handles[k]);
      assert Chained(s, s.handles[k]) && Reads(s, s.handles[k]);
      DumpChained(s, s', k);
    }
    ProcessLocks(s, s');
    HistoryFrame(s, s');
  }

  lemma ProcessLocks(s: State, s': State)
    requires LocksOk(s) && s' == s.(done := s'.done)
    ensures LocksOk(s')
  {
    forall o: nat ensures LockOk(s', o) {
      assert LockOk(s, o);
      forall a: nat ensures Now(s', Loc(o, a)) == Now(s, Loc(o, a)) {
      }
    }
  }
}
