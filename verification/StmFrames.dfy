/** What one kind of change keeps of each part of the invariant. */
module StmFrames {
  import opened StmModel
  import opened StmInvariant
  import opened StmValues
  import opened StmLocks

  /** `hist'` decides some pending records of `hist` and appends others. */
  ghost predicate Extends(hist: seq<Rec>, hist': seq<Rec>) {
    && |hist| <= |hist'|
    && forall i :: 0 <= i < |hist| ==>
         || hist'[i] == hist[i]
         || (hist[i].status.Pending? && (hist'[i].status.Committed? || hist'[i].status.Rejected?)
             && hist'[i] == hist[i].(status := hist'[i].status))
  }

  /** Records and slots of other handles stay. */
  ghost predicate SlotsKept(s: State, s': State, h: nat) {
    forall i :: 0 <= i < |s.hist| && s.hist[i].owner != h ==>
      i < |s'.hist| && s'.hist[i] == s.hist[i] && (i in s'.queue <==> i in s.queue) && (i in s'.ready <==> i in s.ready)
  }

  ghost predicate HoldsKept(s: State, s': State, h: nat) {
    forall o: nat, k: nat :: s.locks[o] == Held(k) && k != h ==> s'.locks[o] == Held(k)
  }

  /** Committed values of objects that `h` does not hold stay. */
  ghost predicate NowKept(s: State, s': State, h: nat) {
    forall loc: Loc :: s.locks[loc.obj] != Held(h) ==> Now(s', loc) == Now(s, loc)
  }

  lemma HandlesFrame(s: State, s': State, h: nat)
    requires Handles(s) && OnlyHandle(s, s', h) && SlotsKept(s, s', h) && HoldsKept(s, s', h) && s.time <= s'.time
    requires Shape(s'.handles[h]) && Tied(s', h)
    ensures Handles(s')
  {
    forall k | 0 <= k < |s'.handles| ensures Shape(s'.handles[k]) && Tied(s', k) {
      assert Shape(s.handles[k]) && Tied(s, k);
      if k != h && InCommit(s.handles[k].pc) {
        assert s.hist[s.handles[k].cur].owner == k;
      }
    }
  }

  lemma UnpostedFrame(s: State, s': State, h: nat)
    requires Unposted(s) && OnlyHandle(s, s', h) && SlotsKept(s, s', h)
    requires |s.hist| <= |s'.hist|
    requires forall i :: |s.hist| <= i < |s'.hist| ==> s'.hist[i].owner == h
    requires forall i :: 0 <= i < |s.hist| ==> s'.hist[i].owner == s.hist[i].owner
    requires forall i :: 0 <= i < |s'.hist| && s'.hist[i].owner == h && Live(s'.hist[i]) && i !in s'.ready ==>
               InCommit(s'.handles[h].pc) && s'.handles[h].cur == i
    ensures Unposted(s')
  {
  }

  /** Values below a settled index stay when pending records are decided. */
  lemma {:induction false} ValueExtends(init: Memory, hist: seq<Rec>, hist': seq<Rec>, k: nat, loc: Loc)
    requires Extends(hist, hist') && k <= |hist|
    requires forall i :: 0 <= i < k && hist[i].status.Pending? ==> !Touches(hist[i].log, loc.obj)
    ensures ValueAt(init, hist', k, loc) == ValueAt(init, hist, k, loc)
  {
    if k > 0 {
      ValueExtends(init, hist, hist', k - 1, loc);
      if hist'[k - 1] != hist[k - 1] {
        ApplyUntouched(hist[k - 1].log, loc, ValueAt(init, hist, k - 1, loc));
      }
    }
  }

  lemma ReadKept(init: Memory, hist: seq<Rec>, hist': seq<Rec>, start: nat, log: seq<LogItem>, r: ReadEv)
    requires ReadOk(init, hist, start, log, r) && Extends(hist, hist')
    ensures ReadOk(init, hist', start, log, r)
  {
    ValueExtends(init, hist, hist', Upto(start), r.loc);
  }

  lemma ReadsKept(s: State, s': State, hd: Handle)
    requires Reads(s, hd) && Extends(s.hist, s'.hist) && s'.init == s.init
    ensures Reads(s', hd)
  {
    if Active(hd.pc) && hd.good <= |hd.readSet| {
      forall i | 0 <= i < hd.good ensures ReadOk(s'.init, s'.hist, hd.start, hd.log, hd.readSet[i]) {
        ReadKept(s.init, s.hist, s'.hist, hd.start, hd.log, hd.readSet[i]);
      }
    }
  }

  lemma ChainedKept(s: State, s': State, k: nat, h: nat)
    requires k < |s.handles| && k != h && Chained(s, s.handles[k]) && NowKept(s, s', h)
    requires LogHeld(s.handles[k]) && Tied(s, k)
    ensures Chained(s', s.handles[k])
  {
    var hd := s.handles[k];
    if Active(hd.pc) {
      forall i | 0 <= i < |hd.log| && hd.log[i].Wrote?
        ensures hd.log[i].oldVal == ApplyAt(hd.log[..i], hd.log[i].loc, Now(s', hd.log[i].loc))
      {
        assert hd.log[i].Obj() in hd.acquired;
        assert s.locks[hd.log[i].loc.obj] == Held(k);
      }
    }
  }

  lemma ValuesFrame(s: State, s': State, h: nat)
    requires Values(s) && Handles(s) && OnlyHandle(s, s', h) && NowKept(s, s', h)
    requires Extends(s.hist, s'.hist) && s'.init == s.init
    requires Chained(s', s'.handles[h]) && Reads(s', s'.handles[h])
    ensures Values(s')
  {
    forall k | 0 <= k < |s'.handles| ensures Chained(s', s'.handles[k]) && Reads(s', s'.handles[k]) {
      if k != h {
        assert Chained(s, s.handles[k]) && Reads(s, s.handles[k]);
        assert Shape(s.handles[k]) && Tied(s, k);
        ChainedKept(s, s', k, h);
        ReadsKept(s, s', s.handles[k]);
      }
    }
  }

  lemma ValidatedKept(s: State, s': State, start: nat, i: nat, o: nat)
    requires ValidatedRead(s, start, i, o) && i < |s.hist| && Extends(s.hist, s'.hist)
    requires forall p :: 0 <= p < |s.queue| ==> s.queue[p] < |s.hist|
    requires s'.queue == s.queue || (|s'.queue| == |s.queue| + 1 && s'.queue[..|s.queue|] == s.queue && i in s.queue)
    ensures ValidatedRead(s', start, i, o)
  {
    forall p | 0 <= p < |s'.queue| && i < s'.queue[p] < |s'.hist| && Live(s'.hist[s'.queue[p]])
               && Touches(s'.hist[s'.queue[p]].log, o)
      ensures i in s'.queue[..p]
    {
      if p < |s.queue| {
        assert s'.queue[..p] == s.queue[..p];
        assert Live(s.hist[s.queue[p]]);
      } else {
        assert s'.queue[..p] == s.queue;
      }
    }
  }

  ghost predicate QueueGrows(s: State, s': State) {
    s'.queue == s.queue || (|s'.queue| == |s.queue| + 1 && s'.queue[..|s.queue|] == s.queue)
  }

  lemma ValidationFrame(s: State, s': State, h: nat)
    requires Validation(s) && Handles(s) && QueueOk(s) && OnlyHandle(s, s', h)
    requires Extends(s.hist, s'.hist) && QueueGrows(s, s')
    requires Validated(s', s'.handles[h])
    ensures Validation(s')
  {
    forall k | 0 <= k < |s'.handles| ensures Validated(s', s'.handles[k]) {
      if k != h && s.handles[k].pc.Validating? {
        var hd := s.handles[k];
        assert Validated(s, hd) && Tied(s, k);
        forall j | 0 <= j < hd.pc.next && j < |hd.readSet|
          ensures ValidatedRead(s', hd.start, hd.cur, hd.readSet[j].loc.obj)
        {
          ValidatedKept(s, s', hd.start, hd.cur, hd.readSet[j].loc.obj);
        }
      }
    }
  }

  lemma RecKept(s: State, s': State, i: nat)
    requires i < |s.hist| && RecOk(s, i) && QueueOk(s)
    requires Extends(s.hist, s'.hist) && QueueGrows(s, s') && s'.init == s.init
    requires s'.hist[i] == s.hist[i]
    ensures RecOk(s', i)
  {
    var r := s.hist[i];
    forall k | 0 <= k < |r.readSet|
      ensures r.status.Committed? || r.status.Snapshot? ==> ReadOk(s'.init, s'.hist, r.start, r.log, r.readSet[k])
    {
      if r.status.Committed? || r.status.Snapshot? {
        ReadKept(s.init, s.hist, s'.hist, r.start, r.log, r.readSet[k]);
      }
    }
    if r.status.Committed? {
      forall k | 0 <= k < |r.readSet| ensures ValidatedRead(s', r.start, i, r.readSet[k].loc.obj) {
        ValidatedKept(s, s', r.start, i, r.readSet[k].loc.obj);
      }
    }
  }

  lemma HistoryFrame(s: State, s': State)
    requires History(s) && QueueOk(s)
    requires Extends(s.hist, s'.hist) && QueueGrows(s, s') && s'.init == s.init
    requires forall i :: 0 <= i < |s'.hist| && (i < |s.hist| ==> s'.hist[i] != s.hist[i]) ==> RecOk(s', i)
    ensures History(s')
  {
    forall i | 0 <= i < |s'.hist| ensures RecOk(s', i) {
      if i < |s.hist| && s'.hist[i] == s.hist[i] {
        RecKept(s, s', i);
      }
    }
  }

  // ----- loaded, unchecked values

  /** However `h` moves, it will release above every start time it was above, or above the clock. */
  ghost predicate FloorKept(s: State, hd: Handle, hd': Handle) {
    && (hd'.pc.Releasing? ==>
          || hd'.pc.end > s.time
          || (hd.pc.Releasing? && hd'.pc.end == hd.pc.end)
          || (InCommit(hd.pc) && hd'.pc.end == EndTime(hd.cur)))
    && (InCommit(hd'.pc) ==> EndTime(hd'.cur) > s.time || (InCommit(hd.pc) && hd'.cur == hd.cur))
  }

  /** An undecided commit stays undecided with its log, or is given up. */
  ghost predicate PendingKept(s: State, s': State, h: nat)
    requires h < |s.handles| && h < |s'.handles|
  {
    var hd, hd' := s.handles[h], s'.handles[h];
    hd.pc.Stamped? || hd.pc.Validating? ==>
      || ((hd'.pc.Stamped? || hd'.pc.Validating?) && hd'.cur == hd.cur && hd'.log == hd.log
          && forall loc: Loc :: Now(s', loc) == Now(s, loc))
      || (!hd'.pc.Releasing? && !InCommit(hd'.pc))
  }

  lemma LoadFrame(s: State, s': State, h: nat, k: nat)
    requires k < |s.handles| && k != h && LoadOk(s, k) && Tied(s, k) && Phase(s.handles[k])
    requires OnlyHandle(s, s', h) && Extends(s.hist, s'.hist) && NowKept(s, s', h) && s'.init == s.init
    requires s'.locks == s.locks && s'.dumper == s.dumper
    requires FloorKept(s, s.handles[h], s'.handles[h])
    requires PendingKept(s, s', h)
    ensures LoadOk(s', k)
  {
    var hd := s.handles[k];
    if hd.pc.Loaded? && hd.readSet != [] {
      var r := Last(hd.readSet);
      if ReadOk(s.init, s.hist, hd.start, hd.log, r) {
        ReadKept(s.init, s.hist, s'.hist, hd.start, hd.log, r);
      } else if Doomed(s, r.loc.obj, k, hd.start) {
        assert Doomed(s', r.loc.obj, k, hd.start);
      } else {
        assert LoadedFromPending(s, r, k, hd.start);
        if s.locks[r.loc.obj].owner == h && !s'.handles[h].pc.Stamped? && !s'.handles[h].pc.Validating? {
          assert Doomed(s', r.loc.obj, k, hd.start);
        } else {
          assert LoadedFromPending(s', r, k, hd.start);
        }
      }
    }
  }

  lemma LoadsFrame(s: State, s': State, h: nat)
    requires Loads(s) && Handles(s)
    requires OnlyHandle(s, s', h) && Extends(s.hist, s'.hist) && NowKept(s, s', h) && s'.init == s.init
    requires s'.locks == s.locks && s'.dumper == s.dumper
    requires FloorKept(s, s.handles[h], s'.handles[h])
    requires PendingKept(s, s', h)
    requires LoadOk(s', h)
    ensures Loads(s')
  {
    forall k | 0 <= k < |s'.handles| ensures LoadOk(s', k) {
      if k != h {
        assert LoadOk(s, k) && Tied(s, k) && Shape(s.handles[k]);
        LoadFrame(s, s', h, k);
      }
    }
  }
}
