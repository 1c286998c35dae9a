/** The inductive invariant of the step system. */
module StmInvariant {
  import opened StmModel

  /** A commit attempt that is committed or may still become so. */
  predicate Live(r: Rec) {
    r.status.Pending? || r.status.Committed?
  }

  ghost predicate NoPending(hist: seq<Rec>, o: nat, except: int) {
    forall i :: 0 <= i < |hist| && hist[i].status.Pending? && Touches(hist[i].log, o) ==> i == except
  }

  ghost predicate NoCommitted(hist: seq<Rec>, o: nat, lo: nat, except: int) {
    forall i :: lo <= i < |hist| && hist[i].status.Committed? && Touches(hist[i].log, o) ==> i == except
  }

  /** No live record in [lo, hi) touches `o`. */
  ghost predicate Quiet(hist: seq<Rec>, lo: nat, hi: nat, o: nat) {
    forall i :: lo <= i < hi && i < |hist| && Live(hist[i]) ==> !Touches(hist[i].log, o)
  }

  /** The committed value of `loc` after the whole history. */
  ghost function Now(s: State, loc: Loc): int {
    ValueAt(s.init, s.hist, |s.hist|, loc)
  }

  /** A transaction that has not decided: its log is still undoable. */
  predicate Active(pc: Pc) {
    !pc.Idle? && !pc.Releasing? && !pc.Building?
  }

  /** A writer between taking its end time and posting `ready`, unless validation failed. */
  predicate InCommit(pc: Pc) {
    pc.Stamped? || pc.Validating? || (pc.Releasing? && pc.committed) || pc.Building?
  }

  function Own(hd: Handle): int {
    if InCommit(hd.pc) then hd.cur else -1
  }

  // ----- clock and locks

  ghost predicate Clock(s: State) {
    && s.time == 2 * |s.hist| + 1
    && forall i :: 0 <= i < |s.hist| ==>
         s.hist[i].owner < |s.handles| && s.hist[i].start % 2 == 1 && Upto(s.hist[i].start) <= i
  }

  ghost predicate FreeOk(s: State, o: nat, version: nat) {
    && version % 2 == 1 && version <= s.time
    && NoPending(s.hist, o, -1)
    && NoCommitted(s.hist, o, Upto(version), -1)
    && forall a: nat :: s.mem[Loc(o, a)] == Now(s, Loc(o, a))
  }

  ghost predicate HeldOk(s: State, o: nat, h: nat) {
    && h < |s.handles|
    && var hd := s.handles[h];
    && o in hd.acquired
    && NoPending(s.hist, o, Own(hd))
    && NoCommitted(s.hist, o, Upto(hd.start), Own(hd))
    && forall a: nat :: s.mem[Loc(o, a)] == ApplyAt(hd.log, Loc(o, a), Now(s, Loc(o, a)))
  }

  ghost predicate LockOk(s: State, o: nat) {
    match s.locks[o]
    case Free(version) => FreeOk(s, o, version)
    case Held(h) => HeldOk(s, o, h)
    case Dumping => s.dumper.DumpHolds? && s.dumper.obj == o && FreeOk(s, o, s.dumper.version)
  }

  ghost predicate LocksOk(s: State) {
    && (forall o: nat :: LockOk(s, o))
    && (s.dumper.DumpHolds? ==> s.locks[s.dumper.obj] == Dumping)
  }

  // ----- one handle

  ghost predicate MarkOk(hd: Handle, m: Mark) {
    && m.readSet <= hd.good && m.log <= |hd.log| && hd.good <= |hd.readSet|
    && forall j :: 0 <= j < m.readSet ==> hd.readSet[j].at <= m.log
  }

  /** What each program point says about the handle's own fields. */
  ghost predicate Phase(hd: Handle) {
    && (if hd.pc.Idle? then hd == IDLE else hd.start % 2 == 1)
    && hd.good <= |hd.readSet|
    && (Active(hd.pc) && !hd.pc.Loaded? && !hd.pc.Failed? ==> hd.good == |hd.readSet|)
    && (hd.pc.Loaded? ==> hd.good + 1 == |hd.readSet|)
    && (hd.pc.Locking? && hd.pc.seen.Free? ==> hd.pc.seen.version <= hd.start)
    && (hd.pc.UndoNested? ==> hd.marks != [] && |hd.readSet| <= Last(hd.marks).readSet)
    && (hd.pc.UndoMain? || hd.pc.Releasing? || InCommit(hd.pc) ==> hd.marks == [])
    && (hd.pc.UndoMain? ==> hd.readSet == [])
    && (hd.pc.Validating? ==> hd.pc.next <= |hd.readSet|)
    && (hd.pc.Releasing? && !hd.pc.committed ==> hd.log == [])
    && (InCommit(hd.pc) ==> hd.log != [])
    && (hd.pc.Building? ==> hd.acquired == [])
  }

  ghost predicate Marked(hd: Handle) {
    && (Active(hd.pc) ==> forall i :: 0 <= i < |hd.readSet| ==> hd.readSet[i].at <= |hd.log|)
    && (forall i :: 0 <= i < |hd.marks| ==> MarkOk(hd, hd.marks[i]))
    && (forall i, j :: 0 <= i < j < |hd.marks| ==>
          hd.marks[i].log <= hd.marks[j].log && hd.marks[i].readSet <= hd.marks[j].readSet)
  }

  ghost predicate LogHeld(hd: Handle) {
    && (forall i, j :: 0 <= i < j < |hd.acquired| ==> hd.acquired[i] != hd.acquired[j])
    && (Active(hd.pc) ==> forall i :: 0 <= i < |hd.log| ==> hd.log[i].Obj() in hd.acquired)
  }

  ghost predicate Shape(hd: Handle) {
    Phase(hd) && Marked(hd) && LogHeld(hd)
  }

  /** How a handle is tied to the clock, the lock words, its record and the queue. */
  ghost predicate Tied(s: State, h: nat)
    requires h < |s.handles|
  {
    var hd := s.handles[h];
    && (!hd.pc.Idle? ==> hd.start <= s.time)
    && (forall o :: o in hd.acquired ==> s.locks[o] == Held(h))
    && (hd.pc.Releasing? ==> hd.start < hd.pc.end <= s.time && hd.pc.end % 2 == 1)
    && (InCommit(hd.pc) ==>
          && hd.cur < |s.hist|
          && s.hist[hd.cur] == Rec(h, hd.start, if Active(hd.pc) then Pending else Committed, hd.readSet, hd.log)
          && (hd.pc.Releasing? ==> hd.pc.end == EndTime(hd.cur))
          && (hd.cur in s.queue <==> !hd.pc.Stamped?)
          && hd.cur !in s.ready)
  }

  ghost predicate Handles(s: State) {
    forall h :: 0 <= h < |s.handles| ==> Shape(s.handles[h]) && Tied(s, h)
  }

  /** A live record whose slot is not ready belongs to the handle that is committing it. */
  ghost predicate Unposted(s: State) {
    forall i :: 0 <= i < |s.hist| && Live(s.hist[i]) && i !in s.ready ==>
      var h := s.hist[i].owner;
      h < |s.handles| && InCommit(s.handles[h].pc) && s.handles[h].cur == i
  }

  // ----- values

  /** Every logged old value is what the log below it left. */
  ghost predicate Chained(s: State, hd: Handle) {
    Active(hd.pc) ==>
      forall i :: 0 <= i < |hd.log| && hd.log[i].Wrote? ==>
        hd.log[i].oldVal == ApplyAt(hd.log[..i], hd.log[i].loc, Now(s, hd.log[i].loc))
  }

  /** `r` saw the transaction's own write or the value committed by its start time,
      and no undecided commit of an earlier end time touches the object. */
  ghost predicate ReadOk(init: Memory, hist: seq<Rec>, start: nat, log: seq<LogItem>, r: ReadEv) {
    && r.at <= |log| && Upto(start) <= |hist|
    && r.val == ApplyAt(log[..r.at], r.loc, ValueAt(init, hist, Upto(start), r.loc))
    && forall i :: 0 <= i < Upto(start) && hist[i].status.Pending? ==> !Touches(hist[i].log, r.loc.obj)
  }

  ghost predicate Reads(s: State, hd: Handle) {
    Active(hd.pc) && hd.good <= |hd.readSet| ==>
      forall i :: 0 <= i < hd.good ==> ReadOk(s.init, s.hist, hd.start, hd.log, hd.readSet[i])
  }

  /** A lock word that no later state of this handle's transaction can pass: whoever
      holds it releases it with a version above `start`. */
  ghost predicate Doomed(s: State, o: nat, h: nat, start: nat) {
    match s.locks[o]
    case Free(version) => version > start
    case Dumping => s.dumper.DumpHolds? && s.dumper.version > start
    case Held(owner) =>
      && owner != h && owner < |s.handles|
      && var hd := s.handles[owner];
      && (hd.pc.Releasing? ==> hd.pc.end > start)
      && (InCommit(hd.pc) ==> EndTime(hd.cur) > start)
  }

  /** The object is held by an undecided commit of an earlier end time whose value was loaded. */
  ghost predicate LoadedFromPending(s: State, r: ReadEv, h: nat, start: nat) {
    && s.locks[r.loc.obj].Held?
    && var owner := s.locks[r.loc.obj].owner;
    && owner != h && owner < |s.handles|
    && var hd := s.handles[owner];
    && (hd.pc.Stamped? || hd.pc.Validating?)
    && EndTime(hd.cur) <= start
    && r.val == ApplyAt(hd.log, r.loc, Now(s, r.loc))
  }

  /** A value loaded but not yet checked is right, or its check will fail,
      or the check can pass only once the commit it came from has succeeded. */
  ghost predicate LoadOk(s: State, h: nat)
    requires h < |s.handles|
  {
    var hd := s.handles[h];
    hd.pc.Loaded? && hd.readSet != [] ==>
      var r := Last(hd.readSet);
      || ReadOk(s.init, s.hist, hd.start, hd.log, r)
      || Doomed(s, r.loc.obj, h, hd.start)
      || LoadedFromPending(s, r, h, hd.start)
  }

  ghost predicate Loads(s: State) {
    forall h :: 0 <= h < |s.handles| ==> LoadOk(s, h)
  }

  ghost predicate Values(s: State) {
    forall h :: 0 <= h < |s.handles| ==> Chained(s, s.handles[h]) && Reads(s, s.handles[h])
  }

  // ----- queue order

  ghost predicate QueueOk(s: State) {
    && (forall p, q :: 0 <= p < q < |s.queue| ==> s.queue[p] != s.queue[q])
    && (forall p :: 0 <= p < |s.queue| ==> s.queue[p] < |s.hist| && !s.hist[s.queue[p]].status.Snapshot?)
    && (forall i :: 0 <= i < |s.hist| && s.hist[i].status.Committed? ==> i in s.queue)
    && (forall i :: i in s.ready ==> i in s.queue && !s.hist[i].status.Pending?)
    && s.done <= |s.queue|
    && (forall p :: 0 <= p < s.done ==> s.queue[p] in s.ready)
  }

  /** Record `i`, which read `o`, is queued before every later live writer of `o`. */
  ghost predicate ReaderFirst(hist: seq<Rec>, queue: seq<nat>, i: nat, o: nat) {
    forall p :: 0 <= p < |queue| && i < queue[p] < |hist| && Live(hist[queue[p]]) && Touches(hist[queue[p]].log, o) ==>
      i in queue[..p]
  }

  ghost predicate WritersFirst(hist: seq<Rec>, queue: seq<nat>, p: nat)
    requires p < |queue|
  {
    var j := queue[p];
    j < |hist| && Live(hist[j]) ==>
      && (forall i, o: nat :: 0 <= i < j && hist[i].status.Committed? && Touches(hist[i].log, o) && Touches(hist[j].log, o) ==>
            i in queue[..p])
      && (forall i, k ::
            (0 <= i < Upto(hist[j].start) && i < j && hist[i].status.Committed?
             && 0 <= k < |hist[j].readSet| && Touches(hist[i].log, hist[j].readSet[k].loc.obj)) ==> i in queue[..p])
  }

  ghost predicate Ordered(s: State) {
    forall p :: 0 <= p < |s.queue| ==> WritersFirst(s.hist, s.queue, p)
  }

  // ----- what is known about finished and validating records

  ghost predicate ValidatedRead(s: State, start: nat, i: nat, o: nat) {
    Quiet(s.hist, Upto(start), i, o) && ReaderFirst(s.hist, s.queue, i, o)
  }

  ghost predicate Validated(s: State, hd: Handle) {
    hd.pc.Validating? ==>
      forall k :: 0 <= k < hd.pc.next && k < |hd.readSet| ==> ValidatedRead(s, hd.start, hd.cur, hd.readSet[k].loc.obj)
  }

  ghost predicate Validation(s: State) {
    forall h :: 0 <= h < |s.handles| ==> Validated(s, s.handles[h])
  }

  ghost predicate RecOk(s: State, i: nat)
    requires i < |s.hist|
  {
    var r := s.hist[i];
    && (r.status.Committed? || r.status.Snapshot? ==>
          forall k :: 0 <= k < |r.readSet| ==> ReadOk(s.init, s.hist, r.start, r.log, r.readSet[k]))
    && (r.status.Committed? ==>
          forall k :: 0 <= k < |r.readSet| ==> ValidatedRead(s, r.start, i, r.readSet[k].loc.obj))
  }

  ghost predicate History(s: State) {
    forall i :: 0 <= i < |s.hist| ==> RecOk(s, i)
  }

  ghost predicate Inv(s: State) {
    && Clock(s) && LocksOk(s) && Handles(s) && Unposted(s) && Values(s) && Loads(s)
    && QueueOk(s) && Ordered(s) && Validation(s) && History(s)
  }
}
