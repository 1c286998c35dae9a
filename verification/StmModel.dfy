/** The transactional memory engine as an interleaved step system.

    N handles, the service thread and the dumping thread share a clock, lock
    words, memory and an output queue.  One `Step` is one atomic access to
    shared state together with the private bookkeeping around it.  A checked
    read is two steps (`Load`, then `Check`), a lock is two steps (`ReadLock`,
    then `Cas`), a commit is `CommitStamp`, `Push`, one `Validate` per read-set
    entry, `Decide`, one `Release` per lock, `Released` and `Post`. */
module StmModel {

  /** A memory word: attribute `attr` of object `obj`.  One lock guards each object. */
  datatype Loc = Loc(obj: nat, attr: nat)

  type Memory = m: imap<Loc, int> | forall l: Loc :: l in m
    ghost witness imap l: Loc :: 0

  /** A decoded lock word: an odd version, the handle that owns it, or the dumping thread. */
  datatype LockWord = Free(version: nat) | Held(owner: nat) | Dumping

  type Locks = m: imap<nat, LockWord> | forall o: nat :: o in m
    ghost witness imap o: nat :: Free(1)

  /** What a transaction log item means besides a plain write. */
  datatype Note = NodeAlloc(id: nat) | NodeDelete | BlockAlloc(block: nat, text: int) | BlockFree(freed: nat)

  datatype LogItem =
    | Wrote(loc: Loc, oldVal: int, newVal: int)
    | Noted(noteObj: nat, note: Note)
  {
    /** The object whose lock protects the item. */
    function Obj(): nat {
      if Wrote? then loc.obj else noteObj
    }
  }

  /** A read-set entry.  The source keeps only the lock address (`loc.obj`);
      the loaded value and the log length at the load are history. */
  datatype ReadEv = ReadEv(loc: Loc, val: int, at: nat)

  /** A nested transaction's bookmark. */
  datatype Mark = Mark(readSet: nat, log: nat)

  datatype Pc =
    | Idle
    | Running
    | Loaded                              // a value was loaded, its lock is not yet checked
    | Locking(obj: nat, seen: LockWord)   // the lock word passed the test, the CAS is next
    | Failed                              // a check or a lock failed
    | UndoNested                          // rolling back to the innermost bookmark
    | UndoMain                            // rolling back everything
    | Stamped                             // commit: clock taken, output slot not yet queued
    | Validating(next: nat)               // queued, read-set entries below `next` validated
    | Releasing(end: nat, committed: bool)
    | Building                            // locks released, the disk record is being built

  datatype Handle = Handle(
    start: nat,
    pc: Pc,
    readSet: seq<ReadEv>,
    good: nat,               // entries of readSet whose check has passed
    acquired: seq<nat>,
    log: seq<LogItem>,
    marks: seq<Mark>,
    cur: nat)                // index of this commit's record in the history

  /** One clock increment: a commit attempt, a read-only commit or an abort. */
  datatype Status = Pending | Committed | Rejected | Snapshot

  datatype Rec = Rec(owner: nat, start: nat, status: Status, readSet: seq<ReadEv>, log: seq<LogItem>)

  datatype DumpLock = NoDump | DumpHolds(obj: nat, version: nat)

  datatype State = State(
    time: nat,
    init: Memory,
    mem: Memory,
    locks: Locks,
    handles: seq<Handle>,
    hist: seq<Rec>,
    queue: seq<nat>,         // history indices of the queued output slots
    ready: set<nat>,         // slots whose `ready` semaphore was posted
    done: nat,               // slots the service thread has finished
    dumper: DumpLock)

  datatype Step =
    | Begin(h: nat) | NestedBegin(h: nat) | NestedCommit(h: nat)
    | NestedAbort(h: nat) | UndoNestedItem(h: nat) | NestedAborted(h: nat)
    | Load(h: nat, loc: Loc) | Check(h: nat)
    | ReadLock(h: nat, obj: nat) | Cas(h: nat)
    | WriteStep(h: nat, loc: Loc, val: int) | Annotate(h: nat, obj: nat, note: Note)
    | Abort(h: nat) | UndoItem(h: nat) | AbortStamp(h: nat)
    | CommitReadOnly(h: nat) | CommitStamp(h: nat) | Push(h: nat)
    | Validate(h: nat) | Decide(h: nat)
    | Release(h: nat) | Released(h: nat) | Post(h: nat)
    | DumpTake(obj: nat) | DumpRelease
    | Process

  const IDLE := Handle(0, Idle, [], 0, [], [], [], 0)

  /** The test shared by `l_lock` and `l_check`. */
  predicate Passes(w: LockWord, h: nat, start: nat) {
    match w
    case Free(v) => v <= start
    case Held(owner) => owner == h
    case Dumping => false
  }

  function Last<T>(s: seq<T>): T
    requires s != []
  {
    s[|s| - 1]
  }

  function DropLast<T>(s: seq<T>): seq<T>
    requires s != []
  {
    s[..|s| - 1]
  }

  ghost predicate Touches(log: seq<LogItem>, o: nat) {
    exists i :: 0 <= i < |log| && log[i].Obj() == o
  }

  /** Number of history records a clock value `t` covers: the clock is 1 + 2 * |hist|. */
  function Upto(t: nat): nat {
    if t == 0 then 0 else (t - 1) / 2
  }

  function EndTime(i: nat): nat {
    2 * i + 3
  }

  ghost predicate Init(s: State) {
    && s.time == 1
    && s.mem == s.init
    && (forall o: nat :: s.locks[o] == Free(1))
    && (forall h :: 0 <= h < |s.handles| ==> s.handles[h] == IDLE)
    && s.hist == [] && s.queue == [] && s.ready == {} && s.done == 0
    && s.dumper == NoDump
  }

  ghost predicate At(s: State, h: nat, pc: Pc) {
    h < |s.handles| && s.handles[h].pc == pc
  }

  ghost predicate Owns(s: State, h: nat, o: nat) {
    s.locks[o] == Held(h)
  }

  ghost predicate Enabled(s: State, step: Step) {
    match step
    case Begin(h) => At(s, h, Idle)
    case NestedBegin(h) => At(s, h, Running)
    case NestedCommit(h) => At(s, h, Running) && s.handles[h].marks != []
    case NestedAbort(h) => (At(s, h, Running) || At(s, h, Failed)) && s.handles[h].marks != []
    case UndoNestedItem(h) =>
      At(s, h, UndoNested) && s.handles[h].marks != [] && |s.handles[h].log| > Last(s.handles[h].marks).log
    case NestedAborted(h) =>
      At(s, h, UndoNested) && s.handles[h].marks != [] && |s.handles[h].log| <= Last(s.handles[h].marks).log
    case Load(h, _) => At(s, h, Running)
    case Check(h) => At(s, h, Loaded) && s.handles[h].readSet != []
    case ReadLock(h, _) => At(s, h, Running)
    case Cas(h) => h < |s.handles| && s.handles[h].pc.Locking?
    case WriteStep(h, loc, _) => At(s, h, Running) && Owns(s, h, loc.obj)
    case Annotate(h, o, _) => At(s, h, Running) && Owns(s, h, o)
    case Abort(h) => At(s, h, Running) || At(s, h, Failed)
    case UndoItem(h) => At(s, h, UndoMain) && s.handles[h].log != []
    case AbortStamp(h) => At(s, h, UndoMain) && s.handles[h].log == []
    case CommitReadOnly(h) => At(s, h, Running) && s.handles[h].marks == [] && s.handles[h].log == []
    case CommitStamp(h) => At(s, h, Running) && s.handles[h].marks == [] && s.handles[h].log != []
    case Push(h) => At(s, h, Stamped)
    case Validate(h) =>
      h < |s.handles| && s.handles[h].pc.Validating? && s.handles[h].pc.next < |s.handles[h].readSet|
      && s.handles[h].cur < |s.hist|
    case Decide(h) =>
      h < |s.handles| && s.handles[h].pc.Validating? && s.handles[h].pc.next >= |s.handles[h].readSet|
      && s.handles[h].cur < |s.hist|
    case Release(h) => h < |s.handles| && s.handles[h].pc.Releasing? && s.handles[h].acquired != []
    case Released(h) => h < |s.handles| && s.handles[h].pc.Releasing? && s.handles[h].acquired == []
    case Post(h) => At(s, h, Building)
    case DumpTake(o) => s.dumper.NoDump? && s.locks[o].Free?
    case DumpRelease => s.dumper.DumpHolds?
    case Process => s.done < |s.queue| && s.queue[s.done] in s.ready
  }

  /** Memory after undoing the newest log item. */
  ghost function UndoLast(mem: Memory, log: seq<LogItem>): Memory
    requires log != []
  {
    var item := Last(log);
    if item.Wrote? then mem[item.loc := item.oldVal] else mem
  }

  /** The step's effect on the handle alone; shared parts are updated in `Do`. */
  ghost function DoHandle(s: State, step: Step): Handle
    requires Enabled(s, step) && HandleStep(step)
  {
    var h := step.h;
    var hd := s.handles[h];
    match step
    case Begin(_) => IDLE.(start := s.time, pc := Running)
    case NestedBegin(_) => hd.(marks := hd.marks + [Mark(|hd.readSet|, |hd.log|)])
    case NestedCommit(_) => hd.(marks := DropLast(hd.marks))
    case NestedAbort(_) =>
      var n := Last(hd.marks).readSet;
      if n <= |hd.readSet| then hd.(pc := UndoNested, readSet := hd.readSet[..n], good := n)
      else hd.(pc := UndoNested)
    case UndoNestedItem(_) => hd.(log := DropLast(hd.log))
    case NestedAborted(_) => hd.(pc := Running, marks := DropLast(hd.marks))
    case Load(_, loc) => hd.(pc := Loaded, readSet := hd.readSet + [ReadEv(loc, s.mem[loc], |hd.log|)])
    case Check(_) =>
      if Passes(s.locks[Last(hd.readSet).loc.obj], h, hd.start)
      then hd.(pc := Running, good := |hd.readSet|)
      else hd.(pc := Failed)
    case ReadLock(_, o) =>
      if Passes(s.locks[o], h, hd.start) then hd.(pc := Locking(o, s.locks[o])) else hd.(pc := Failed)
    case Cas(_) =>
      if Acquires(s, h) then hd.(pc := Running, acquired := hd.acquired + [hd.pc.obj]) else hd.(pc := Running)
    case WriteStep(_, loc, val) => hd.(log := hd.log + [Wrote(loc, s.mem[loc], val)])
    case Annotate(_, o, note) => hd.(log := hd.log + [Noted(o, note)])
    case Abort(_) => hd.(pc := UndoMain, readSet := [], good := 0, marks := [])
    case UndoItem(_) => hd.(log := DropLast(hd.log))
    case AbortStamp(_) => hd.(pc := Releasing(s.time + 2, false))
    case CommitReadOnly(_) => hd.(pc := Releasing(s.time + 2, false))
    case CommitStamp(_) => hd.(pc := Stamped, cur := |s.hist|)
    case Push(_) => hd.(pc := Validating(0))
    case Validate(_) =>
      if Validates(s, h) then hd.(pc := Validating(hd.pc.next + 1))
      else hd.(pc := UndoMain, readSet := [], good := 0, marks := [])
    case Decide(_) => hd.(pc := Releasing(EndTime(hd.cur), true))
    case Release(_) => hd.(acquired := DropLast(hd.acquired))
    case Released(_) => if hd.pc.committed then hd.(pc := Building) else IDLE
    case Post(_) => IDLE
  }

  ghost function SetStatus(hist: seq<Rec>, i: nat, status: Status): seq<Rec>
    requires i < |hist|
  {
    hist[i := hist[i].(status := status)]
  }

  ghost predicate HandleStep(step: Step) {
    !step.DumpTake? && !step.DumpRelease? && !step.Process?
  }

  ghost function NewMem(s: State, step: Step): Memory
    requires Enabled(s, step)
  {
    match step
    case WriteStep(_, loc, val) => s.mem[loc := val]
    case UndoNestedItem(h) => UndoLast(s.mem, s.handles[h].log)
    case UndoItem(h) => UndoLast(s.mem, s.handles[h].log)
    case _ => s.mem
  }

  /** Whether the CAS finds the word it has read; only a free word changes hands. */
  ghost predicate Acquires(s: State, h: nat)
    requires h < |s.handles| && s.handles[h].pc.Locking?
  {
    var pc := s.handles[h].pc;
    s.locks[pc.obj] == pc.seen && pc.seen.Free?
  }

  ghost function NewLocks(s: State, step: Step): Locks
    requires Enabled(s, step)
  {
    match step
    case Cas(h) => if Acquires(s, h) then s.locks[s.handles[h].pc.obj := Held(h)] else s.locks
    case Release(h) => s.locks[Last(s.handles[h].acquired) := Free(s.handles[h].pc.end)]
    case DumpTake(o) => s.locks[o := Dumping]
    case DumpRelease => s.locks[s.dumper.obj := Free(s.dumper.version)]
    case _ => s.locks
  }

  /** Whether the next read-set entry of a committing handle passes validation. */
  ghost predicate Validates(s: State, h: nat)
    requires Enabled(s, Validate(h))
  {
    var hd := s.handles[h];
    Passes(s.locks[hd.readSet[hd.pc.next].loc.obj], h, hd.start)
  }

  ghost function NewHist(s: State, step: Step): seq<Rec>
    requires Enabled(s, step)
  {
    match step
    case AbortStamp(h) => s.hist + [Rec(h, s.handles[h].start, Rejected, [], [])]
    case CommitReadOnly(h) => s.hist + [Rec(h, s.handles[h].start, Snapshot, s.handles[h].readSet, [])]
    case CommitStamp(h) => s.hist + [Rec(h, s.handles[h].start, Pending, s.handles[h].readSet, s.handles[h].log)]
    case Validate(h) => if Validates(s, h) then s.hist else SetStatus(s.hist, s.handles[h].cur, Rejected)
    case Decide(h) => SetStatus(s.hist, s.handles[h].cur, Committed)
    case _ => s.hist
  }

  ghost function NewReady(s: State, step: Step): set<nat>
    requires Enabled(s, step)
  {
    match step
    case Validate(h) => if Validates(s, h) then s.ready else s.ready + {s.handles[h].cur}
    case Post(h) => s.ready + {s.handles[h].cur}
    case _ => s.ready
  }

  ghost function NewDumper(s: State, step: Step): DumpLock
    requires Enabled(s, step)
  {
    match step
    case DumpTake(o) => DumpHolds(o, s.locks[o].version)
    case DumpRelease => NoDump
    case _ => s.dumper
  }

  ghost function Do(s: State, step: Step): State
    requires Enabled(s, step)
  {
    State(
      if step.AbortStamp? || step.CommitReadOnly? || step.CommitStamp? then s.time + 2 else s.time,
      s.init,
      NewMem(s, step),
      NewLocks(s, step),
      if HandleStep(step) then s.handles[step.h := DoHandle(s, step)] else s.handles,
      NewHist(s, step),
      if step.Push? then s.queue + [s.handles[step.h].cur] else s.queue,
      NewReady(s, step),
      if step.Process? then s.done + 1 else s.done,
      NewDumper(s, step))
  }

  ghost predicate Next(s: State, s': State) {
    exists step :: Enabled(s, step) && s' == Do(s, step)
  }

  ghost predicate StepAt(run: seq<State>, i: nat)
    requires i < |run| - 1
  {
    Next(run[i], run[i + 1])
  }

  ghost predicate Run(run: seq<State>) {
    && run != []
    && Init(run[0])
    && forall i :: 0 <= i < |run| - 1 ==> StepAt(run, i)
  }

  /** The value a log leaves at `loc` when it starts from `before`. */
  function ApplyAt(log: seq<LogItem>, loc: Loc, before: int): int {
    if log == [] then before
    else if Last(log).Wrote? && Last(log).loc == loc then Last(log).newVal
    else ApplyAt(DropLast(log), loc, before)
  }

  /** The value at `loc` after the committed transactions among the first `k` clock increments. */
  ghost function ValueAt(init: Memory, hist: seq<Rec>, k: nat, loc: Loc): int
    requires k <= |hist|
  {
    if k == 0 then init[loc]
    else if hist[k - 1].status.Committed? then ApplyAt(hist[k - 1].log, loc, ValueAt(init, hist, k - 1, loc))
    else ValueAt(init, hist, k - 1, loc)
  }
}
