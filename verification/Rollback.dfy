/** Nested transactions of one handle and their rollback.

    `Do` is the meaning of each operation of a handle on the state it can change:
    the memory its locks protect, its read set, its log and its bookmarks.  The
    theorems say that `tr_abort` undoes everything since the matching `tr_begin`,
    at any depth and whatever inner transactions committed.  The class below works
    on the block stack, with bookmarks that are addresses, and refines `Do`. */
module Rollback {
  import opened FastStacks

  datatype CommitType = Async | Sync | ForceAsync

  /** Attribute `attr` of object `obj`. */
  datatype Cell = Cell(obj: nat, attr: nat)

  datatype LogItem =
    | Modify(cell: Cell, oldVal: int, newVal: int)
    | NodeAlloc(node: nat)
    | NodeDelete(deleted: nat)
    | MemoryAlloc(block: nat)
    | MemoryDelete(freed: nat)

  /** The shared state under this handle's locks: cells of live objects, ids of live nodes,
      blocks of the transactional allocator. */
  datatype World = World(cells: map<Cell, int>, ids: map<nat, nat>, blocks: set<nat>)

  /** A bookmark: sizes of the read set and the log, and the commit type, at `tr_begin`. */
  datatype Mark = Mark(readSet: nat, log: nat, commitType: CommitType)

  datatype State = State(
    world: World,
    start: nat,                // 0 when no transaction runs
    readSet: seq<nat>,
    acquired: seq<nat>,
    log: seq<LogItem>,
    marks: seq<Mark>,
    commitType: CommitType)

  datatype Op =
    | Begin(time: nat)
    | Read(lock: nat)
    | Lock(taken: nat)                    // a lock that was free and is now held
    | Write(cell: Cell, val: int)
    | Create(node: nat, id: nat, attrs: map<Cell, int>)
    | Delete(doomed: nat)
    | Alloc(block: nat)
    | Free(freed: nat)
    | Commit(kind: CommitType, valid: bool)  // `valid`: the read set passes validation
    | Abort

  /** What the code relies on: writes go to live objects, allocators hand out what is not in
      use, and a main transaction starts at a clock value, which is never 0. */
  predicate Legal(s: State, op: Op) {
    match op
    case Begin(time) => s.start == 0 ==> time > 0
    case Write(cell, _) => s.start > 0 && cell in s.world.cells
    case Create(node, id, attrs) =>
      && s.start > 0 && node !in s.world.ids
      && (forall c :: c in attrs ==> c.obj == node) && (forall c :: c in s.world.cells ==> c.obj != node)
    case Alloc(b) => s.start > 0 && b !in s.world.blocks
    case _ => s.start > 0
  }

  function UndoItem(w: World, item: LogItem): World {
    match item
    case Modify(cell, oldVal, _) => w.(cells := w.cells[cell := oldVal])
    case NodeAlloc(node) => w.(cells := map c | c in w.cells && c.obj != node :: w.cells[c], ids := w.ids - {node})
    case MemoryAlloc(b) => w.(blocks := w.blocks - {b})
    case NodeDelete(_) => w
    case MemoryDelete(_) => w
  }

  /** Undoes the log from its newest item down to its first `n` items. */
  function UndoTo(w: World, log: seq<LogItem>, n: nat): World
    decreases |log|
  {
    if |log| <= n then w else UndoTo(UndoItem(w, log[|log| - 1]), log[..|log| - 1], n)
  }

  function RollTo(s: State, m: Mark): State {
    s.(world := UndoTo(s.world, s.log, m.log),
       readSet := if m.readSet <= |s.readSet| then s.readSet[..m.readSet] else s.readSet,
       log := if m.log <= |s.log| then s.log[..m.log] else s.log,
       commitType := m.commitType)
  }

  /** The type of a main commit: an asynchronous one leaves it to the inner commits. */
  function Resolved(commitType: CommitType, kind: CommitType): CommitType {
    if kind == Async then commitType else kind
  }

  function Idle(w: World): State {
    State(w, 0, [], [], [], [], Async)
  }

  const BOTTOM := Mark(0, 0, Async)

  function Do(s: State, op: Op): State
    requires Legal(s, op)
  {
    match op
    case Begin(time) =>
      if s.start > 0 then s.(marks := s.marks + [Mark(|s.readSet|, |s.log|, s.commitType)]) else s.(start := time)
    case Read(lock) => s.(readSet := s.readSet + [lock])
    case Lock(lock) => s.(acquired := s.acquired + [lock])
    case Write(cell, val) =>
      s.(world := s.world.(cells := s.world.cells[cell := val]),
         log := s.log + [Modify(cell, s.world.cells[cell], val)])
    case Create(node, id, attrs) =>
      s.(world := s.world.(cells := s.world.cells + attrs, ids := s.world.ids[node := id]),
         log := s.log + [NodeAlloc(node)])
    case Delete(node) => s.(log := s.log + [NodeDelete(node)])
    case Alloc(b) => s.(world := s.world.(blocks := s.world.blocks + {b}), log := s.log + [MemoryAlloc(b)])
    case Free(b) => s.(log := s.log + [MemoryDelete(b)])
    case Commit(kind, valid) =>
      if s.marks == [] then
        if s.log == [] || valid then Idle(s.world) else Idle(RollTo(s, BOTTOM).world)
      else
        s.(marks := s.marks[..|s.marks| - 1],
           commitType := match kind case Sync => Sync case ForceAsync => Async case Async => s.commitType)
    case Abort =>
      if s.marks == [] then Idle(RollTo(s, BOTTOM).world)
      else RollTo(s, s.marks[|s.marks| - 1]).(marks := s.marks[..|s.marks| - 1])
  }

  /** `ops` can run from `s`, one after the other. */
  predicate Runs(s: State, ops: seq<Op>)
    decreases |ops|, 0
  {
    ops == [] || (Runs(s, ops[..|ops| - 1]) && Legal(RunAll(s, ops[..|ops| - 1]), ops[|ops| - 1]))
  }

  function RunAll(s: State, ops: seq<Op>): State
    requires Runs(s, ops)
    decreases |ops|, 1
  {
    if ops == [] then s else Do(RunAll(s, ops[..|ops| - 1]), ops[|ops| - 1])
  }

  /** The nesting depth after `ops`, or -1 when they close more than they open. */
  function Depth(ops: seq<Op>): int {
    if ops == [] then 0
    else
      var d := Depth(ops[..|ops| - 1]);
      if d < 0 then -1
      else match ops[|ops| - 1]
        case Begin(_) => d + 1
        case Commit(_, _) => d - 1
        case Abort => d - 1
        case _ => d
  }

  // ----- what holds inside a transaction

  ghost predicate MarksBetween(s: State, lowest: Mark, from: nat) {
    && (forall i :: from <= i < |s.marks| ==>
          && lowest.log <= s.marks[i].log <= |s.log| && lowest.readSet <= s.marks[i].readSet <= |s.readSet|)
    && (forall i, j :: from <= i < j < |s.marks| ==>
          s.marks[i].log <= s.marks[j].log && s.marks[i].readSet <= s.marks[j].readSet)
  }

  /** `s` is inside a nested transaction that began in `base`, `d` levels further down. */
  ghost predicate Inside(base: State, s: State, d: nat) {
    && s.start == base.start > 0
    && |s.marks| == |base.marks| + 1 + d
    && s.marks[..|base.marks|] == base.marks
    && s.marks[|base.marks|] == Mark(|base.readSet|, |base.log|, base.commitType)
    && MarksBetween(s, s.marks[|base.marks|], |base.marks|)
    && base.readSet <= s.readSet && base.log <= s.log && base.acquired <= s.acquired
    && UndoTo(s.world, s.log, |base.log|) == base.world
  }

  /** Undoing an item right after its operation gives the world before it. */
  lemma UndoUndoes(s: State, op: Op)
    requires Legal(s, op) && |Do(s, op).log| == |s.log| + 1
    ensures Do(s, op).log == s.log + [Do(s, op).log[|s.log|]]
    ensures UndoItem(Do(s, op).world, Do(s, op).log[|s.log|]) == s.world
  {
    match op
    case Begin(_) => assert false;
    case Read(_) => assert false;
    case Lock(_) => assert false;
    case Commit(_, _) =>
      assert false;
    case Abort =>
      assert false;
    case Write(cell, val) =>
      assert s.world.cells[cell := val][cell := s.world.cells[cell]] == s.world.cells;
    case Create(node, id, attrs) =>
      assert s.world.ids[node := id] - {node} == s.world.ids;
      var cells := s.world.cells + attrs;
      assert (map c | c in cells && c.obj != node :: cells[c]) == s.world.cells;
    case Alloc(b) => assert s.world.blocks + {b} - {b} == s.world.blocks;
    case Delete(_) =>
    case Free(_) =>
  }

  /** Rolling back in two stages is rolling back at once. */
  lemma {:induction false} UndoStages(w: World, log: seq<LogItem>, n: nat, m: nat)
    requires m <= n <= |log|
    ensures UndoTo(UndoTo(w, log, n), log[..n], m) == UndoTo(w, log, m)
    decreases |log|
  {
    if |log| > n {
      var rest := log[..|log| - 1];
      UndoStages(UndoItem(w, log[|log| - 1]), rest, n, m);
      assert rest[..n] == log[..n];
    } else {
      assert log[..n] == log;
    }
  }

  lemma UndoGrown(s: State, op: Op, n: nat)
    requires Legal(s, op) && |Do(s, op).log| == |s.log| + 1 && n <= |s.log|
    ensures UndoTo(Do(s, op).world, Do(s, op).log, n) == UndoTo(s.world, s.log, n)
  {
    UndoUndoes(s, op);
    assert Do(s, op).log[..|s.log|] == s.log;
  }

  /** Operations that neither open nor close a transaction. */
  lemma PlainInside(base: State, s: State, d: nat, op: Op)
    requires Inside(base, s, d) && Legal(s, op) && !op.Begin? && !op.Commit? && !op.Abort?
    ensures Inside(base, Do(s, op), d)
  {
    if |Do(s, op).log| == |s.log| + 1 {
      UndoGrown(s, op, |base.log|);
    }
  }

  lemma AbortInside(base: State, s: State, d: nat)
    requires Inside(base, s, d) && d > 0
    ensures Inside(base, Do(s, Abort), d - 1)
  {
    var m := s.marks[|s.marks| - 1];
    UndoStages(s.world, s.log, m.log, |base.log|);
    var s' := Do(s, Abort);
    forall i | |base.marks| <= i < |s'.marks| ensures s'.marks[i] == s.marks[i] && s.marks[i].log <= m.log {
    }
  }

  lemma StepInside(base: State, s: State, d: nat, op: Op)
    requires Inside(base, s, d) && Legal(s, op)
    requires (op.Commit? || op.Abort?) ==> d > 0
    ensures Inside(base, Do(s, op), if op.Begin? then d + 1 else if op.Commit? || op.Abort? then d - 1 else d)
  {
    match op
    case Begin(_) =>
    case Commit(_, _) =>
    case Abort => AbortInside(base, s, d);
    case _ => PlainInside(base, s, d, op);
  }

  lemma {:induction false} BodyInside(base: State, s: State, ops: seq<Op>)
    requires Inside(base, s, 0) && Runs(s, ops) && Depth(ops) >= 0
    ensures Inside(base, RunAll(s, ops), Depth(ops))
  {
    if ops != [] {
      BodyInside(base, s, ops[..|ops| - 1]);
      StepInside(base, RunAll(s, ops[..|ops| - 1]), Depth(ops[..|ops| - 1]), ops[|ops| - 1]);
    }
  }

  /** `tr_abort` of a nested transaction: whatever well-bracketed operations ran since its
      `tr_begin`, including inner transactions that committed, the world, the read set, the
      log, the bookmarks and the commit type are back.  Locks are kept. */
  lemma NestedAbortRestores(base: State, time: nat, body: seq<Op>)
    requires base.start > 0
    requires Runs(Do(base, Begin(time)), body) && Depth(body) == 0
    ensures var s := RunAll(Do(base, Begin(time)), body);
            && Legal(s, Abort)
            && Do(s, Abort) == base.(acquired := s.acquired) && base.acquired <= s.acquired
  {
    var s0 := Do(base, Begin(time));
    assert UndoTo(s0.world, s0.log, |base.log|) == base.world;
    BodyInside(base, s0, body);
    var s := RunAll(s0, body);
    assert Do(s, Abort).log == base.log;
    assert Do(s, Abort).readSet == base.readSet;
    assert Do(s, Abort).marks == base.marks;
  }

  // ----- the main transaction

  /** `s` is inside a main transaction begun in world `w`, `d` levels further down. */
  ghost predicate InMain(w: World, s: State, d: nat) {
    && s.start > 0 && |s.marks| == d
    && MarksBetween(s, BOTTOM, 0)
    && UndoTo(s.world, s.log, 0) == w
  }

  lemma StepInMain(w: World, s: State, d: nat, op: Op)
    requires InMain(w, s, d) && Legal(s, op)
    requires (op.Commit? || op.Abort?) ==> d > 0
    ensures InMain(w, Do(s, op), if op.Begin? then d + 1 else if op.Commit? || op.Abort? then d - 1 else d)
  {
    match op
    case Begin(_) =>
    case Commit(_, _) =>
    case Abort =>
      var m := s.marks[|s.marks| - 1];
      UndoStages(s.world, s.log, m.log, 0);
    case _ => PlainInMain(w, s, d, op);
  }

  lemma {:induction false} BodyInMain(w: World, s: State, ops: seq<Op>)
    requires InMain(w, s, 0) && Runs(s, ops) && Depth(ops) >= 0
    ensures InMain(w, RunAll(s, ops), Depth(ops))
  {
    if ops != [] {
      BodyInMain(w, s, ops[..|ops| - 1]);
      StepInMain(w, RunAll(s, ops[..|ops| - 1]), Depth(ops[..|ops| - 1]), ops[|ops| - 1]);
    }
  }

  lemma PlainInMain(w: World, s: State, d: nat, op: Op)
    requires InMain(w, s, d) && Legal(s, op) && !op.Begin? && !op.Commit? && !op.Abort?
    ensures InMain(w, Do(s, op), d)
  {
    if |Do(s, op).log| == |s.log| + 1 {
      UndoGrown(s, op, 0);
    }
  }

  /** A main transaction that aborts, or whose commit fails validation, leaves the world as it
      found it and the handle clean; one that commits keeps its world. */
  lemma MainAbortRestores(w: World, time: nat, body: seq<Op>, kind: CommitType)
    requires time > 0 && Runs(Do(Idle(w), Begin(time)), body) && Depth(body) == 0
    ensures var s := RunAll(Do(Idle(w), Begin(time)), body);
            && Legal(s, Abort) && Do(s, Abort) == Idle(w)
            && Do(s, Commit(kind, false)) == Idle(w)
            && Do(s, Commit(kind, true)) == Idle(s.world)
  {
    var s0 := Do(Idle(w), Begin(time));
    BodyInMain(w, s0, body);
  }

  // ----- the handle

  lemma MarkPushed(s: State)
    requires MarksBetween(s, BOTTOM, 0)
    ensures MarksBetween(s.(marks := s.marks + [Mark(|s.readSet|, |s.log|, s.commitType)]), BOTTOM, 0)
  {
  }

  datatype Option<T> = None | Some(value: T)

  /** A nested transaction: its bookmark in the log is the address of the newest item. */
  datatype Transaction = Transaction(
    readSetSize: nat,
    acquiredLocks: nat,      // recorded, never read
    pos: Option<Address<LogItem>>,
    savedType: CommitType)

  /** The transaction's recorded fields stand for the mark. */
  ghost predicate IsBookmark(log: FastStack<LogItem>, tr: Transaction, m: Mark)
    reads log
  {
    && m.log <= |log.addresses|
    && tr.readSetSize == m.readSet && tr.savedType == m.commitType
    && tr.pos == (if m.log == 0 then None else Some(log.addresses[m.log - 1]))
  }

  class Handle {
    var startTime: nat
    var readSet: seq<nat>
    var acquired: seq<nat>
    var transactions: seq<Transaction>
    const log: FastStack<LogItem>
    var commitType: CommitType
    var world: World            // shared; this handle changes it only under its locks
    ghost var marks: seq<Mark>

    ghost function View(): State
      reads this, log
    {
      State(world, startTime, readSet, acquired, log.contents, marks, commitType)
    }

    ghost predicate Valid()
      reads this, log, log.Repr
    {
      && log.Valid() && this !in log.Repr
      && |marks| == |transactions|
      && (startTime == 0 ==> log.contents == [] && marks == [])
      && MarksBetween(View(), BOTTOM, 0)
      && forall i :: 0 <= i < |transactions| ==> IsBookmark(log, transactions[i], marks[i])
    }

    constructor (w: World, blockSize: nat)
      requires blockSize > 0
      ensures Valid() && fresh(log.Repr) && View() == Idle(w)
    {
      startTime, readSet, acquired, transactions, commitType, world := 0, [], [], [], Async, w;
      marks := [];
      log := new FastStack(blockSize);
    }

    /** The bookmark of the current log: null when it is empty. */
    method Position() returns (pos: Option<Address<LogItem>>)
      requires log.Valid()
      ensures pos == (if log.contents == [] then None else Some(log.addresses[|log.contents| - 1]))
    {
      pos := None;
      if !log.Empty() {
        var top := log.Top();
        pos := Some(top);
      }
    }

    /** Pushes a bookmark. */
    method BeginNested()
      requires Valid() && startTime > 0
      modifies this
      ensures Valid()
      ensures View() == old(View()).(marks := old(marks) + [Mark(|readSet|, |log.contents|, commitType)])
    {
      var pos := Position();
      MarkPushed(View());
      transactions := transactions + [Transaction(|readSet|, |acquired|, pos, commitType)];
      marks := marks + [Mark(|readSet|, |log.contents|, commitType)];
    }

    method Begin(time: nat)
      requires Valid() && Legal(View(), Op.Begin(time))
      modifies this
      ensures Valid() && View() == Do(old(View()), Op.Begin(time))
    {
      if startTime > 0 {
        BeginNested();
      } else {
        startTime := time;
      }
    }

    method Read(lock: nat)
      requires Valid() && startTime > 0
      modifies this
      ensures Valid() && View() == Do(old(View()), Op.Read(lock))
    {
      readSet := readSet + [lock];
    }

    method Lock(lock: nat)
      requires Valid() && startTime > 0
      modifies this
      ensures Valid() && View() == Do(old(View()), Op.Lock(lock))
    {
      acquired := acquired + [lock];
    }

    /** Pushes a log item; bookmarks keep their addresses. */
    method Push(item: LogItem)
      requires Valid() && startTime > 0
      modifies log.Repr
      ensures Valid() && fresh(log.Repr - old(log.Repr))
      ensures log.contents == old(log.contents) + [item]
    {
      log.Push(item);
    }

    method Write(cell: Cell, val: int)
      requires Valid() && Legal(View(), Op.Write(cell, val))
      modifies this, log.Repr
      ensures Valid() && fresh(log.Repr - old(log.Repr)) && View() == Do(old(View()), Op.Write(cell, val))
    {
      var oldVal := world.cells[cell];
      Push(Modify(cell, oldVal, val));
      Set(world.(cells := world.cells[cell := val]));
    }

    /** Changes shared memory only. */
    method Set(w: World)
      requires Valid()
      modifies `world
      ensures Valid() && world == w
    {
      world := w;
    }

    method Create(node: nat, id: nat, attrs: map<Cell, int>)
      requires Valid() && Legal(View(), Op.Create(node, id, attrs))
      modifies this, log.Repr
      ensures Valid() && fresh(log.Repr - old(log.Repr)) && View() == Do(old(View()), Op.Create(node, id, attrs))
    {
      Set(world.(cells := world.cells + attrs, ids := world.ids[node := id]));
      Push(NodeAlloc(node));
    }

    method Delete(node: nat)
      requires Valid() && startTime > 0
      modifies log.Repr
      ensures Valid() && fresh(log.Repr - old(log.Repr)) && View() == Do(old(View()), Op.Delete(node))
    {
      Push(NodeDelete(node));
    }

    method Alloc(block: nat)
      requires Valid() && Legal(View(), Op.Alloc(block))
      modifies this, log.Repr
      ensures Valid() && fresh(log.Repr - old(log.Repr)) && View() == Do(old(View()), Op.Alloc(block))
    {
      Set(world.(blocks := world.blocks + {block}));
      Push(MemoryAlloc(block));
    }

    method Free(block: nat)
      requires Valid() && startTime > 0
      modifies log.Repr
      ensures Valid() && fresh(log.Repr - old(log.Repr)) && View() == Do(old(View()), Op.Free(block))
    {
      Push(MemoryDelete(block));
    }

    method Undo(item: LogItem)
      modifies `world
      ensures world == UndoItem(old(world), item)
    {
      match item
      case Modify(cell, oldVal, _) => world := world.(cells := world.cells[cell := oldVal]);
      case NodeAlloc(node) =>
        world := world.(cells := map c | c in world.cells && c.obj != node :: world.cells[c], ids := world.ids - {node});
      case MemoryAlloc(b) => world := world.(blocks := world.blocks - {b});
      case NodeDelete(_) =>
      case MemoryDelete(_) =>
    }

    /** Undoes the newest log item. */
    method UndoTop(ghost n: nat)
      requires log.Valid() && this !in log.Repr && n < |log.contents|
      modifies `world, log
      ensures log.Valid() && log.Repr == old(log.Repr)
      ensures log.contents == old(log.contents)[..|old(log.contents)| - 1]
      ensures log.addresses <= old(log.addresses)
      ensures UndoTo(world, log.contents, n) == UndoTo(old(world), old(log.contents), n)
    {
      var top := log.Top();
      Undo(top.page[top.slot]);
      log.Pop();
    }

    /** Undoes the newest log item and finds the new top; item `n - 1` is still there. */
    method UndoAndTop(ghost n: nat, ghost pos: Address<LogItem>) returns (top: Address<LogItem>)
      requires log.Valid() && this !in log.Repr && 0 < n < |log.contents| && pos == log.addresses[n - 1]
      modifies `world, log
      ensures log.Valid() && log.Repr == old(log.Repr)
      ensures log.contents == old(log.contents)[..|old(log.contents)| - 1]
      ensures log.addresses <= old(log.addresses) && pos == log.addresses[n - 1]
      ensures top == pos <==> |log.contents| == n
      ensures UndoTo(world, log.contents, n) == UndoTo(old(world), old(log.contents), n)
    {
      UndoTop(n);
      top := log.Top();
      Reached(n);
    }

    /** Pops the log until its top has the given address, which is that of item `n - 1`. */
    method UndoUntil(pos: Address<LogItem>, ghost n: nat)
      requires log.Valid() && this !in log.Repr
      requires 0 < n <= |log.contents| && n <= |log.addresses| && pos == log.addresses[n - 1]
      modifies `world, log
      ensures log.Valid() && log.Repr == old(log.Repr)
      ensures log.contents == old(log.contents)[..n]
      ensures log.addresses <= old(log.addresses)
      ensures world == UndoTo(old(world), old(log.contents), n)
    {
      ghost var target := UndoTo(world, log.contents, n);
      var top := log.Top();
      Reached(n);
      while top != pos
        invariant log.Valid() && log.Repr == old(log.Repr) && n <= |log.contents|
        invariant log.contents <= old(log.contents) && log.addresses <= old(log.addresses)
        invariant top == pos <==> |log.contents| == n
        invariant UndoTo(world, log.contents, n) == target
        decreases |log.contents|
      {
        top := UndoAndTop(n, pos);
      }
    }

    /** The top has the address of item `n - 1` exactly when `n` items are left. */
    lemma Reached(n: nat)
      requires log.Valid() && 0 < n <= |log.contents|
      ensures log.addresses[|log.contents| - 1] == log.addresses[n - 1] <==> |log.contents| == n
    {
      if log.addresses[|log.contents| - 1] == log.addresses[n - 1] {
        log.Distinct(|log.contents| - 1, n - 1);
      }
    }

    /** Pops the whole log. */
    method UndoAll()
      requires log.Valid() && this !in log.Repr
      modifies `world, log
      ensures log.Valid() && log.Repr == old(log.Repr) && log.contents == []
      ensures world == UndoTo(old(world), old(log.contents), 0)
    {
      while !log.Empty()
        invariant log.Valid() && log.Repr == old(log.Repr)
        invariant UndoTo(world, log.contents, 0) == UndoTo(old(world), old(log.contents), 0)
        decreases |log.contents|
      {
        UndoTop(0);
      }
    }

    /** `_tr_handle_rollback`: a null position undoes the whole log. */
    method Rollback(tr: Transaction, ghost m: Mark)
      requires log.Valid() && this !in log.Repr
      requires IsBookmark(log, tr, m) && m.readSet <= |readSet|
      modifies `readSet, `commitType, `world, log
      ensures log.Valid() && log.Repr == old(log.Repr)
      ensures log.contents <= old(log.contents)
      ensures log.addresses <= old(log.addresses)
      ensures View() == RollTo(old(View()), m)
    {
      readSet := readSet[..tr.readSetSize];
      if tr.pos.Some? {
        UndoUntil(tr.pos.value, m.log);
      } else {
        UndoAll();
      }
      commitType := tr.savedType;
    }

    /** `_tr_abort_main`, after which the handle is clean. */
    method AbortMain()
      requires Valid()
      modifies this, log
      ensures Valid() && log.Repr == old(log.Repr)
      ensures View() == Idle(RollTo(old(View()), BOTTOM).world)
    {
      Rollback(Transaction(0, 0, None, Async), BOTTOM);
      Cleanup();
    }

    /** Unlocking everything and `handle_cleanup`. */
    method Cleanup()
      requires log.Valid() && this !in log.Repr
      modifies this, log
      ensures Valid() && log.Repr == old(log.Repr) && View() == Idle(old(world))
    {
      startTime, readSet, acquired, transactions, commitType := 0, [], [], [], Async;
      marks := [];
      log.Erase();
    }

    method Abort()
      requires Valid() && startTime > 0
      modifies this, log
      ensures Valid() && log.Repr == old(log.Repr) && View() == Do(old(View()), Op.Abort)
    {
      if |transactions| == 0 {
        AbortMain();
      } else {
        RollbackNested();
        DropBookmark();
      }
    }

    /** Rolls back to the innermost bookmark, which stays for now. */
    method RollbackNested()
      requires Valid() && |transactions| > 0
      modifies `readSet, `commitType, `world, log
      ensures Valid() && log.Repr == old(log.Repr) && View() == RollTo(old(View()), marks[|marks| - 1])
    {
      Rollback(transactions[|transactions| - 1], marks[|marks| - 1]);
    }

    method DropBookmark()
      requires Valid() && |transactions| > 0
      modifies `transactions, `marks
      ensures Valid() && View() == old(View()).(marks := old(marks)[..|old(marks)| - 1])
    {
      transactions, marks := transactions[..|transactions| - 1], marks[..|marks| - 1];
    }

    /** Forgets the innermost bookmark; its log and its commit type stay for the outer one. */
    method CommitNested(kind: CommitType)
      requires Valid() && |transactions| > 0
      modifies `transactions, `commitType, `marks
      ensures Valid()
      ensures View() == old(View()).(marks := old(marks)[..|old(marks)| - 1],
                                     commitType := match kind
                                                   case Sync => Sync
                                                   case ForceAsync => Async
                                                   case Async => old(commitType))
    {
      DropBookmark();
      match kind
      case Sync => commitType := Sync;
      case ForceAsync => commitType := Async;
      case Async =>
    }

    /** `valid` is the outcome of validating the read set; `sync` tells whether the handle asks the
        service thread to write everything and waits for it. */
    method Commit(kind: CommitType, valid: bool) returns (ok: bool, sync: bool)
      requires Valid() && startTime > 0
      modifies this, log
      ensures Valid() && log.Repr == old(log.Repr) && View() == Do(old(View()), Op.Commit(kind, valid))
      ensures ok <==> old(marks) != [] || old(log.contents) == [] || valid
      ensures sync <==> old(marks) == [] && Resolved(old(commitType), kind) == Sync
    {
      ok := true;
      sync := |transactions| == 0 && Resolved(commitType, kind) == Sync;
      if |transactions| == 0 {
        if log.Empty() || valid {
          Cleanup();
        } else {
          AbortMain();
          ok := false;
        }
      } else {
        CommitNested(kind);
      }
    }
  }
}
