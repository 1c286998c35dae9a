/** What a transaction that commits leaves.

    The operations of a body that are not inside an aborted nested transaction are those that
    survive.  They, and nothing else, are in the log and in the world: each cell holds the value
    of the last surviving write to it, or what a surviving creation gave it, or its old value. */
module Redo {
  import opened Rollback

  // ----- the operations that survive, from the list of operations alone

  /** What a last operation makes of the frames, one for each open transaction, the outermost
      first; nothing is left when more is closed than was opened. */
  function Extend(frames: seq<seq<Op>>, op: Op): seq<seq<Op>> {
    var n := |frames| - 1;
    if n < 0 then []
    else match op
      case Begin(_) => frames + [[]]
      case Commit(_, _) => if n == 0 then [] else frames[..n - 1] + [frames[n - 1] + frames[n] + [op]]
      case Abort => frames[..n]
      case _ => frames[..n] + [frames[n] + [op]]
  }

  /** For each open transaction what has survived in it. */
  function Frames(ops: seq<Op>): (frames: seq<seq<Op>>)
    ensures Depth(ops) >= 0 ==> |frames| == Depth(ops) + 1
    ensures Depth(ops) < 0 ==> frames == []
  {
    if ops == [] then [[]] else Extend(Frames(ops[..|ops| - 1]), ops[|ops| - 1])
  }

  function Flat(frames: seq<seq<Op>>): seq<Op> {
    if frames == [] then [] else Flat(frames[..|frames| - 1]) + frames[|frames| - 1]
  }

  /** The operations that are not inside an aborted nested transaction, in their order. */
  function Surviving(ops: seq<Op>): seq<Op> {
    Flat(Frames(ops))
  }

  lemma FlatOne(frames: seq<seq<Op>>, frame: seq<Op>)
    ensures Flat(frames + [frame]) == Flat(frames) + frame
  {
    assert (frames + [frame])[..|frames|] == frames;
  }

  lemma FlatGrown(frames: seq<seq<Op>>, op: Op)
    requires frames != []
    ensures var n := |frames| - 1; Flat(frames[..n] + [frames[n] + [op]]) == Flat(frames) + [op]
  {
    var n := |frames| - 1;
    FlatOne(frames[..n], frames[n] + [op]);
    assert Flat(frames) == Flat(frames[..n]) + frames[n];
  }

  lemma FlatMerged(base: seq<seq<Op>>, outer: seq<Op>, inner: seq<Op>, op: Op)
    ensures Flat(base + [outer + inner + [op]]) == Flat(base + [outer] + [inner]) + [op]
  {
    FlatOne(base, outer + inner + [op]);
    FlatOne(base, outer);
    FlatOne(base + [outer], inner);
    Regroup(Flat(base), outer, inner, [op]);
  }

  lemma Regroup(a: seq<Op>, b: seq<Op>, c: seq<Op>, d: seq<Op>)
    ensures a + (b + c + d) == a + b + c + d
  {
  }

  // ----- what they say

  /** What the last operation on a cell stored there. */
  function LastTo(ops: seq<Op>, cell: Cell): Option<int> {
    if ops == [] then None
    else
      match ops[|ops| - 1]
      case Write(c, val) => if c == cell then Some(val) else LastTo(ops[..|ops| - 1], cell)
      case Create(_, _, attrs) => if cell in attrs then Some(attrs[cell]) else LastTo(ops[..|ops| - 1], cell)
      case _ => LastTo(ops[..|ops| - 1], cell)
  }

  function LastId(ops: seq<Op>, node: nat): Option<nat> {
    if ops == [] then None
    else if ops[|ops| - 1].Create? && ops[|ops| - 1].node == node then Some(ops[|ops| - 1].id)
    else LastId(ops[..|ops| - 1], node)
  }

  /** The commit type that inner commits ask for. */
  function AskedFor(ops: seq<Op>): CommitType {
    if ops == [] then Async
    else
      match ops[|ops| - 1]
      case Commit(Sync, _) => Sync
      case Commit(ForceAsync, _) => Async
      case _ => AskedFor(ops[..|ops| - 1])
  }

  function ReadsOf(ops: seq<Op>): seq<nat> {
    if ops == [] then []
    else if ops[|ops| - 1].Read? then ReadsOf(ops[..|ops| - 1]) + [ops[|ops| - 1].lock]
    else ReadsOf(ops[..|ops| - 1])
  }

  predicate Logs(op: Op) {
    op.Write? || op.Create? || op.Delete? || op.Alloc? || op.Free?
  }

  /** The operations that are logged. */
  function LoggedOf(ops: seq<Op>): seq<Op> {
    if ops == [] then []
    else if Logs(ops[|ops| - 1]) then LoggedOf(ops[..|ops| - 1]) + [ops[|ops| - 1]]
    else LoggedOf(ops[..|ops| - 1])
  }

  /** The log item of an operation, whatever the old value. */
  predicate ItemOf(item: LogItem, op: Op) {
    match op
    case Write(cell, val) => item.Modify? && item.cell == cell && item.newVal == val
    case Create(node, _, _) => item == NodeAlloc(node)
    case Delete(node) => item == NodeDelete(node)
    case Alloc(b) => item == MemoryAlloc(b)
    case Free(b) => item == MemoryDelete(b)
    case _ => false
  }

  predicate LogOf(log: seq<LogItem>, ops: seq<Op>) {
    |log| == |ops| && forall i :: 0 <= i < |log| ==> ItemOf(log[i], ops[i])
  }

  ghost predicate CellsOf(before: map<Cell, int>, ops: seq<Op>, now: map<Cell, int>) {
    && (forall c :: c in now <==> c in before || LastTo(ops, c).Some?)
    && (forall c :: c in now ==> now[c] == match LastTo(ops, c) case Some(v) => v case None => before[c])
  }

  ghost predicate IdsOf(before: map<nat, nat>, ops: seq<Op>, now: map<nat, nat>) {
    && (forall n :: n in now <==> n in before || LastId(ops, n).Some?)
    && (forall n :: n in now ==> now[n] == match LastId(ops, n) case Some(id) => id case None => before[n])
  }

  /** The world after operations on `w`, cell by cell, id by id and block by block. */
  ghost predicate WorldOf(w: World, ops: seq<Op>, w': World) {
    && CellsOf(w.cells, ops, w'.cells) && IdsOf(w.ids, ops, w'.ids)
    && (forall b :: b in w'.blocks <==> b in w.blocks || Alloc(b) in ops)
  }

  // ----- the log, redone

  /** What the new values of the log say; what a creation filled in is not in it. */
  function RedoItem(w: World, item: LogItem): World {
    match item
    case Modify(cell, _, newVal) => w.(cells := w.cells[cell := newVal])
    case MemoryAlloc(b) => w.(blocks := w.blocks + {b})
    case NodeAlloc(_) => w
    case NodeDelete(_) => w
    case MemoryDelete(_) => w
  }

  function RedoAll(w: World, log: seq<LogItem>): World {
    if log == [] then w else RedoItem(RedoAll(w, log[..|log| - 1]), log[|log| - 1])
  }

  /** Redoing the log on the old world gives the new one: the blocks, all old cells, and every
      other cell that was written. */
  ghost predicate Redone(w: World, log: seq<LogItem>, w': World) {
    var redone := RedoAll(w, log);
    && (forall c :: c in w.cells ==> c in redone.cells)
    && (forall c :: c in redone.cells ==> c in w'.cells && redone.cells[c] == w'.cells[c])
    && redone.blocks == w'.blocks
  }

  lemma RedoneStep(w: World, s: State, op: Op)
    requires Redone(w, s.log, s.world) && Legal(s, op) && !op.Begin? && !op.Abort? && (op.Commit? ==> s.marks != [])
    ensures Redone(w, Do(s, op).log, Do(s, op).world)
  {
    var s' := Do(s, op);
    if |s'.log| == |s.log| + 1 {
      assert s'.log[..|s.log|] == s.log;
    }
  }

  /** The state after operations of a main transaction that all survive. */
  ghost predicate After(w: World, ops: seq<Op>, s: State) {
    && WorldOf(w, ops, s.world) && LogOf(s.log, LoggedOf(ops)) && Redone(w, s.log, s.world)
    && s.readSet == ReadsOf(ops) && s.commitType == AskedFor(ops)
  }

  // ----- every operation

  lemma OneMore(ops: seq<Op>, op: Op)
    ensures (ops + [op])[..|ops|] == ops
  {
  }

  lemma CellsPlain(w: World, ops: seq<Op>, s: State, op: Op)
    requires CellsOf(w.cells, ops, s.world.cells) && Legal(s, op) && !op.Begin? && !op.Abort? && !op.Commit?
    ensures CellsOf(w.cells, ops + [op], Do(s, op).world.cells)
  {
    OneMore(ops, op);
  }

  lemma IdsPlain(w: World, ops: seq<Op>, s: State, op: Op)
    requires IdsOf(w.ids, ops, s.world.ids) && Legal(s, op) && !op.Begin? && !op.Abort? && !op.Commit?
    ensures IdsOf(w.ids, ops + [op], Do(s, op).world.ids)
  {
    OneMore(ops, op);
  }

  lemma WorldPlain(w: World, ops: seq<Op>, s: State, op: Op)
    requires WorldOf(w, ops, s.world) && Legal(s, op) && !op.Begin? && !op.Abort? && !op.Commit?
    ensures WorldOf(w, ops + [op], Do(s, op).world)
  {
    CellsPlain(w, ops, s, op);
    IdsPlain(w, ops, s, op);
    assert forall b :: Alloc(b) in ops + [op] <==> Alloc(b) in ops || op == Alloc(b);
  }

  lemma WorldCommit(w: World, ops: seq<Op>, w': World, op: Op)
    requires WorldOf(w, ops, w') && op.Commit?
    ensures WorldOf(w, ops + [op], w')
  {
    OneMore(ops, op);
    assert forall b :: Alloc(b) in ops + [op] <==> Alloc(b) in ops;
  }

  lemma RecordsPlain(ops: seq<Op>, s: State, op: Op)
    requires LogOf(s.log, LoggedOf(ops)) && s.readSet == ReadsOf(ops) && s.commitType == AskedFor(ops)
    requires Legal(s, op) && s.start > 0 && !op.Begin? && !op.Abort? && (op.Commit? ==> s.marks != [])
    ensures var s' := Do(s, op);
      LogOf(s'.log, LoggedOf(ops + [op])) && s'.readSet == ReadsOf(ops + [op]) && s'.commitType == AskedFor(ops + [op])
  {
    OneMore(ops, op);
  }

  /** An operation that neither opens nor aborts a transaction, without the bookmarks. */
  lemma AfterPlain(w: World, ops: seq<Op>, s: State, op: Op)
    requires After(w, ops, s) && Legal(s, op) && s.start > 0 && !op.Begin? && !op.Abort? && (op.Commit? ==> s.marks != [])
    ensures After(w, ops + [op], Do(s, op))
  {
    RecordsPlain(ops, s, op);
    RedoneStep(w, s, op);
    if op.Commit? {
      WorldCommit(w, ops, s.world, op);
    } else {
      WorldPlain(w, ops, s, op);
    }
  }

  /** Bookmark `i` leads back to what had survived when it was set. */
  ghost predicate MarkAfter(w: World, frames: seq<seq<Op>>, s: State, i: nat)
    requires i < |s.marks| && |frames| == |s.marks| + 1
  {
    After(w, Flat(frames[..i + 1]), RollTo(s, s.marks[i]))
  }

  /** The same but for locks and bookmarks. */
  predicate SameParts(a: State, b: State) {
    a.world == b.world && a.log == b.log && a.readSet == b.readSet && a.commitType == b.commitType
  }

  lemma MarkSame(w: World, frames: seq<seq<Op>>, s: State, frames': seq<seq<Op>>, s': State, i: nat)
    requires i < |s.marks| && |frames| == |s.marks| + 1 && MarkAfter(w, frames, s, i)
    requires i < |s'.marks| && |frames'| == |s'.marks| + 1 && s'.marks[i] == s.marks[i]
    requires frames'[..i + 1] == frames[..i + 1] && SameParts(RollTo(s', s.marks[i]), RollTo(s, s.marks[i]))
    ensures MarkAfter(w, frames', s', i)
  {
  }

  ghost predicate Tracks(w: World, frames: seq<seq<Op>>, s: State) {
    && s.start > 0 && |frames| == |s.marks| + 1
    && After(w, Flat(frames), s) && MarksBetween(s, BOTTOM, 0)
    && forall i :: 0 <= i < |s.marks| ==> MarkAfter(w, frames, s, i)
  }

  lemma TracksBegin(w: World, frames: seq<seq<Op>>, s: State, time: nat)
    requires Tracks(w, frames, s)
    ensures Tracks(w, frames + [[]], Do(s, Begin(time)))
  {
    var s', frames' := Do(s, Begin(time)), frames + [[]];
    FlatOne(frames, []);
    assert Flat(frames) + [] == Flat(frames);
    MarkPushed(s);
    forall i | 0 <= i < |s'.marks| ensures MarkAfter(w, frames', s', i) {
      if i < |s.marks| {
        assert MarkAfter(w, frames, s, i) && frames'[..i + 1] == frames[..i + 1];
        MarkSame(w, frames, s, frames', s', i);
      } else {
        assert frames'[..i + 1] == frames;
        assert s.log[..|s.log|] == s.log && s.readSet[..|s.readSet|] == s.readSet;
      }
    }
  }

  /** An operation that adds to the log or to the read set, or to neither, does not change what
      bookmarks lead back to. */
  lemma RollsSame(s: State, op: Op, m: Mark)
    requires Legal(s, op) && !op.Begin? && !op.Abort? && !op.Commit? && m.log <= |s.log| && m.readSet <= |s.readSet|
    ensures SameParts(RollTo(Do(s, op), m), RollTo(s, m))
  {
    if |Do(s, op).log| == |s.log| + 1 {
      UndoGrown(s, op, m.log);
    }
  }

  lemma MarksPlain(w: World, frames: seq<seq<Op>>, s: State, op: Op)
    requires |frames| == |s.marks| + 1 && Legal(s, op) && !op.Begin? && !op.Abort? && !op.Commit?
    requires MarksBetween(s, BOTTOM, 0) && forall i :: 0 <= i < |s.marks| ==> MarkAfter(w, frames, s, i)
    ensures |Extend(frames, op)| == |Do(s, op).marks| + 1
    ensures forall i :: 0 <= i < |Do(s, op).marks| ==> MarkAfter(w, Extend(frames, op), Do(s, op), i)
  {
    var s', frames' := Do(s, op), Extend(frames, op);
    forall i | 0 <= i < |s'.marks| ensures MarkAfter(w, frames', s', i) {
      assert MarkAfter(w, frames, s, i) && frames'[..i + 1] == frames[..i + 1];
      RollsSame(s, op, s.marks[i]);
      MarkSame(w, frames, s, frames', s', i);
    }
  }

  lemma TracksPlain(w: World, frames: seq<seq<Op>>, s: State, op: Op)
    requires Tracks(w, frames, s) && Legal(s, op) && !op.Begin? && !op.Abort? && !op.Commit?
    ensures Tracks(w, Extend(frames, op), Do(s, op))
  {
    FlatGrown(frames, op);
    AfterPlain(w, Flat(frames), s, op);
    MarksPlain(w, frames, s, op);
  }

  lemma MarksCommit(w: World, frames: seq<seq<Op>>, s: State, op: Op)
    requires |frames| == |s.marks| + 1 && op.Commit? && s.marks != [] && Legal(s, op)
    requires forall i :: 0 <= i < |s.marks| ==> MarkAfter(w, frames, s, i)
    ensures |Extend(frames, op)| == |Do(s, op).marks| + 1
    ensures forall i :: 0 <= i < |Do(s, op).marks| ==> MarkAfter(w, Extend(frames, op), Do(s, op), i)
  {
    var s', frames' := Do(s, op), Extend(frames, op);
    forall i | 0 <= i < |s'.marks| ensures MarkAfter(w, frames', s', i) {
      assert MarkAfter(w, frames, s, i) && frames'[..i + 1] == frames[..i + 1];
      MarkSame(w, frames, s, frames', s', i);
    }
  }

  lemma TracksCommit(w: World, frames: seq<seq<Op>>, s: State, op: Op)
    requires Tracks(w, frames, s) && op.Commit? && s.marks != []
    ensures Tracks(w, Extend(frames, op), Do(s, op))
  {
    var n := |frames| - 1;
    assert frames == frames[..n - 1] + [frames[n - 1]] + [frames[n]];
    FlatMerged(frames[..n - 1], frames[n - 1], frames[n], op);
    AfterPlain(w, Flat(frames), s, op);
    MarksCommit(w, frames, s, op);
  }

  /** Rolling back to an older bookmark by way of a newer one. */
  lemma RollsOn(s: State, m: Mark, older: Mark)
    requires older.log <= m.log <= |s.log| && older.readSet <= m.readSet <= |s.readSet|
    ensures SameParts(RollTo(RollTo(s, m), older), RollTo(s, older))
  {
    UndoStages(s.world, s.log, m.log, older.log);
  }

  lemma MarkAbort(w: World, frames: seq<seq<Op>>, s: State, s': State, i: nat)
    requires s.start > 0 && i < |s.marks| - 1 && |frames| == |s.marks| + 1 && s' == Do(s, Abort)
    requires MarksBetween(s, BOTTOM, 0) && MarkAfter(w, frames, s, i)
    ensures i < |s'.marks| == |s.marks| - 1 && MarkAfter(w, frames[..|frames| - 1], s', i)
  {
    var frames', m := frames[..|frames| - 1], s.marks[|s.marks| - 1];
    assert frames'[..i + 1] == frames[..i + 1];
    RollsOn(s, m, s.marks[i]);
    MarkSame(w, frames, s, frames', s', i);
  }

  lemma AfterSame(w: World, ops: seq<Op>, a: State, b: State)
    requires After(w, ops, a) && SameParts(a, b)
    ensures After(w, ops, b)
  {
  }

  lemma AbortBetween(s: State)
    requires s.start > 0 && s.marks != [] && MarksBetween(s, BOTTOM, 0)
    ensures MarksBetween(Do(s, Abort), BOTTOM, 0)
  {
  }

  lemma TracksAbort(w: World, frames: seq<seq<Op>>, s: State)
    requires Tracks(w, frames, s) && s.marks != []
    ensures Tracks(w, frames[..|frames| - 1], Do(s, Abort))
  {
    var last, s', frames' := |s.marks| - 1, Do(s, Abort), frames[..|frames| - 1];
    assert MarkAfter(w, frames, s, last) && frames[..last + 1] == frames';
    AfterSame(w, Flat(frames'), RollTo(s, s.marks[last]), s');
    AbortBetween(s);
    forall i | 0 <= i < |s'.marks| ensures MarkAfter(w, frames', s', i) {
      assert MarkAfter(w, frames, s, i);
      MarkAbort(w, frames, s, s', i);
    }
  }

  lemma TracksStep(w: World, frames: seq<seq<Op>>, s: State, op: Op)
    requires Tracks(w, frames, s) && Legal(s, op) && (op.Commit? || op.Abort? ==> |frames| > 1)
    ensures Tracks(w, Extend(frames, op), Do(s, op))
  {
    match op
    case Begin(time) => TracksBegin(w, frames, s, time);
    case Commit(_, _) => TracksCommit(w, frames, s, op);
    case Abort => TracksAbort(w, frames, s);
    case _ => TracksPlain(w, frames, s, op);
  }

  lemma {:induction false} BodyTracks(w: World, s0: State, ops: seq<Op>)
    requires Tracks(w, [[]], s0) && Runs(s0, ops) && Depth(ops) >= 0
    ensures Tracks(w, Frames(ops), RunAll(s0, ops))
  {
    if ops != [] {
      var front, op := ops[..|ops| - 1], ops[|ops| - 1];
      BodyTracks(w, s0, front);
      TracksStep(w, Frames(front), RunAll(s0, front), op);
    }
  }

  // ----- theorems

  /** Whatever well-bracketed operations ran since a main transaction began: the world, the log,
      the read set and the commit type are those of the operations that survive. */
  lemma BodyLeaves(w: World, time: nat, body: seq<Op>)
    requires time > 0 && Runs(Do(Idle(w), Begin(time)), body) && Depth(body) == 0
    ensures After(w, Surviving(body), RunAll(Do(Idle(w), Begin(time)), body))
  {
    var s0 := Do(Idle(w), Begin(time));
    assert Flat([[]]) == [] + [];
    assert After(w, [], s0);
    BodyTracks(w, s0, body);
  }

  /** A main commit is synchronous when the last commit that survives, or it itself, asked for it
      and none behind that one forced the contrary. */
  lemma CommitAsks(w: World, time: nat, body: seq<Op>, kind: CommitType, valid: bool)
    requires time > 0 && Runs(Do(Idle(w), Begin(time)), body) && Depth(body) == 0
    ensures var s := RunAll(Do(Idle(w), Begin(time)), body);
      Resolved(s.commitType, kind) == Sync <==> AskedFor(Surviving(body) + [Commit(kind, valid)]) == Sync
  {
    BodyLeaves(w, time, body);
    OneMore(Surviving(body), Commit(kind, valid));
  }

  /** A valid main commit leaves the world of the operations that survive, and the handle clean. */
  lemma CommitLeaves(w: World, time: nat, body: seq<Op>, kind: CommitType)
    requires time > 0 && Runs(Do(Idle(w), Begin(time)), body) && Depth(body) == 0
    ensures var s := RunAll(Do(Idle(w), Begin(time)), body);
      && Legal(s, Commit(kind, true)) && Do(s, Commit(kind, true)) == Idle(s.world)
      && WorldOf(w, Surviving(body), s.world) && Redone(w, s.log, s.world)
  {
    BodyLeaves(w, time, body);
    MainAbortRestores(w, time, body, kind);
  }
}
