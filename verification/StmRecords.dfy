/** Disk records built after the locks are released.

    A committed writer releases its locks, and only then reads node ids and string
    blocks to build its record, while later transactions already delete those nodes
    and free those blocks.  Deleted memory is freed by the service thread, in queue
    order, after the deleting job.  This layer adds the id cells and block contents
    to the step system. */
module StmRecords {
  import opened StmModel
  import opened StmInvariant
  import opened StmShape
  import opened StmFrames
  import opened StmForms
  import opened StmSteps

  type Cells = m: imap<nat, int> | forall o: nat :: o in m
    ghost witness imap o: nat :: 0

  /** History of a block: the object it belongs to, and the log item that allocated it. */
  datatype Home = Unborn | Born(obj: nat, maker: nat, at: nat)

  type Homes = m: imap<nat, Home> | forall b: nat :: b in m
    ghost witness imap b: nat :: Unborn

  function Cell(cells: Cells, o: nat): int {
    cells[o]
  }

  function HomeOf(homes: Homes, b: nat): Home {
    homes[b]
  }

  datatype RState = RState(
    stm: State,
    nodes: iset<nat>,      // addresses that can hold nodes; other objects belong to indexes
    texts: iset<Loc>,      // string attributes, whose value is the address of a block
    ids: Cells,            // the id field of each node, 0 when freed
    birth: Cells,          // history: the id a node was created with, 0 before
    undone: iset<nat>,     // history: nodes whose creation was rolled back
    text: Cells,           // block contents
    home: Homes)

  /** A cell whose content a record may still need: a node's id, or a block of an object. */
  datatype Res = NodeRes(obj: nat) | BlockRes(obj: nat, block: nat)

  /** The log ends the life of the cell: it deletes the node or frees the block. */
  ghost predicate Kills(log: seq<LogItem>, res: Res) {
    exists i :: 0 <= i < |log| &&
      (log[i] == Noted(res.obj, NodeDelete) || (res.BlockRes? && log[i] == Noted(res.obj, BlockFree(res.block))))
  }

  ghost predicate Deletes(log: seq<LogItem>, o: nat) {
    Kills(log, NodeRes(o))
  }

  ghost predicate Frees(log: seq<LogItem>, b: nat) {
    exists i :: 0 <= i < |log| && log[i].Noted? && log[i].note == BlockFree(b)
  }

  /** What a transaction may do, beyond holding the lock: it reaches only nodes that were
      created, not rolled back, and not deleted by its start time; new nodes and blocks are
      fresh; it frees blocks of the object it holds and stores only blocks it allocated. */
  ghost predicate Reaches(r: RState, h: nat, o: nat) {
    && h < |r.stm.handles|
    && (o in r.nodes ==>
          && Cell(r.birth, o) != 0 && o !in r.undone
          && forall i :: 0 <= i < |r.stm.hist| && r.stm.hist[i].status.Committed? && Deletes(r.stm.hist[i].log, o) ==>
               i >= Upto(r.stm.handles[h].start))
  }

  ghost predicate Belongs(r: RState, b: nat, o: nat) {
    HomeOf(r.home, b).Born? && HomeOf(r.home, b).obj == o
  }

  ghost predicate Disciplined(r: RState, step: Step) {
    match step
    case WriteStep(h, loc, val) =>
      Reaches(r, h, loc.obj)
      && (loc in r.texts ==> val >= 0 && Allocates(r.stm.handles[h].log, val))
    case Annotate(h, o, NodeAlloc(id)) => h < |r.stm.handles| && o in r.nodes && Cell(r.birth, o) == 0 && id != 0
    case Annotate(h, o, NodeDelete) => Reaches(r, h, o) && o in r.nodes
    case Annotate(h, o, BlockAlloc(b, _)) => Reaches(r, h, o) && HomeOf(r.home, b).Unborn?
    case Annotate(h, o, BlockFree(b)) => Reaches(r, h, o) && Belongs(r, b, o)
    case _ => true
  }

  ghost predicate Allocates(log: seq<LogItem>, b: nat) {
    exists i :: 0 <= i < |log| && IsBlock(log[i], b)
  }

  predicate IsBlock(item: LogItem, b: nat) {
    item.Noted? && item.note.BlockAlloc? && item.note.block == b
  }

  /** The item a rollback step undoes, if the step is one. */
  ghost function Undone(s: State, step: Step): (items: seq<LogItem>)
    requires Enabled(s, step)
  {
    match step
    case UndoItem(h) => [Last(s.handles[h].log)]
    case UndoNestedItem(h) => [Last(s.handles[h].log)]
    case _ => []
  }

  /** The log whose garbage a service step frees. */
  ghost function Garbage(s: State, step: Step): seq<LogItem>
    requires Enabled(s, step)
  {
    if step.Process? && s.queue[s.done] < |s.hist| && s.hist[s.queue[s.done]].status.Committed?
    then s.hist[s.queue[s.done]].log else []
  }

  ghost predicate Frozen(r: RState, step: Step, b: nat)
    requires Enabled(r.stm, step)
  {
    var garbage := Garbage(r.stm, step);
    && !Frees(garbage, b)
    && (HomeOf(r.home, b).Born? ==> !Deletes(garbage, HomeOf(r.home, b).obj))
    && !(Undone(r.stm, step) != [] && IsBlock(Undone(r.stm, step)[0], b))
    && !(step.Annotate? && step.note.BlockAlloc? && step.note.block == b)
  }

  predicate IsCreation(item: LogItem, o: nat) {
    item.Noted? && item.note.NodeAlloc? && item.noteObj == o
  }

  /** The item undone is the creation of `o`. */
  predicate Unmakes(undone: seq<LogItem>, o: nat) {
    undone != [] && IsCreation(undone[0], o)
  }

  ghost predicate RollsBack(s: State, step: Step, o: nat)
    requires Enabled(s, step)
  {
    Unmakes(Undone(s, step), o)
  }

  /** Freed blocks may get any content. */
  ghost predicate TextNext(r: RState, step: Step, r': RState)
    requires Enabled(r.stm, step)
  {
    && (forall b: nat :: Frozen(r, step, b) ==> Cell(r'.text, b) == Cell(r.text, b))
    && (step.Annotate? && step.note.BlockAlloc? ==> Cell(r'.text, step.note.block) == step.note.text)
  }

  ghost predicate IdsNext(r: RState, step: Step, r': RState)
    requires Enabled(r.stm, step)
  {
    forall o: nat :: Cell(r'.ids, o) ==
      if Deletes(Garbage(r.stm, step), o) || RollsBack(r.stm, step, o) then 0
      else if step.Annotate? && step.note.NodeAlloc? && o == step.obj then step.note.id
      else Cell(r.ids, o)
  }

  ghost predicate HistoryNext(r: RState, step: Step, r': RState)
    requires Enabled(r.stm, step)
  {
    && r'.nodes == r.nodes && r'.texts == r.texts
    && r'.home == (if step.Annotate? && step.note.BlockAlloc? && step.h < |r.stm.handles|
                   then r.home[step.note.block := Born(step.obj, step.h, |r.stm.handles[step.h].log|)] else r.home)
    && r'.birth == (if step.Annotate? && step.note.NodeAlloc? then r.birth[step.obj := step.note.id] else r.birth)
    && forall o: nat :: o in r'.undone <==> o in r.undone || RollsBack(r.stm, step, o)
  }

  /** How the cells react to a step. */
  ghost predicate CellsNext(r: RState, step: Step, r': RState)
    requires Enabled(r.stm, step)
  {
    TextNext(r, step, r') && IdsNext(r, step, r') && HistoryNext(r, step, r')
  }

  ghost predicate RNext(r: RState, step: Step, r': RState) {
    Enabled(r.stm, step) && Disciplined(r, step) && r'.stm == Do(r.stm, step) && CellsNext(r, step, r')
  }

  // ----- the record

  datatype DiskOp = Modify(id: int, attr: nat, value: int) | Create(id: int) | Delete(id: int)

  /** What `process_transaction_log` emits for one item from the cells it finds. */
  ghost function Emit(r: RState, item: LogItem): seq<DiskOp> {
    match item
    case Wrote(loc, _, val) =>
      if loc.obj !in r.nodes then []
      else [Modify(Cell(r.ids, loc.obj), loc.attr, if loc in r.texts && val >= 0 then Cell(r.text, val) else val)]
    case Noted(o, NodeAlloc(_)) => [Create(Cell(r.ids, o))]
    case Noted(o, NodeDelete) => [Delete(Cell(r.ids, o))]
    case _ => []
  }

  ghost function Build(r: RState, log: seq<LogItem>): seq<DiskOp> {
    if log == [] then [] else Build(r, DropLast(log)) + Emit(r, Last(log))
  }

  /** The text of a block the transaction itself allocated. */
  ghost function TextOf(log: seq<LogItem>, b: nat): int {
    if log == [] then 0
    else if IsBlock(Last(log), b) then Last(log).note.text
    else TextOf(DropLast(log), b)
  }

  /** What a written value stands for: the text of a block, or itself. */
  ghost function Standing(r: RState, all: seq<LogItem>, loc: Loc, val: int): int {
    if loc in r.texts && val >= 0 then TextOf(all, val) else val
  }

  ghost function MeantItem(r: RState, all: seq<LogItem>, item: LogItem): seq<DiskOp> {
    match item
    case Wrote(loc, _, val) =>
      if loc.obj !in r.nodes then [] else [Modify(Cell(r.birth, loc.obj), loc.attr, Standing(r, all, loc, val))]
    case Noted(o, NodeAlloc(_)) => [Create(Cell(r.birth, o))]
    case Noted(o, NodeDelete) => [Delete(Cell(r.birth, o))]
    case _ => []
  }

  /** The record the transaction meant: ids of creation, texts of its own log. */
  ghost function Meant(r: RState, all: seq<LogItem>, log: seq<LogItem>): seq<DiskOp> {
    if log == [] then [] else Meant(r, all, DropLast(log)) + MeantItem(r, all, Last(log))
  }

  // ----- invariant

  /** A node or block is freed only by a committed job at or behind `h`'s own. */
  ghost predicate OnlyBehind(hd: Handle, i: nat) {
    InCommit(hd.pc) && i >= hd.cur
  }

  ghost predicate Spared(hist: seq<Rec>, hd: Handle, res: Res) {
    forall i :: 0 <= i < |hist| && hist[i].status.Committed? && Kills(hist[i].log, res) ==> OnlyBehind(hd, i)
  }

  ghost predicate NodeSafe(r: RState, hd: Handle, o: nat) {
    && Cell(r.birth, o) != 0 && Cell(r.ids, o) == Cell(r.birth, o) && o !in r.undone
    && Spared(r.stm.hist, hd, NodeRes(o))
  }

  ghost predicate BlockSafe(r: RState, hd: Handle, home: Home, b: nat, text: int) {
    && home.Born? && HomeOf(r.home, b) == home && Cell(r.text, b) == text
    && Spared(r.stm.hist, hd, BlockRes(home.obj, b))
  }

  /** What the log item at position `x` of handle `h` relies on. */
  ghost predicate ItemSafe(r: RState, hd: Handle, h: nat, x: nat, item: LogItem) {
    && (item.Obj() in r.nodes ==> NodeSafe(r, hd, item.Obj()))
    && (item.Noted? && item.note.BlockAlloc? ==>
          BlockSafe(r, hd, Born(item.noteObj, h, x), item.note.block, item.note.text))
    && (item.Noted? && item.note.BlockFree? ==> Belongs(r, item.note.freed, item.noteObj))
    && (item.Noted? && (item.note.NodeDelete? || item.note.NodeAlloc?) ==> item.noteObj in r.nodes)
  }

  ghost predicate ItemsSafe(r: RState) {
    forall h, x :: 0 <= h < |r.stm.handles| && 0 <= x < |r.stm.handles[h].log| ==>
      ItemSafe(r, r.stm.handles[h], h, x, r.stm.handles[h].log[x])
  }

  /** A creation is the first item on its node, and nobody else reaches the node meanwhile. */
  ghost predicate Creations(r: RState) {
    forall h, x :: 0 <= h < |r.stm.handles| && 0 <= x < |r.stm.handles[h].log|
                   && r.stm.handles[h].log[x].Noted? && r.stm.handles[h].log[x].note.NodeAlloc? ==>
      var o := r.stm.handles[h].log[x].noteObj;
      && !Touches(r.stm.handles[h].log[..x], o)
      && (Active(r.stm.handles[h].pc) ==>
            forall k :: 0 <= k < |r.stm.handles| && k != h ==> !Touches(r.stm.handles[k].log, o))
  }

  /** Stored texts are blocks of the same log. */
  ghost predicate Stored(r: RState, log: seq<LogItem>) {
    forall x :: 0 <= x < |log| && log[x].Wrote? && log[x].loc in r.texts ==>
      log[x].newVal >= 0 && Allocates(log[..x], log[x].newVal)
  }

  ghost predicate Texts(r: RState) {
    forall h :: 0 <= h < |r.stm.handles| ==> Stored(r, r.stm.handles[h].log)
  }

  ghost predicate HistItems(r: RState, log: seq<LogItem>) {
    forall x :: 0 <= x < |log| ==>
      && (log[x].Obj() in r.nodes ==> Cell(r.birth, log[x].Obj()) != 0)
      && (log[x].Noted? && log[x].note.BlockFree? ==> Belongs(r, log[x].note.freed, log[x].noteObj))
      && (log[x].Noted? && (log[x].note.NodeDelete? || log[x].note.NodeAlloc?) ==> log[x].noteObj in r.nodes)
  }

  ghost predicate Past(r: RState) {
    forall i :: 0 <= i < |r.stm.hist| ==> HistItems(r, r.stm.hist[i].log)
  }

  ghost predicate Collected(s: State, o: nat) {
    exists p :: 0 <= p < s.done && p < |s.queue| && s.queue[p] < |s.hist|
                && s.hist[s.queue[p]].status.Committed? && Deletes(s.hist[s.queue[p]].log, o)
  }

  ghost predicate Ids(r: RState) {
    && (forall o: nat :: o in r.nodes && Cell(r.birth, o) != 0 && o !in r.undone ==> Cell(r.ids, o) == Cell(r.birth, o) || Collected(r.stm, o))
    && (forall o: nat :: o in r.undone ==> Cell(r.birth, o) != 0)
  }

  ghost predicate RInv(r: RState) {
    Inv(r.stm) && ItemsSafe(r) && Creations(r) && Texts(r) && Past(r) && Ids(r)
  }

  // ----- steps that keep every log and every committed record

  ghost predicate SameCells(r: RState, r': RState) {
    && r'.nodes == r.nodes && r'.texts == r.texts && r'.birth == r.birth && r'.home == r.home
    && (forall o: nat :: (o in r'.undone <==> o in r.undone) && Cell(r'.ids, o) == Cell(r.ids, o))
    && (forall b: nat :: Cell(r'.text, b) == Cell(r.text, b))
  }

  ghost predicate KeepsLog(hd: Handle, hd': Handle) {
    || hd'.log == []
    || (hd'.log == hd.log && (InCommit(hd.pc) ==> InCommit(hd'.pc) && hd'.cur == hd.cur)
        && (Active(hd'.pc) ==> Active(hd.pc)))
  }

  ghost predicate KeepsLogs(s: State, s': State) {
    && |s'.handles| == |s.handles|
    && forall k :: 0 <= k < |s.handles| ==> KeepsLog(s.handles[k], s'.handles[k])
  }

  ghost predicate NoNewCommit(hist: seq<Rec>, hist': seq<Rec>) {
    && |hist| <= |hist'|
    && (forall i :: 0 <= i < |hist'| && hist'[i].status.Committed? ==> i < |hist| && hist[i] == hist'[i])
    && (forall i :: 0 <= i < |hist| && hist[i].status.Committed? ==> hist'[i] == hist[i])
  }

  lemma ItemKept(r: RState, r': RState, hd: Handle, hd': Handle, h: nat, x: nat, item: LogItem)
    requires SameCells(r, r') && NoNewCommit(r.stm.hist, r'.stm.hist)
    requires InCommit(hd.pc) ==> InCommit(hd'.pc) && hd'.cur == hd.cur
    requires ItemSafe(r, hd, h, x, item)
    ensures ItemSafe(r', hd', h, x, item)
  {
    forall res | Spared(r.stm.hist, hd, res) ensures Spared(r'.stm.hist, hd', res) {
    }
  }

  lemma KeptItems(r: RState, r': RState)
    requires ItemsSafe(r) && SameCells(r, r') && KeepsLogs(r.stm, r'.stm) && NoNewCommit(r.stm.hist, r'.stm.hist)
    ensures ItemsSafe(r')
  {
    forall h, x | 0 <= h < |r'.stm.handles| && 0 <= x < |r'.stm.handles[h].log|
      ensures ItemSafe(r', r'.stm.handles[h], h, x, r'.stm.handles[h].log[x])
    {
      assert KeepsLog(r.stm.handles[h], r'.stm.handles[h]);
      ItemKept(r, r', r.stm.handles[h], r'.stm.handles[h], h, x, r.stm.handles[h].log[x]);
    }
  }

  lemma KeptCreations(r: RState, r': RState)
    requires Creations(r) && SameCells(r, r') && KeepsLogs(r.stm, r'.stm)
    ensures Creations(r')
  {
    forall h, x | 0 <= h < |r'.stm.handles| && 0 <= x < |r'.stm.handles[h].log|
                  && r'.stm.handles[h].log[x].Noted? && r'.stm.handles[h].log[x].note.NodeAlloc?
      ensures !Touches(r'.stm.handles[h].log[..x], r'.stm.handles[h].log[x].noteObj)
      ensures Active(r'.stm.handles[h].pc) ==>
                forall k :: 0 <= k < |r'.stm.handles| && k != h ==> !Touches(r'.stm.handles[k].log, r'.stm.handles[h].log[x].noteObj)
    {
      assert KeepsLog(r.stm.handles[h], r'.stm.handles[h]);
      forall k | Active(r'.stm.handles[h].pc) && 0 <= k < |r'.stm.handles| && k != h
        ensures !Touches(r'.stm.handles[k].log, r'.stm.handles[h].log[x].noteObj)
      {
        assert KeepsLog(r.stm.handles[k], r'.stm.handles[k]);
      }
    }
  }

  lemma KeptTexts(r: RState, r': RState)
    requires Texts(r) && SameCells(r, r') && KeepsLogs(r.stm, r'.stm)
    ensures Texts(r')
  {
    forall h | 0 <= h < |r'.stm.handles| ensures Stored(r', r'.stm.handles[h].log) {
      assert KeepsLog(r.stm.handles[h], r'.stm.handles[h]);
    }
  }

  lemma KeptIds(r: RState, r': RState)
    requires Ids(r) && SameCells(r, r') && NoNewCommit(r.stm.hist, r'.stm.hist)
    requires QueueGrows(r.stm, r'.stm) && r.stm.done <= r'.stm.done
    ensures Ids(r')
  {
    forall o: nat | o in r'.nodes && Cell(r'.birth, o) != 0 && o !in r'.undone
      ensures Cell(r'.ids, o) == Cell(r'.birth, o) || Collected(r'.stm, o)
    {
      if Collected(r.stm, o) {
        CollectedKept(r.stm, r'.stm, o);
      }
    }
  }

  lemma CollectedKept(s: State, s': State, o: nat)
    requires Collected(s, o) && QueueGrows(s, s') && s.done <= s'.done && |s.hist| <= |s'.hist|
    requires forall i :: 0 <= i < |s.hist| && s.hist[i].status.Committed? ==> s'.hist[i] == s.hist[i]
    ensures Collected(s', o)
  {
    var p :| 0 <= p < s.done && p < |s.queue| && s.queue[p] < |s.hist|
             && s.hist[s.queue[p]].status.Committed? && Deletes(s.hist[s.queue[p]].log, o);
    assert s'.queue[p] == s.queue[p];
  }

  lemma KeptPast(r: RState, r': RState)
    requires Past(r) && SameCells(r, r') && |r.stm.hist| <= |r'.stm.hist|
    requires forall i :: 0 <= i < |r.stm.hist| ==> r'.stm.hist[i].log == r.stm.hist[i].log
    requires forall i :: |r.stm.hist| <= i < |r'.stm.hist| ==> HistItems(r, r'.stm.hist[i].log)
    ensures Past(r')
  {
    forall i | 0 <= i < |r'.stm.hist| ensures HistItems(r', r'.stm.hist[i].log) {
      assert i < |r.stm.hist| ==> HistItems(r, r.stm.hist[i].log);
    }
  }

  /** A log whose items are safe is fit for the history. */
  lemma LogFits(r: RState, h: nat)
    requires ItemsSafe(r) && h < |r.stm.handles|
    ensures HistItems(r, r.stm.handles[h].log)
  {
    forall x | 0 <= x < |r.stm.handles[h].log|
      ensures var item := r.stm.handles[h].log[x];
        && (item.Obj() in r.nodes ==> Cell(r.birth, item.Obj()) != 0)
        && (item.Noted? && item.note.BlockFree? ==> Belongs(r, item.note.freed, item.noteObj))
        && (item.Noted? && (item.note.NodeDelete? || item.note.NodeAlloc?) ==> item.noteObj in r.nodes)
    {
      assert ItemSafe(r, r.stm.handles[h], h, x, r.stm.handles[h].log[x]);
    }
  }

  /** The part of the layer's invariant that is not the step system's own. */
  ghost predicate Layer(r: RState) {
    ItemsSafe(r) && Creations(r) && Texts(r) && Past(r) && Ids(r)
  }

  lemma LayerKept(r: RState, r': RState)
    requires Layer(r) && SameCells(r, r') && KeepsLogs(r.stm, r'.stm) && NoNewCommit(r.stm.hist, r'.stm.hist)
    requires QueueGrows(r.stm, r'.stm) && r.stm.done == r'.stm.done
    requires forall i :: 0 <= i < |r.stm.hist| ==> r'.stm.hist[i].log == r.stm.hist[i].log
    requires forall i :: |r.stm.hist| <= i < |r'.stm.hist| ==>
               r'.stm.hist[i].log == [] || exists h :: 0 <= h < |r.stm.handles| && r'.stm.hist[i].log == r.stm.handles[h].log
    ensures Layer(r')
  {
    forall i | |r.stm.hist| <= i < |r'.stm.hist| ensures HistItems(r, r'.stm.hist[i].log) {
      if r'.stm.hist[i].log != [] {
        var h :| 0 <= h < |r.stm.handles| && r'.stm.hist[i].log == r.stm.handles[h].log;
        LogFits(r, h);
      }
    }
    KeptItems(r, r');
    KeptCreations(r, r');
    KeptTexts(r, r');
    KeptPast(r, r');
    KeptIds(r, r');
  }

  // ----- deciding a record

  /** While a commit is undecided, its objects have no committed deleter or freer at or
      behind its own end time. */
  lemma UndecidedAlone(s: State, h: nat, o: nat, i: nat)
    requires Inv(s) && h < |s.handles| && s.handles[h].pc.Validating? && Touches(s.handles[h].log, o)
    requires i < |s.hist| && s.hist[i].status.Committed? && Touches(s.hist[i].log, o)
    ensures i < s.handles[h].cur
  {
    Facts(s, h);
    assert s.locks[o] == Held(h);
    assert LockOk(s, o);
  }

  lemma KillsTouch(log: seq<LogItem>, res: Res)
    requires Kills(log, res)
    ensures Touches(log, res.obj)
  {
    var i :| 0 <= i < |log| &&
      (log[i] == Noted(res.obj, NodeDelete) || (res.BlockRes? && log[i] == Noted(res.obj, BlockFree(res.block))));
    assert log[i].Obj() == res.obj;
  }

  lemma FreesKill(r: RState, log: seq<LogItem>, o: nat, b: nat)
    requires HistItems(r, log) && Belongs(r, b, o) && (Frees(log, b) || Deletes(log, o))
    ensures Kills(log, BlockRes(o, b))
  {
    if Frees(log, b) {
      var i :| 0 <= i < |log| && log[i].Noted? && log[i].note == BlockFree(b);
      assert log[i] == Noted(o, BlockFree(b));
    } else {
      var i :| 0 <= i < |log| && log[i] == Noted(o, NodeDelete);
    }
  }

  /** The own cells of a commit stay spared when its record is decided either way. */
  lemma OwnDecided(s: State, h: nat, hd': Handle, res: Res, status: Status)
    requires Inv(s) && h < |s.handles| && s.handles[h].pc.Validating? && s.handles[h].cur < |s.hist|
    requires status.Committed? ==> InCommit(hd'.pc) && hd'.cur == s.handles[h].cur
    requires Touches(s.handles[h].log, res.obj) && Spared(s.hist, s.handles[h], res)
    ensures Spared(SetStatus(s.hist, s.handles[h].cur, status), hd', res)
  {
    var hist' := SetStatus(s.hist, s.handles[h].cur, status);
    forall i | 0 <= i < |hist'| && hist'[i].status.Committed? && Kills(hist'[i].log, res)
      ensures OnlyBehind(hd', i)
    {
      if i != s.handles[h].cur {
        KillsTouch(s.hist[i].log, res);
        UndecidedAlone(s, h, res.obj, i);
      }
    }
  }

  /** Two logs reach one object only if the holder of the second is already past its decision. */
  lemma BehindHolder(s: State, k: nat, h: nat, o: nat)
    requires Inv(s) && k < |s.handles| && s.handles[k].pc.Validating? && Touches(s.handles[k].log, o)
    requires h < |s.handles| && h != k && Touches(s.handles[h].log, o)
    ensures InCommit(s.handles[h].pc) && s.handles[h].cur < s.handles[k].cur
  {
    Facts(s, h);
    Facts(s, k);
    assert s.locks[o] == Held(k);
    UndecidedAlone(s, k, o, s.handles[h].cur);
  }

  /** The cells of another handle stay spared when `k` is decided. */
  lemma OtherDecided(s: State, k: nat, h: nat, res: Res, status: Status)
    requires Inv(s) && k < |s.handles| && s.handles[k].pc.Validating? && s.handles[k].cur < |s.hist|
    requires h < |s.handles| && h != k && (status.Committed? || status.Rejected?)
    requires s.hist[s.handles[k].cur].log == s.handles[k].log
    requires Touches(s.handles[h].log, res.obj) && Spared(s.hist, s.handles[h], res)
    ensures Spared(SetStatus(s.hist, s.handles[k].cur, status), s.handles[h], res)
  {
    var hist' := SetStatus(s.hist, s.handles[k].cur, status);
    forall i | 0 <= i < |hist'| && hist'[i].status.Committed? && Kills(hist'[i].log, res)
      ensures OnlyBehind(s.handles[h], i)
    {
      if i == s.handles[k].cur {
        KillsTouch(s.handles[k].log, res);
        BehindHolder(s, k, h, res.obj);
      }
    }
  }

  lemma ItemSpared(r: RState, r': RState, hd: Handle, hd': Handle, h: nat, x: nat, item: LogItem)
    requires ItemSafe(r, hd, h, x, item) && SameCells(r, r')
    requires forall res: Res :: res.obj == item.Obj() && Spared(r.stm.hist, hd, res) ==> Spared(r'.stm.hist, hd', res)
    ensures ItemSafe(r', hd', h, x, item)
  {
  }

  /** A decision changes the record, the deciding handle and nothing else that matters here. */
  ghost predicate Decides(s: State, s': State, h: nat, status: Status) {
    && h < |s.handles| && |s'.handles| == |s.handles|
    && s.handles[h].pc.Validating? && s.handles[h].cur < |s.hist|
    && s'.hist == SetStatus(s.hist, s.handles[h].cur, status)
    && s'.queue == s.queue && s'.done == s.done
    && (forall k :: 0 <= k < |s.handles| && k != h ==> s'.handles[k] == s.handles[k])
    && s'.handles[h].log == s.handles[h].log
    && (status.Committed? ==> InCommit(s'.handles[h].pc) && s'.handles[h].cur == s.handles[h].cur)
  }

  lemma ItemDecided(r: RState, r': RState, k: nat, status: Status, h: nat, x: nat)
    requires Inv(r.stm) && ItemsSafe(r) && SameCells(r, r') && Decides(r.stm, r'.stm, k, status)
    requires (status.Committed? || status.Rejected?) && r.stm.hist[r.stm.handles[k].cur].log == r.stm.handles[k].log
    requires h < |r.stm.handles| && x < |r.stm.handles[h].log|
    ensures ItemSafe(r', r'.stm.handles[h], h, x, r.stm.handles[h].log[x])
  {
    var item := r.stm.handles[h].log[x];
    assert Touches(r.stm.handles[h].log, item.Obj()) && ItemSafe(r, r.stm.handles[h], h, x, item);
    forall res: Res | res.obj == item.Obj() && Spared(r.stm.hist, r.stm.handles[h], res)
      ensures Spared(r'.stm.hist, r'.stm.handles[h], res)
    {
      if h == k {
        OwnDecided(r.stm, h, r'.stm.handles[h], res, status);
      } else {
        OtherDecided(r.stm, k, h, res, status);
      }
    }
    ItemSpared(r, r', r.stm.handles[h], r'.stm.handles[h], h, x, item);
  }

  lemma ItemsDecided(r: RState, r': RState, k: nat, status: Status)
    requires Inv(r.stm) && ItemsSafe(r) && SameCells(r, r') && Decides(r.stm, r'.stm, k, status)
    requires (status.Committed? || status.Rejected?) && r.stm.hist[r.stm.handles[k].cur].log == r.stm.handles[k].log
    ensures ItemsSafe(r')
  {
    forall h, x | 0 <= h < |r'.stm.handles| && 0 <= x < |r'.stm.handles[h].log|
      ensures ItemSafe(r', r'.stm.handles[h], h, x, r'.stm.handles[h].log[x])
    {
      ItemDecided(r, r', k, status, h, x);
    }
  }

  lemma PastDecided(r: RState, r': RState, i: nat, status: Status)
    requires Past(r) && SameCells(r, r') && i < |r.stm.hist| && r'.stm.hist == SetStatus(r.stm.hist, i, status)
    ensures Past(r')
  {
    KeptPast(r, r');
  }

  lemma DecidedIds(r: RState, r': RState)
    requires Ids(r) && SameCells(r, r') && r'.stm.queue == r.stm.queue && r'.stm.done == r.stm.done
    requires |r.stm.hist| <= |r'.stm.hist|
    requires forall i :: 0 <= i < |r.stm.hist| && r.stm.hist[i].status.Committed? ==> r'.stm.hist[i] == r.stm.hist[i]
    ensures Ids(r')
  {
    forall o: nat | o in r'.nodes && Cell(r'.birth, o) != 0 && o !in r'.undone
      ensures Cell(r'.ids, o) == Cell(r'.birth, o) || Collected(r'.stm, o)
    {
      if Collected(r.stm, o) {
        CollectedKept(r.stm, r'.stm, o);
      }
    }
  }

  lemma DecidedRest(r: RState, r': RState, k: nat)
    requires Creations(r) && Texts(r) && SameCells(r, r')
    requires k < |r.stm.handles| && |r'.stm.handles| == |r.stm.handles|
    requires Active(r.stm.handles[k].pc)
    requires forall h :: 0 <= h < |r.stm.handles| ==> r'.stm.handles[h].log == r.stm.handles[h].log
    requires forall h :: 0 <= h < |r.stm.handles| && h != k ==> r'.stm.handles[h] == r.stm.handles[h]
    ensures Creations(r') && Texts(r')
  {
    forall h | 0 <= h < |r'.stm.handles| ensures Stored(r', r'.stm.handles[h].log) {
      assert Stored(r, r.stm.handles[h].log);
    }
  }

  // ----- a new log item

  /** Only cells nothing refers to yet may change. */
  ghost predicate FreshCells(r: RState, r': RState) {
    && r'.nodes == r.nodes && r'.texts == r.texts && (forall o: nat :: o in r'.undone <==> o in r.undone)
    && (forall o: nat :: Cell(r.birth, o) != 0 ==> Cell(r'.birth, o) == Cell(r.birth, o) && Cell(r'.ids, o) == Cell(r.ids, o))
    && (forall b: nat :: HomeOf(r.home, b).Born? ==> HomeOf(r'.home, b) == HomeOf(r.home, b) && Cell(r'.text, b) == Cell(r.text, b))
  }

  lemma ItemFresh(r: RState, r': RState, hd: Handle, hd': Handle, h: nat, x: nat, item: LogItem)
    requires ItemSafe(r, hd, h, x, item) && FreshCells(r, r') && r'.stm.hist == r.stm.hist
    requires hd'.pc == hd.pc && hd'.cur == hd.cur
    ensures ItemSafe(r', hd', h, x, item)
  {
    forall res | Spared(r.stm.hist, hd, res) ensures Spared(r'.stm.hist, hd', res) {
    }
  }

  /** The log of `h` grows by one item. */
  ghost predicate Grows(s: State, s': State, h: nat, item: LogItem) {
    && h < |s.handles| && |s'.handles| == |s.handles|
    && s'.hist == s.hist && s'.queue == s.queue && s'.done == s.done
    && s.handles[h].pc.Running?
    && s'.handles[h] == s.handles[h].(log := s.handles[h].log + [item])
    && (forall k :: 0 <= k < |s.handles| && k != h ==> s'.handles[k] == s.handles[k])
  }

  ghost predicate Logs(r: RState, r': RState, h: nat, item: LogItem) {
    Grows(r.stm, r'.stm, h, item) && FreshCells(r, r')
  }

  lemma LoggedItem(r: RState, r': RState, h: nat, item: LogItem, k: nat, x: nat)
    requires ItemsSafe(r) && Logs(r, r', h, item)
    requires k < |r'.stm.handles| && k < |r.stm.handles| && x < |r.stm.handles[k].log| && x < |r'.stm.handles[k].log|
    ensures ItemSafe(r', r'.stm.handles[k], k, x, r'.stm.handles[k].log[x])
  {
    assert r'.stm.handles[k].log[x] == r.stm.handles[k].log[x];
    ItemFresh(r, r', r.stm.handles[k], r'.stm.handles[k], k, x, r.stm.handles[k].log[x]);
  }

  lemma LoggedItems(r: RState, r': RState, h: nat, item: LogItem)
    requires ItemsSafe(r) && Logs(r, r', h, item) && ItemSafe(r', r'.stm.handles[h], h, |r.stm.handles[h].log|, item)
    ensures ItemsSafe(r')
  {
    forall k, x | 0 <= k < |r'.stm.handles| && 0 <= x < |r'.stm.handles[k].log|
      ensures ItemSafe(r', r'.stm.handles[k], k, x, r'.stm.handles[k].log[x])
    {
      if x < |r.stm.handles[k].log| {
        LoggedItem(r, r', h, item, k, x);
      }
    }
  }

  lemma LoggedCreation(r: RState, r': RState, h: nat, item: LogItem, k: nat, x: nat, o: nat)
    requires Creations(r) && Logs(r, r', h, item)
    requires item.Noted? && item.note.NodeAlloc? ==>
               forall j :: 0 <= j < |r.stm.handles| ==> !Touches(r.stm.handles[j].log, item.noteObj)
    requires forall j :: 0 <= j < |r.stm.handles| && j != h && Active(r.stm.handles[j].pc) ==>
               !Touches(r.stm.handles[j].log, item.Obj())
    requires k < |r'.stm.handles| && x < |r'.stm.handles[k].log| && IsCreation(r'.stm.handles[k].log[x], o)
    ensures !Touches(r'.stm.handles[k].log[..x], o)
    ensures Active(r'.stm.handles[k].pc) ==>
              forall j :: 0 <= j < |r'.stm.handles| && j != k ==> !Touches(r'.stm.handles[j].log, o)
  {
    var log, log' := r.stm.handles[k].log, r'.stm.handles[k].log;
    if x < |log| {
      assert log'[..x] == log[..x] && log'[x] == log[x];
      if k != h && Active(r.stm.handles[k].pc) {
        assert log[x].Obj() == o;
        assert Touches(log, o);
        GrownTouches(r.stm.handles[h].log, item, o);
      }
    } else {
      assert log'[..x] == log;
    }
  }

  lemma LoggedCreations(r: RState, r': RState, h: nat, item: LogItem)
    requires Creations(r) && Logs(r, r', h, item)
    requires item.Noted? && item.note.NodeAlloc? ==>
               forall k :: 0 <= k < |r.stm.handles| ==> !Touches(r.stm.handles[k].log, item.noteObj)
    requires forall k :: 0 <= k < |r.stm.handles| && k != h && Active(r.stm.handles[k].pc) ==>
               !Touches(r.stm.handles[k].log, item.Obj())
    ensures Creations(r')
  {
    forall k, x | 0 <= k < |r'.stm.handles| && 0 <= x < |r'.stm.handles[k].log|
                  && r'.stm.handles[k].log[x].Noted? && r'.stm.handles[k].log[x].note.NodeAlloc?
      ensures !Touches(r'.stm.handles[k].log[..x], r'.stm.handles[k].log[x].noteObj)
      ensures Active(r'.stm.handles[k].pc) ==>
                forall j :: 0 <= j < |r'.stm.handles| && j != k ==> !Touches(r'.stm.handles[j].log, r'.stm.handles[k].log[x].noteObj)
    {
      LoggedCreation(r, r', h, item, k, x, r'.stm.handles[k].log[x].noteObj);
    }
  }

  lemma GrownTouches(log: seq<LogItem>, item: LogItem, o: nat)
    requires !Touches(log, o) && item.Obj() != o
    ensures !Touches(log + [item], o)
  {
  }

  lemma StoredGrows(r: RState, log: seq<LogItem>, item: LogItem)
    requires Stored(r, log)
    requires item.Wrote? && item.loc in r.texts ==> item.newVal >= 0 && Allocates(log, item.newVal)
    ensures Stored(r, log + [item])
  {
    var log' := log + [item];
    forall x | 0 <= x < |log'| && log'[x].Wrote? && log'[x].loc in r.texts
      ensures log'[x].newVal >= 0 && Allocates(log'[..x], log'[x].newVal)
    {
      if x < |log| {
        assert log'[..x] == log[..x] && log'[x] == log[x];
      } else {
        assert log'[..x] == log;
      }
    }
  }

  lemma LoggedTexts(r: RState, r': RState, h: nat, item: LogItem)
    requires Texts(r) && Logs(r, r', h, item)
    requires item.Wrote? && item.loc in r.texts ==> item.newVal >= 0 && Allocates(r.stm.handles[h].log, item.newVal)
    ensures Texts(r')
  {
    forall k | 0 <= k < |r'.stm.handles| ensures Stored(r', r'.stm.handles[k].log) {
      assert Stored(r, r.stm.handles[k].log);
      if k == h {
        StoredGrows(r, r.stm.handles[h].log, item);
      }
    }
  }

  lemma LoggedRest(r: RState, r': RState, h: nat, item: LogItem)
    requires Past(r) && Ids(r) && Logs(r, r', h, item)
    requires forall o: nat :: Cell(r.birth, o) == 0 && Cell(r'.birth, o) != 0 ==> Cell(r'.ids, o) == Cell(r'.birth, o)
    ensures Past(r') && Ids(r')
  {
    forall i | 0 <= i < |r'.stm.hist| ensures HistItems(r', r'.stm.hist[i].log) {
      assert HistItems(r, r.stm.hist[i].log);
    }
    forall o: nat | o in r'.nodes && Cell(r'.birth, o) != 0 && o !in r'.undone
      ensures Cell(r'.ids, o) == Cell(r'.birth, o) || Collected(r'.stm, o)
    {
      if Cell(r.birth, o) != 0 && Collected(r.stm, o) {
        CollectedKept(r.stm, r'.stm, o);
      }
    }
  }

  /** A node the transaction may reach, and holds, has never been freed. */
  lemma ReachedNode(r: RState, h: nat, o: nat)
    requires RInv(r) && h < |r.stm.handles| && r.stm.handles[h].pc.Running?
    requires r.stm.locks[o] == Held(h) && Reaches(r, h, o) && o in r.nodes
    ensures NodeSafe(r, r.stm.handles[h], o)
    ensures forall i :: 0 <= i < |r.stm.hist| && r.stm.hist[i].status.Committed? ==> !Deletes(r.stm.hist[i].log, o)
  {
    assert LockOk(r.stm, o);
    forall i | 0 <= i < |r.stm.hist| && r.stm.hist[i].status.Committed? ensures !Deletes(r.stm.hist[i].log, o) {
      if Deletes(r.stm.hist[i].log, o) {
        KillsTouch(r.stm.hist[i].log, NodeRes(o));
      }
    }
    assert !Collected(r.stm, o);
  }

  lemma FreshBlock(r: RState, h: nat, o: nat, b: nat)
    requires Past(r) && h < |r.stm.handles| && HomeOf(r.home, b).Unborn?
    requires o in r.nodes ==>
               forall i :: 0 <= i < |r.stm.hist| && r.stm.hist[i].status.Committed? ==> !Deletes(r.stm.hist[i].log, o)
    ensures Spared(r.stm.hist, r.stm.handles[h], BlockRes(o, b))
  {
    forall i | 0 <= i < |r.stm.hist| && r.stm.hist[i].status.Committed?
      ensures !Kills(r.stm.hist[i].log, BlockRes(o, b))
    {
      var log := r.stm.hist[i].log;
      assert HistItems(r, log);
      if o in r.nodes {
        forall x | 0 <= x < |log| ensures log[x] != Noted(o, NodeDelete) {
          assert !Kills(log, NodeRes(o));
        }
      }
    }
  }

  lemma FreshNode(r: RState, h: nat, o: nat)
    requires Past(r) && ItemsSafe(r) && h < |r.stm.handles| && Cell(r.birth, o) == 0 && o in r.nodes
    ensures Spared(r.stm.hist, r.stm.handles[h], NodeRes(o))
    ensures forall k :: 0 <= k < |r.stm.handles| ==> !Touches(r.stm.handles[k].log, o)
  {
    forall i | 0 <= i < |r.stm.hist| ensures !Kills(r.stm.hist[i].log, NodeRes(o)) {
      assert HistItems(r, r.stm.hist[i].log);
    }
    forall k | 0 <= k < |r.stm.handles| ensures !Touches(r.stm.handles[k].log, o) {
      forall x | 0 <= x < |r.stm.handles[k].log| ensures r.stm.handles[k].log[x].Obj() != o {
        assert ItemSafe(r, r.stm.handles[k], k, x, r.stm.handles[k].log[x]);
      }
    }
  }

  // ----- undoing the newest log item

  /** The log of `h` loses its newest item. */
  ghost predicate Shrinks(s: State, s': State, h: nat) {
    && h < |s.handles| && |s'.handles| == |s.handles|
    && s'.hist == s.hist && s'.queue == s.queue && s'.done == s.done
    && Active(s.handles[h].pc) && s.handles[h].log != []
    && s'.handles[h] == s.handles[h].(log := DropLast(s.handles[h].log))
    && (forall k :: 0 <= k < |s.handles| && k != h ==> s'.handles[k] == s.handles[k])
  }

  /** Undoing `item` frees the node it created or the block it allocated. */
  ghost predicate RolledCells(r: RState, r': RState, item: LogItem) {
    && r'.nodes == r.nodes && r'.texts == r.texts && r'.birth == r.birth && r'.home == r.home
    && (forall o: nat :: o in r'.undone <==> o in r.undone || IsCreation(item, o))
    && (forall o: nat :: !IsCreation(item, o) ==> Cell(r'.ids, o) == Cell(r.ids, o))
    && (forall b: nat :: !IsBlock(item, b) ==> Cell(r'.text, b) == Cell(r.text, b))
  }

  lemma ItemRolled(r: RState, r': RState, hd: Handle, h: nat, x: nat, item: LogItem, last: LogItem)
    requires ItemSafe(r, hd, h, x, item) && RolledCells(r, r', last) && r'.stm.hist == r.stm.hist
    requires !IsCreation(last, item.Obj())
    requires last.Noted? && last.note.BlockAlloc? ==> HomeOf(r.home, last.note.block).Born? && HomeOf(r.home, last.note.block) != Born(item.Obj(), h, x)
    ensures ItemSafe(r', hd, h, x, item)
  {
  }

  lemma RolledItems(r: RState, r': RState, h: nat)
    requires ItemsSafe(r) && Creations(r) && Shrinks(r.stm, r'.stm, h)
    requires RolledCells(r, r', Last(r.stm.handles[h].log))
    ensures ItemsSafe(r')
  {
    var y := |r.stm.handles[h].log| - 1;
    var last := r.stm.handles[h].log[y];
    assert ItemSafe(r, r.stm.handles[h], h, y, last);
    forall k, x | 0 <= k < |r'.stm.handles| && 0 <= x < |r'.stm.handles[k].log|
      ensures ItemSafe(r', r'.stm.handles[k], k, x, r'.stm.handles[k].log[x])
    {
      var item := r.stm.handles[k].log[x];
      assert r'.stm.handles[k].log[x] == item && ItemSafe(r, r.stm.handles[k], k, x, item);
      RolledNoCreation(r, h, k, x);
      ItemRolled(r, r', r.stm.handles[k], k, x, item, last);
      ItemMoved(r', r.stm.handles[k], r'.stm.handles[k], k, x, item);
    }
  }

  lemma ItemMoved(r: RState, hd: Handle, hd': Handle, h: nat, x: nat, item: LogItem)
    requires ItemSafe(r, hd, h, x, item) && hd'.pc == hd.pc && hd'.cur == hd.cur
    ensures ItemSafe(r, hd', h, x, item)
  {
    forall res | Spared(r.stm.hist, hd, res) ensures Spared(r.stm.hist, hd', res) {
    }
  }

  /** No remaining item touches a node whose creation is undone. */
  lemma RolledNoCreation(r: RState, h: nat, k: nat, x: nat)
    requires Creations(r) && h < |r.stm.handles| && k < |r.stm.handles| && x < |r.stm.handles[k].log|
    requires Active(r.stm.handles[h].pc) && r.stm.handles[h].log != []
    requires k == h ==> x < |r.stm.handles[h].log| - 1
    ensures !IsCreation(r.stm.handles[h].log[|r.stm.handles[h].log| - 1], r.stm.handles[k].log[x].Obj())
  {
    var y := |r.stm.handles[h].log| - 1;
    var last := r.stm.handles[h].log[y];
    if last.Noted? && last.note.NodeAlloc? {
      if k == h {
        assert !Touches(r.stm.handles[h].log[..y], last.noteObj);
        assert r.stm.handles[h].log[..y][x].Obj() != last.noteObj;
      } else {
        assert !Touches(r.stm.handles[k].log, last.noteObj);
      }
    }
  }

  lemma RolledCreation(r: RState, r': RState, h: nat, k: nat, x: nat, o: nat)
    requires Creations(r) && Shrinks(r.stm, r'.stm, h)
    requires k < |r'.stm.handles| && x < |r'.stm.handles[k].log| && IsCreation(r'.stm.handles[k].log[x], o)
    ensures !Touches(r'.stm.handles[k].log[..x], o)
    ensures Active(r'.stm.handles[k].pc) ==>
              forall j :: 0 <= j < |r'.stm.handles| && j != k ==> !Touches(r'.stm.handles[j].log, o)
  {
    assert r'.stm.handles[k].log[..x] == r.stm.handles[k].log[..x];
    assert IsCreation(r.stm.handles[k].log[x], o);
    forall j | Active(r'.stm.handles[k].pc) && 0 <= j < |r'.stm.handles| && j != k
      ensures !Touches(r'.stm.handles[j].log, o)
    {
      TouchesLess(r.stm.handles[j].log, r'.stm.handles[j].log, o);
    }
  }

  lemma RolledCreations(r: RState, r': RState, h: nat)
    requires Creations(r) && Shrinks(r.stm, r'.stm, h)
    ensures Creations(r')
  {
    forall k, x | 0 <= k < |r'.stm.handles| && 0 <= x < |r'.stm.handles[k].log|
                  && r'.stm.handles[k].log[x].Noted? && r'.stm.handles[k].log[x].note.NodeAlloc?
      ensures !Touches(r'.stm.handles[k].log[..x], r'.stm.handles[k].log[x].noteObj)
      ensures Active(r'.stm.handles[k].pc) ==>
                forall j :: 0 <= j < |r'.stm.handles| && j != k ==> !Touches(r'.stm.handles[j].log, r'.stm.handles[k].log[x].noteObj)
    {
      RolledCreation(r, r', h, k, x, r'.stm.handles[k].log[x].noteObj);
    }
  }

  lemma TouchesLess(log: seq<LogItem>, log': seq<LogItem>, o: nat)
    requires !Touches(log, o) && |log'| <= |log| && forall i :: 0 <= i < |log'| ==> log'[i] == log[i]
    ensures !Touches(log', o)
  {
  }

  lemma StoredLess(r: RState, log: seq<LogItem>, n: nat)
    requires Stored(r, log) && n <= |log|
    ensures Stored(r, log[..n])
  {
    forall x | 0 <= x < n ensures log[..n][..x] == log[..x] {
    }
  }

  lemma RolledTexts(r: RState, r': RState, h: nat)
    requires Texts(r) && Shrinks(r.stm, r'.stm, h) && r'.texts == r.texts
    ensures Texts(r')
  {
    forall k | 0 <= k < |r'.stm.handles| ensures Stored(r', r'.stm.handles[k].log) {
      assert Stored(r, r.stm.handles[k].log);
      StoredLess(r, r.stm.handles[k].log, |r'.stm.handles[k].log|);
      assert r'.stm.handles[k].log == r.stm.handles[k].log[..|r'.stm.handles[k].log|];
    }
  }

  lemma PastSame(r: RState, r': RState)
    requires Past(r) && r'.stm.hist == r.stm.hist && r'.nodes == r.nodes && r'.birth == r.birth && r'.home == r.home
    ensures Past(r')
  {
    forall i | 0 <= i < |r'.stm.hist| ensures HistItems(r', r'.stm.hist[i].log) {
      assert HistItems(r, r.stm.hist[i].log);
    }
  }

  lemma RolledIds(r: RState, r': RState, last: LogItem)
    requires Ids(r) && RolledCells(r, r', last)
    requires r'.stm.hist == r.stm.hist && r'.stm.queue == r.stm.queue && r'.stm.done == r.stm.done
    requires forall o: nat :: IsCreation(last, o) ==> Cell(r.birth, o) != 0
    ensures Ids(r')
  {
    forall o: nat | o in r'.nodes && Cell(r'.birth, o) != 0 && o !in r'.undone
      ensures Cell(r'.ids, o) == Cell(r'.birth, o) || Collected(r'.stm, o)
    {
      if Collected(r.stm, o) {
        CollectedKept(r.stm, r'.stm, o);
      }
    }
  }

  // ----- the service thread frees the garbage of the job at the head of the queue

  ghost predicate Collects(r: RState, r': RState) {
    && Enabled(r.stm, Process)
    && r'.stm == r.stm.(done := r.stm.done + 1)
    && r'.nodes == r.nodes && r'.texts == r.texts && r'.birth == r.birth && r'.home == r.home && r'.undone == r.undone
    && var garbage := Garbage(r.stm, Process);
       && (forall o: nat :: Cell(r'.ids, o) == if Deletes(garbage, o) then 0 else Cell(r.ids, o))
       && (forall b: nat :: !Frees(garbage, b) && (HomeOf(r.home, b).Born? ==> !Deletes(garbage, HomeOf(r.home, b).obj)) ==>
             Cell(r'.text, b) == Cell(r.text, b))
  }

  /** The job at the head of the queue is ahead of any unfinished commit it conflicts with. */
  lemma HeadAhead(s: State, h: nat, o: nat)
    requires Inv(s) && Enabled(s, Process) && h < |s.handles| && InCommit(s.handles[h].pc)
    requires Touches(s.handles[h].log, o)
    requires s.queue[s.done] < |s.hist| && s.hist[s.queue[s.done]].status.Committed?
    requires Touches(s.hist[s.queue[s.done]].log, o)
    ensures s.queue[s.done] < s.handles[h].cur
  {
    var hd, i := s.handles[h], s.queue[s.done];
    Facts(s, h);
    assert WritersFirst(s.hist, s.queue, s.done);
    if i > hd.cur && (hd.pc.Stamped? || hd.pc.Validating?) {
      HolderAlone(s, h, o, i);
    }
  }

  /** The job at the head of the queue kills nothing that an unfinished commit still needs. */
  lemma HeadHarmless(s: State, h: nat, res: Res)
    requires Inv(s) && Enabled(s, Process) && h < |s.handles|
    requires Touches(s.handles[h].log, res.obj) && Spared(s.hist, s.handles[h], res)
    ensures !Kills(Garbage(s, Process), res)
  {
    if Kills(Garbage(s, Process), res) {
      KillsTouch(Garbage(s, Process), res);
      assert OnlyBehind(s.handles[h], s.queue[s.done]);
      HeadAhead(s, h, res.obj);
    }
  }

  lemma ItemCollected(r: RState, r': RState, h: nat, x: nat)
    requires Inv(r.stm) && ItemsSafe(r) && Past(r) && Collects(r, r')
    requires h < |r.stm.handles| && x < |r.stm.handles[h].log|
    ensures ItemSafe(r', r'.stm.handles[h], h, x, r'.stm.handles[h].log[x])
  {
    var hd := r.stm.handles[h];
    var item := hd.log[x];
    assert ItemSafe(r, hd, h, x, item) && Touches(hd.log, item.Obj());
    if item.Obj() in r.nodes {
      HeadHarmless(r.stm, h, NodeRes(item.Obj()));
    }
    if item.Noted? && item.note.BlockAlloc? {
      HeadHarmless(r.stm, h, BlockRes(item.noteObj, item.note.block));
      GarbageFrees(r, item.noteObj, item.note.block);
    }
    ItemUncollected(r, r', hd, h, x, item);
  }

  lemma ItemUncollected(r: RState, r': RState, hd: Handle, h: nat, x: nat, item: LogItem)
    requires Collects(r, r') && ItemSafe(r, hd, h, x, item)
    requires item.Obj() in r.nodes ==> !Deletes(Garbage(r.stm, Process), item.Obj())
    requires item.Noted? && item.note.BlockAlloc? ==>
               !Frees(Garbage(r.stm, Process), item.note.block) && !Deletes(Garbage(r.stm, Process), item.noteObj)
    ensures ItemSafe(r', hd, h, x, item)
  {
  }

  lemma GarbageFrees(r: RState, o: nat, b: nat)
    requires Past(r) && Enabled(r.stm, Process) && Belongs(r, b, o)
    requires !Kills(Garbage(r.stm, Process), BlockRes(o, b))
    ensures !Frees(Garbage(r.stm, Process), b) && !Deletes(Garbage(r.stm, Process), o)
  {
    var garbage := Garbage(r.stm, Process);
    if Frees(garbage, b) || Deletes(garbage, o) {
      assert HistItems(r, r.stm.hist[r.stm.queue[r.stm.done]].log);
      FreesKill(r, garbage, o, b);
    }
  }

  lemma CollectedIds(r: RState, r': RState)
    requires Ids(r) && Collects(r, r') && QueueOk(r.stm)
    ensures Ids(r')
  {
    forall o: nat | o in r'.nodes && Cell(r'.birth, o) != 0 && o !in r'.undone
      ensures Cell(r'.ids, o) == Cell(r'.birth, o) || Collected(r'.stm, o)
    {
      if Deletes(Garbage(r.stm, Process), o) {
        assert r'.stm.queue[r.stm.done] == r.stm.queue[r.stm.done];
        assert Collected(r'.stm, o);
      } else if Collected(r.stm, o) {
        CollectedKept(r.stm, r'.stm, o);
      }
    }
  }

  // ----- every step

  predicate ChangesLog(step: Step) {
    step.WriteStep? || step.Annotate? || step.UndoItem? || step.UndoNestedItem?
  }

  lemma KeepsAccess(s: State, step: Step)
    requires Enabled(s, step) && (Nests(step) || Accesses(step)) && !ChangesLog(step) && Phase(s.handles[step.h])
    ensures KeepsLog(s.handles[step.h], DoHandle(s, step))
  {
  }

  lemma KeepsCommit(s: State, step: Step)
    requires Enabled(s, step) && (Ends(step) || step.Release?) && !ChangesLog(step) && Phase(s.handles[step.h])
    ensures KeepsLog(s.handles[step.h], DoHandle(s, step))
  {
  }

  lemma KeepsEnd(s: State, step: Step)
    requires Enabled(s, step) && (step.Begin? || step.Released? || step.Post? || (step.Validate? && Validates(s, step.h)))
    requires Phase(s.handles[step.h])
    ensures KeepsLog(s.handles[step.h], DoHandle(s, step))
  {
  }

  predicate Plain(step: Step) {
    !ChangesLog(step) && !step.Validate? && !step.Decide? && !step.Process?
  }

  lemma OneHandle(s: State, s': State, h: nat, hd': Handle)
    requires h < |s.handles| && s'.handles == s.handles[h := hd'] && KeepsLog(s.handles[h], hd')
    ensures KeepsLogs(s, s')
  {
  }

  lemma PlainNests(s: State, step: Step)
    requires Enabled(s, step) && Plain(step) && Nests(step) && Phase(s.handles[step.h])
    ensures KeepsLogs(s, Do(s, step))
  {
    KeepsAccess(s, step);
    OneHandle(s, Do(s, step), step.h, DoHandle(s, step));
  }

  lemma PlainAccesses(s: State, step: Step)
    requires Enabled(s, step) && Plain(step) && Accesses(step) && Phase(s.handles[step.h])
    ensures KeepsLogs(s, Do(s, step))
  {
    KeepsAccess(s, step);
    OneHandle(s, Do(s, step), step.h, DoHandle(s, step));
  }

  lemma PlainEnds(s: State, step: Step)
    requires Enabled(s, step) && Plain(step) && (Ends(step) || step.Release?) && Phase(s.handles[step.h])
    ensures KeepsLogs(s, Do(s, step))
  {
    KeepsCommit(s, step);
    OneHandle(s, Do(s, step), step.h, DoHandle(s, step));
  }

  lemma PlainLast(s: State, step: Step)
    requires Enabled(s, step) && (step.Begin? || step.Released? || step.Post?) && Phase(s.handles[step.h])
    ensures KeepsLogs(s, Do(s, step))
  {
    KeepsEnd(s, step);
    OneHandle(s, Do(s, step), step.h, DoHandle(s, step));
  }

  lemma PlainHandles(s: State, step: Step)
    requires Handles(s) && Enabled(s, step) && Plain(step)
    ensures KeepsLogs(s, Do(s, step))
  {
    if HandleStep(step) {
      assert Shape(s.handles[step.h]);
      if Nests(step) {
        PlainNests(s, step);
      } else if Accesses(step) {
        PlainAccesses(s, step);
      } else if Ends(step) || step.Release? {
        PlainEnds(s, step);
      } else {
        PlainLast(s, step);
      }
    }
  }

  lemma PlainHist(s: State, step: Step)
    requires Enabled(s, step) && Plain(step)
    ensures var s' := Do(s, step);
      && NoNewCommit(s.hist, s'.hist) && QueueGrows(s, s') && s.done == s'.done
      && (forall i :: 0 <= i < |s.hist| ==> s'.hist[i].log == s.hist[i].log)
      && (forall i :: |s.hist| <= i < |s'.hist| ==>
            s'.hist[i].log == [] || exists h :: 0 <= h < |s.handles| && s'.hist[i].log == s.handles[h].log)
  {
  }

  lemma NothingFreed(s: State, step: Step)
    requires Enabled(s, step) && !step.Process? && !step.UndoItem? && !step.UndoNestedItem?
    ensures Garbage(s, step) == [] && Undone(s, step) == []
  {
  }

  lemma PlainText(r: RState, step: Step, r': RState)
    requires Enabled(r.stm, step) && Garbage(r.stm, step) == [] && Undone(r.stm, step) == [] && !step.Annotate?
    requires TextNext(r, step, r')
    ensures forall b: nat :: Cell(r'.text, b) == Cell(r.text, b)
  {
    forall b: nat ensures Frozen(r, step, b) {
    }
  }

  lemma PlainIds(r: RState, step: Step, r': RState)
    requires Enabled(r.stm, step) && Garbage(r.stm, step) == [] && Undone(r.stm, step) == [] && !step.Annotate?
    requires IdsNext(r, step, r') && HistoryNext(r, step, r')
    ensures forall o: nat :: Cell(r'.ids, o) == Cell(r.ids, o)
    ensures forall o: nat :: o in r'.undone <==> o in r.undone
  {
  }

  lemma PlainCells(r: RState, step: Step, r': RState)
    requires Enabled(r.stm, step) && !ChangesLog(step) && !step.Process? && CellsNext(r, step, r')
    ensures SameCells(r, r')
  {
    NothingFreed(r.stm, step);
    PlainText(r, step, r');
    PlainIds(r, step, r');
  }

  lemma PlainStep(r: RState, step: Step, r': RState)
    requires RInv(r) && RNext(r, step, r') && Plain(step)
    ensures Layer(r')
  {
    PlainCells(r, step, r');
    PlainHandles(r.stm, step);
    PlainHist(r.stm, step);
    LayerKept(r, r');
  }

  lemma ValidateSame(s: State, h: nat)
    requires Inv(s) && Enabled(s, Validate(h)) && Validates(s, h)
    ensures var s' := Do(s, Validate(h));
      KeepsLogs(s, s') && s'.hist == s.hist && s'.queue == s.queue && s'.done == s.done
  {
    Facts(s, h);
    KeepsEnd(s, Validate(h));
    ValidateIs(s, h);
    OneHandle(s, Do(s, Validate(h)), h, DoHandle(s, Validate(h)));
  }

  lemma ValidateIs(s: State, h: nat)
    requires Enabled(s, Validate(h)) && Validates(s, h)
    ensures var s' := Do(s, Validate(h)); s'.hist == s.hist && s'.queue == s.queue && s'.done == s.done
    ensures Do(s, Validate(h)).handles == s.handles[h := DoHandle(s, Validate(h))]
  {
  }

  lemma ValidateLayer(r: RState, h: nat, r': RState)
    requires RInv(r) && RNext(r, Validate(h), r')
    ensures Layer(r')
  {
    PlainCells(r, Validate(h), r');
    if Validates(r.stm, h) {
      ValidateSame(r.stm, h);
      LayerKept(r, r');
    } else {
      Facts(r.stm, h);
      RejectLayer(r, h, r');
    }
  }

  lemma RejectEffect(s: State, h: nat)
    requires Enabled(s, Validate(h)) && !Validates(s, h)
    ensures Decides(s, Do(s, Validate(h)), h, Rejected)
  {
  }

  lemma DecideEffect(s: State, h: nat)
    requires Enabled(s, Decide(h))
    ensures Decides(s, Do(s, Decide(h)), h, Committed)
  {
  }

  lemma DecidedLayer(r: RState, r': RState, h: nat, status: Status)
    requires Inv(r.stm) && ItemsSafe(r) && Decides(r.stm, r'.stm, h, status) && SameCells(r, r')
    requires status.Committed? || status.Rejected?
    requires r.stm.hist[r.stm.handles[h].cur].log == r.stm.handles[h].log
    ensures ItemsSafe(r')
  {
    ItemsDecided(r, r', h, status);
  }

  lemma DecidedLogs(r: RState, r': RState, h: nat, status: Status)
    requires Creations(r) && Texts(r) && Decides(r.stm, r'.stm, h, status) && SameCells(r, r')
    ensures Creations(r') && Texts(r')
  {
    DecidedRest(r, r', h);
  }

  lemma DecidedPast(r: RState, r': RState, h: nat, status: Status)
    requires Past(r) && Ids(r) && Decides(r.stm, r'.stm, h, status) && SameCells(r, r')
    requires r.stm.hist[r.stm.handles[h].cur].status.Pending?
    ensures Past(r') && Ids(r')
  {
    PastDecided(r, r', r.stm.handles[h].cur, status);
    DecidedIds(r, r');
  }

  lemma RejectLayer(r: RState, h: nat, r': RState)
    requires RInv(r) && Enabled(r.stm, Validate(h)) && !Validates(r.stm, h) && r'.stm == Do(r.stm, Validate(h))
    requires SameCells(r, r')
    ensures Layer(r')
  {
    Facts(r.stm, h);
    RejectEffect(r.stm, h);
    DecidedLayer(r, r', h, Rejected);
    DecidedLogs(r, r', h, Rejected);
    DecidedPast(r, r', h, Rejected);
  }

  lemma DecideLayer(r: RState, h: nat, r': RState)
    requires RInv(r) && RNext(r, Decide(h), r')
    ensures Layer(r')
  {
    PlainCells(r, Decide(h), r');
    Facts(r.stm, h);
    DecideEffect(r.stm, h);
    DecidedLayer(r, r', h, Committed);
    DecidedLogs(r, r', h, Committed);
    DecidedPast(r, r', h, Committed);
  }

  lemma ShrinksNow(s: State, step: Step)
    requires Enabled(s, step) && (step.UndoItem? || step.UndoNestedItem?)
    ensures s.handles[step.h].log != [] && Shrinks(s, Do(s, step), step.h)
    ensures Undone(s, step) == [Last(s.handles[step.h].log)] && Garbage(s, step) == []
  {
  }

  lemma RolledNow(r: RState, step: Step, r': RState, last: LogItem)
    requires Enabled(r.stm, step) && !step.Annotate? && CellsNext(r, step, r')
    requires Undone(r.stm, step) == [last] && Garbage(r.stm, step) == []
    ensures RolledCells(r, r', last)
  {
    forall b: nat | !IsBlock(last, b) ensures Frozen(r, step, b) {
    }
    forall o: nat ensures RollsBack(r.stm, step, o) <==> IsCreation(last, o) {
    }
  }

  lemma RolledLayer(r: RState, r': RState, h: nat)
    requires Layer(r) && Shrinks(r.stm, r'.stm, h) && RolledCells(r, r', Last(r.stm.handles[h].log))
    ensures ItemsSafe(r') && Creations(r') && Texts(r') && Ids(r')
  {
    var y := |r.stm.handles[h].log| - 1;
    assert ItemSafe(r, r.stm.handles[h], h, y, r.stm.handles[h].log[y]);
    RolledItems(r, r', h);
    RolledCreations(r, r', h);
    RolledTexts(r, r', h);
    RolledIds(r, r', Last(r.stm.handles[h].log));
  }

  lemma RollStep(r: RState, step: Step, r': RState)
    requires Layer(r) && RNext(r, step, r') && (step.UndoItem? || step.UndoNestedItem?)
    ensures Layer(r')
  {
    ShrinksNow(r.stm, step);
    RolledNow(r, step, r', Last(r.stm.handles[step.h].log));
    RolledLayer(r, r', step.h);
    PastSame(r, r');
  }

  lemma CollectStep(r: RState, r': RState)
    requires RInv(r) && RNext(r, Process, r')
    ensures Layer(r')
  {
    CollectsNow(r, r');
    forall h, x | 0 <= h < |r'.stm.handles| && 0 <= x < |r'.stm.handles[h].log|
      ensures ItemSafe(r', r'.stm.handles[h], h, x, r'.stm.handles[h].log[x])
    {
      ItemCollected(r, r', h, x);
    }
    CollectedTexts(r, r');
    PastSame(r, r');
    CollectedIds(r, r');
  }

  lemma CollectsNow(r: RState, r': RState)
    requires RNext(r, Process, r')
    ensures Collects(r, r')
  {
    forall b: nat | !Frees(Garbage(r.stm, Process), b)
                    && (HomeOf(r.home, b).Born? ==> !Deletes(Garbage(r.stm, Process), HomeOf(r.home, b).obj))
      ensures Frozen(r, Process, b)
    {
    }
  }

  lemma CollectedTexts(r: RState, r': RState)
    requires Creations(r) && Texts(r) && r'.stm.handles == r.stm.handles && r'.texts == r.texts
    ensures Creations(r') && Texts(r')
  {
    forall h | 0 <= h < |r'.stm.handles| ensures Stored(r', r'.stm.handles[h].log) {
      assert Stored(r, r.stm.handles[h].log);
    }
  }

  lemma WriteGrows(s: State, h: nat, loc: Loc, val: int)
    requires Enabled(s, WriteStep(h, loc, val))
    ensures Grows(s, Do(s, WriteStep(h, loc, val)), h, Wrote(loc, s.mem[loc], val))
    ensures s.locks[loc.obj] == Held(h)
  {
  }

  lemma AnnotateGrows(s: State, h: nat, o: nat, note: Note)
    requires Enabled(s, Annotate(h, o, note))
    ensures Grows(s, Do(s, Annotate(h, o, note)), h, Noted(o, note))
    ensures s.locks[o] == Held(h)
  {
  }

  /** Allocating a block changes only that block. */
  lemma AnnotateText(r: RState, h: nat, o: nat, note: Note, r': RState)
    requires Enabled(r.stm, Annotate(h, o, note)) && TextNext(r, Annotate(h, o, note), r')
    requires Garbage(r.stm, Annotate(h, o, note)) == [] && Undone(r.stm, Annotate(h, o, note)) == []
    requires note.BlockAlloc? ==> HomeOf(r.home, note.block).Unborn?
    ensures forall b: nat :: HomeOf(r.home, b).Born? ==> Cell(r'.text, b) == Cell(r.text, b)
    ensures note.BlockAlloc? ==> Cell(r'.text, note.block) == note.text
  {
    forall b: nat | HomeOf(r.home, b).Born? ensures Frozen(r, Annotate(h, o, note), b) {
    }
  }

  /** Creating a node changes only its id. */
  lemma AnnotateIds(r: RState, h: nat, o: nat, note: Note, r': RState)
    requires Enabled(r.stm, Annotate(h, o, note)) && IdsNext(r, Annotate(h, o, note), r')
    requires Garbage(r.stm, Annotate(h, o, note)) == [] && Undone(r.stm, Annotate(h, o, note)) == []
    requires note.NodeAlloc? ==> Cell(r.birth, o) == 0
    ensures forall p: nat :: Cell(r.birth, p) != 0 ==> Cell(r'.ids, p) == Cell(r.ids, p)
    ensures note.NodeAlloc? ==> Cell(r'.ids, o) == note.id
  {
  }

  lemma AnnotateHistory(r: RState, h: nat, o: nat, note: Note, r': RState)
    requires Enabled(r.stm, Annotate(h, o, note)) && HistoryNext(r, Annotate(h, o, note), r')
    requires Undone(r.stm, Annotate(h, o, note)) == []
    ensures r'.nodes == r.nodes && r'.texts == r.texts && (forall p: nat :: p in r'.undone <==> p in r.undone)
    ensures r'.birth == (if note.NodeAlloc? then r.birth[o := note.id] else r.birth)
    ensures r'.home == (if note.BlockAlloc? then r.home[note.block := Born(o, h, |r.stm.handles[h].log|)] else r.home)
  {
  }

  /** The cells after `Annotate`. */
  ghost predicate Annotated(r: RState, h: nat, o: nat, note: Note, r': RState) {
    && h < |r.stm.handles|
    && FreshCells(r, r')
    && r'.birth == (if note.NodeAlloc? then r.birth[o := note.id] else r.birth)
    && (note.NodeAlloc? ==> Cell(r'.ids, o) == note.id)
    && (note.BlockAlloc? ==> Cell(r'.text, note.block) == note.text)
    && r'.home == (if note.BlockAlloc? then r.home[note.block := Born(o, h, |r.stm.handles[h].log|)] else r.home)
  }

  /** What `Annotate` was allowed to do. */
  ghost predicate Allowed(r: RState, h: nat, o: nat, note: Note) {
    match note
    case NodeAlloc(id) => o in r.nodes && Cell(r.birth, o) == 0 && id != 0
    case NodeDelete => Reaches(r, h, o) && o in r.nodes
    case BlockAlloc(b, _) => Reaches(r, h, o) && HomeOf(r.home, b).Unborn?
    case BlockFree(b) => Reaches(r, h, o) && Belongs(r, b, o)
  }

  lemma AnnotateCells(r: RState, h: nat, o: nat, note: Note, r': RState)
    requires Enabled(r.stm, Annotate(h, o, note)) && CellsNext(r, Annotate(h, o, note), r')
    requires Allowed(r, h, o, note)
    ensures Annotated(r, h, o, note, r')
  {
    NothingFreed(r.stm, Annotate(h, o, note));
    AnnotateText(r, h, o, note, r');
    AnnotateIds(r, h, o, note, r');
    AnnotateHistory(r, h, o, note, r');
  }

  /** Other handles with an open transaction do not touch an object `h` holds. */
  lemma OthersElsewhere(s: State, h: nat, o: nat, k: nat)
    requires Inv(s) && s.locks[o] == Held(h) && k < |s.handles| && k != h && Active(s.handles[k].pc)
    ensures !Touches(s.handles[k].log, o)
  {
    Facts(s, k);
  }

  lemma LoggedLayer(r: RState, r': RState, h: nat, item: LogItem)
    requires Inv(r.stm) && ItemsSafe(r) && Creations(r) && Texts(r) && Logs(r, r', h, item)
    requires ItemSafe(r', r'.stm.handles[h], h, |r.stm.handles[h].log|, item)
    requires r.stm.locks[item.Obj()] == Held(h)
    requires item.Noted? && item.note.NodeAlloc? ==>
               forall k :: 0 <= k < |r.stm.handles| ==> !Touches(r.stm.handles[k].log, item.noteObj)
    requires item.Wrote? && item.loc in r.texts ==> item.newVal >= 0 && Allocates(r.stm.handles[h].log, item.newVal)
    ensures ItemsSafe(r') && Creations(r') && Texts(r')
  {
    forall k | 0 <= k < |r.stm.handles| && k != h && Active(r.stm.handles[k].pc)
      ensures !Touches(r.stm.handles[k].log, item.Obj())
    {
      OthersElsewhere(r.stm, h, item.Obj(), k);
    }
    LoggedItems(r, r', h, item);
    LoggedCreations(r, r', h, item);
    LoggedTexts(r, r', h, item);
  }

  /** The new item is safe: what it touches was reachable, or is fresh. */
  lemma WriteSafe(r: RState, h: nat, loc: Loc, val: int, r': RState)
    requires RInv(r) && Grows(r.stm, r'.stm, h, Wrote(loc, r.stm.mem[loc], val)) && SameCells(r, r')
    requires r.stm.locks[loc.obj] == Held(h) && Reaches(r, h, loc.obj)
    ensures ItemSafe(r', r'.stm.handles[h], h, |r.stm.handles[h].log|, Wrote(loc, r.stm.mem[loc], val))
  {
    if loc.obj in r.nodes {
      ReachedNode(r, h, loc.obj);
      SparedMoved(r.stm.hist, r.stm.handles[h], r'.stm.handles[h], NodeRes(loc.obj));
    }
  }

  lemma WriteCells(r: RState, h: nat, loc: Loc, val: int, r': RState)
    requires RNext(r, WriteStep(h, loc, val), r')
    ensures SameCells(r, r') && Reaches(r, h, loc.obj)
    ensures loc in r.texts ==> val >= 0 && Allocates(r.stm.handles[h].log, val)
  {
    var step := WriteStep(h, loc, val);
    NothingFreed(r.stm, step);
    PlainText(r, step, r');
    PlainIds(r, step, r');
  }

  lemma SparedMoved(hist: seq<Rec>, hd: Handle, hd': Handle, res: Res)
    requires Spared(hist, hd, res) && hd'.pc == hd.pc && hd'.cur == hd.cur
    ensures Spared(hist, hd', res)
  {
  }

  lemma WriteLayer(r: RState, h: nat, loc: Loc, val: int, r': RState)
    requires RInv(r) && Grows(r.stm, r'.stm, h, Wrote(loc, r.stm.mem[loc], val)) && SameCells(r, r')
    requires r.stm.locks[loc.obj] == Held(h) && Reaches(r, h, loc.obj)
    requires loc in r.texts ==> val >= 0 && Allocates(r.stm.handles[h].log, val)
    ensures Layer(r')
  {
    var item := Wrote(loc, r.stm.mem[loc], val);
    WriteSafe(r, h, loc, val, r');
    LoggedLayer(r, r', h, item);
    LoggedRest(r, r', h, item);
  }

  lemma AnnotatedNode(r: RState, h: nat, o: nat, note: Note, r': RState)
    requires RInv(r) && Annotated(r, h, o, note, r') && Allowed(r, h, o, note) && o in r.nodes
    requires Grows(r.stm, r'.stm, h, Noted(o, note)) && r.stm.locks[o] == Held(h)
    ensures NodeSafe(r', r'.stm.handles[h], o)
  {
    if note.NodeAlloc? {
      FreshNode(r, h, o);
      assert o !in r.undone;
    } else {
      ReachedNode(r, h, o);
    }
    SparedMoved(r.stm.hist, r.stm.handles[h], r'.stm.handles[h], NodeRes(o));
  }

  lemma AnnotatedBlock(r: RState, h: nat, o: nat, note: Note, r': RState)
    requires RInv(r) && Annotated(r, h, o, note, r') && Allowed(r, h, o, note) && note.BlockAlloc?
    requires Grows(r.stm, r'.stm, h, Noted(o, note)) && r.stm.locks[o] == Held(h)
    ensures BlockSafe(r', r'.stm.handles[h], Born(o, h, |r.stm.handles[h].log|), note.block, note.text)
  {
    if o in r.nodes {
      ReachedNode(r, h, o);
    }
    FreshBlock(r, h, o, note.block);
    SparedMoved(r.stm.hist, r.stm.handles[h], r'.stm.handles[h], BlockRes(o, note.block));
  }

  lemma AnnotatedRest(r: RState, h: nat, o: nat, note: Note, r': RState)
    requires Annotated(r, h, o, note, r') && Allowed(r, h, o, note)
    ensures note.BlockFree? ==> Belongs(r', note.freed, o)
    ensures note.NodeDelete? || note.NodeAlloc? ==> o in r'.nodes
    ensures r'.nodes == r.nodes
  {
  }

  /** The item of an annotation is safe when all it speaks of is. */
  lemma NotedSafe(r: RState, hd: Handle, h: nat, x: nat, o: nat, note: Note)
    requires o in r.nodes ==> NodeSafe(r, hd, o)
    requires note.BlockAlloc? ==> BlockSafe(r, hd, Born(o, h, x), note.block, note.text)
    requires note.BlockFree? ==> Belongs(r, note.freed, o)
    requires note.NodeDelete? || note.NodeAlloc? ==> o in r.nodes
    ensures ItemSafe(r, hd, h, x, Noted(o, note))
  {
  }

  lemma AnnotateSafe(r: RState, h: nat, o: nat, note: Note, r': RState)
    requires RInv(r) && Annotated(r, h, o, note, r') && Allowed(r, h, o, note)
    requires Grows(r.stm, r'.stm, h, Noted(o, note)) && r.stm.locks[o] == Held(h)
    ensures ItemSafe(r', r'.stm.handles[h], h, |r.stm.handles[h].log|, Noted(o, note))
  {
    AnnotatedRest(r, h, o, note, r');
    if o in r.nodes {
      AnnotatedNode(r, h, o, note, r');
    }
    if note.BlockAlloc? {
      AnnotatedBlock(r, h, o, note, r');
    }
    NotedSafe(r', r'.stm.handles[h], h, |r.stm.handles[h].log|, o, note);
  }

  lemma AnnotateLayer(r: RState, h: nat, o: nat, note: Note, r': RState)
    requires RInv(r) && Annotated(r, h, o, note, r') && Allowed(r, h, o, note)
    requires Grows(r.stm, r'.stm, h, Noted(o, note)) && r.stm.locks[o] == Held(h)
    ensures Layer(r')
  {
    AnnotateSafe(r, h, o, note, r');
    AnnotateFresh(r, h, o, note);
    LoggedLayer(r, r', h, Noted(o, note));
    AnnotateRest(r, h, o, note, r');
  }

  lemma AnnotateRest(r: RState, h: nat, o: nat, note: Note, r': RState)
    requires Past(r) && Ids(r) && Annotated(r, h, o, note, r') && Allowed(r, h, o, note) && Grows(r.stm, r'.stm, h, Noted(o, note))
    ensures Past(r') && Ids(r')
  {
    LoggedRest(r, r', h, Noted(o, note));
  }

  lemma AnnotateFresh(r: RState, h: nat, o: nat, note: Note)
    requires Past(r) && ItemsSafe(r) && Allowed(r, h, o, note) && h < |r.stm.handles|
    ensures note.NodeAlloc? ==> forall k :: 0 <= k < |r.stm.handles| ==> !Touches(r.stm.handles[k].log, o)
  {
    if note.NodeAlloc? {
      FreshNode(r, h, o);
    }
  }

  lemma WriteStepKept(r: RState, h: nat, loc: Loc, val: int, r': RState)
    requires RInv(r) && RNext(r, WriteStep(h, loc, val), r')
    ensures Layer(r')
  {
    WriteGrows(r.stm, h, loc, val);
    WriteCells(r, h, loc, val, r');
    WriteLayer(r, h, loc, val, r');
  }

  lemma NoteAllowed(r: RState, h: nat, o: nat, note: Note)
    requires Disciplined(r, Annotate(h, o, note))
    ensures Allowed(r, h, o, note)
  {
  }

  lemma AnnotateStepKept(r: RState, h: nat, o: nat, note: Note, r': RState)
    requires RInv(r) && RNext(r, Annotate(h, o, note), r')
    ensures Layer(r')
  {
    NoteAllowed(r, h, o, note);
    AnnotateGrows(r.stm, h, o, note);
    AnnotateCells(r, h, o, note, r');
    AnnotateLayer(r, h, o, note, r');
  }

  lemma ProcessStepKept(r: RState, r': RState)
    requires RInv(r) && RNext(r, Process, r')
    ensures Layer(r')
  {
    CollectStep(r, r');
  }

  lemma LogStep(r: RState, step: Step, r': RState)
    requires RInv(r) && RNext(r, step, r') && (step.WriteStep? || step.Annotate?)
    ensures Layer(r')
  {
    if step.WriteStep? {
      WriteStepKept(r, step.h, step.loc, step.val, r');
    } else {
      AnnotateStepKept(r, step.h, step.obj, step.note, r');
    }
  }

  lemma OtherStep(r: RState, step: Step, r': RState)
    requires RInv(r) && RNext(r, step, r') && (step.Validate? || step.Decide? || step.Process?)
    ensures Layer(r')
  {
    if step.Validate? {
      ValidateLayer(r, step.h, r');
    } else if step.Decide? {
      DecideLayer(r, step.h, r');
    } else {
      ProcessStepKept(r, r');
    }
  }

  lemma HardStep(r: RState, step: Step, r': RState)
    requires RInv(r) && RNext(r, step, r') && !Plain(step)
    ensures Layer(r')
  {
    if step.WriteStep? || step.Annotate? {
      LogStep(r, step, r');
    } else if ChangesLog(step) {
      RollStep(r, step, r');
    } else {
      OtherStep(r, step, r');
    }
  }

  lemma LayerStep(r: RState, step: Step, r': RState)
    requires RInv(r) && RNext(r, step, r')
    ensures Layer(r')
  {
    if Plain(step) {
      PlainStep(r, step, r');
    } else {
      HardStep(r, step, r');
    }
  }

  /** The layer's invariant is inductive. */
  lemma RStepKept(r: RState, step: Step, r': RState)
    requires RInv(r) && RNext(r, step, r')
    ensures RInv(r')
  {
    StepKept(r.stm, step);
    LayerStep(r, step, r');
  }

  ghost predicate RInit(r: RState) {
    Init(r.stm) && r.undone == iset{} && forall o: nat :: Cell(r.ids, o) == Cell(r.birth, o)
  }

  ghost predicate RRun(run: seq<RState>, steps: seq<Step>) {
    && run != [] && |run| == |steps| + 1 && RInit(run[0])
    && forall i :: 0 <= i < |steps| ==> RStepAt(run, steps, i)
  }

  ghost predicate RStepAt(run: seq<RState>, steps: seq<Step>, i: nat)
    requires i < |steps| && |run| == |steps| + 1
  {
    RNext(run[i], steps[i], run[i + 1])
  }

  /** The invariant at one point of a run, under its own name so that the induction
      below need not look inside it. */
  ghost predicate Holds(run: seq<RState>, n: nat) {
    n < |run| && RInv(run[n])
  }

  lemma RInitInv(run: seq<RState>)
    requires run != [] && RInit(run[0])
    ensures Holds(run, 0)
  {
    InitInv(run[0].stm);
  }

  lemma RRunStep(run: seq<RState>, steps: seq<Step>, n: nat, m: nat)
    requires |run| == |steps| + 1 && n < |steps| && RStepAt(run, steps, n) && m == n + 1 && Holds(run, n)
    ensures Holds(run, m)
  {
    RStepKept(run[n], steps[n], run[m]);
  }

  /** `RStepAt` at `i` and the invariant there give the invariant one later. */
  ghost predicate Carries(run: seq<RState>, i: nat) {
    Holds(run, i) ==> Holds(run, i + 1)
  }

  lemma RRunCarries(run: seq<RState>, steps: seq<Step>, i: nat)
    requires RRun(run, steps) && i < |steps|
    ensures Carries(run, i)
  {
    assert RStepAt(run, steps, i);
    if Holds(run, i) {
      RRunStep(run, steps, i, i + 1);
    }
  }

  lemma {:induction false} Inductive(p: nat -> bool, n: nat)
    requires p(0) && forall i: nat :: i < n && p(i) ==> p(i + 1)
    ensures p(n)
  {
    if n > 0 {
      Inductive(p, n - 1);
    }
  }

  lemma RRunInv(run: seq<RState>, steps: seq<Step>, n: nat)
    requires RRun(run, steps) && n < |run|
    ensures Holds(run, n)
  {
    RInitInv(run);
    forall i: nat | i < n && Holds(run, i) ensures Holds(run, i + 1) {
      RRunCarries(run, steps, i);
    }
    Inductive((i: nat) => Holds(run, i), n);
  }

  // ----- the theorem

  /** The text found in a block is the text the log put there. */
  lemma {:induction false} TextFound(r: RState, h: nat, log: seq<LogItem>, b: nat)
    requires ItemsSafe(r) && h < |r.stm.handles| && log <= r.stm.handles[h].log && Allocates(log, b)
    ensures TextOf(log, b) == Cell(r.text, b)
  {
    var x := |log| - 1;
    assert ItemSafe(r, r.stm.handles[h], h, x, r.stm.handles[h].log[x]);
    if !IsBlock(Last(log), b) {
      var i :| 0 <= i < |log| && IsBlock(log[i], b);
      assert IsBlock(DropLast(log)[i], b);
      TextFound(r, h, DropLast(log), b);
    }
  }

  lemma AllocatesMore(log: seq<LogItem>, n: nat, b: nat)
    requires n <= |log| && Allocates(log[..n], b)
    ensures Allocates(log, b)
  {
    var i :| 0 <= i < n && IsBlock(log[..n][i], b);
    assert IsBlock(log[i], b);
  }

  lemma {:induction false} BuildsMeant(r: RState, h: nat, log: seq<LogItem>)
    requires ItemsSafe(r) && Texts(r) && h < |r.stm.handles| && log <= r.stm.handles[h].log
    ensures Build(r, log) == Meant(r, r.stm.handles[h].log, log)
  {
    if log != [] {
      var all := r.stm.handles[h].log;
      var x := |log| - 1;
      BuildsMeant(r, h, DropLast(log));
      assert ItemSafe(r, r.stm.handles[h], h, x, all[x]);
      assert Stored(r, all);
      if all[x].Wrote? && all[x].loc in r.texts {
        AllocatesMore(all, x, all[x].newVal);
        TextFound(r, h, all, all[x].newVal);
      }
    }
  }

  /** Whenever a committed transaction builds its record, however many later transactions
      have run and been processed since it released its locks, every id it reads is the id
      of that node's creation and every text it reads is the one it stored. */
  lemma RecordsAreRight(run: seq<RState>, steps: seq<Step>, n: nat, h: nat)
    requires RRun(run, steps) && n < |run| && h < |run[n].stm.handles|
    requires run[n].stm.handles[h].pc.Building?
    ensures Build(run[n], run[n].stm.handles[h].log) == Meant(run[n], run[n].stm.handles[h].log, run[n].stm.handles[h].log)
    ensures forall x :: 0 <= x < |run[n].stm.handles[h].log| && run[n].stm.handles[h].log[x].Obj() in run[n].nodes ==>
              Cell(run[n].birth, run[n].stm.handles[h].log[x].Obj()) != 0
  {
    RRunInv(run, steps, n);
    BuildsMeant(run[n], h, run[n].stm.handles[h].log);
    forall x | 0 <= x < |run[n].stm.handles[h].log| && run[n].stm.handles[h].log[x].Obj() in run[n].nodes
      ensures Cell(run[n].birth, run[n].stm.handles[h].log[x].Obj()) != 0
    {
      assert ItemSafe(run[n], run[n].stm.handles[h], h, x, run[n].stm.handles[h].log[x]);
    }
  }
}
