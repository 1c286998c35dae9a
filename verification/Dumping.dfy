/** What the dump reads, in terms of the queue.

    The dump takes a node's lock between two transactions and writes what it finds in memory.
    That is what the transactions in the queue by then left of the node, although some of them
    are undecided and the records of others are not yet built: the step of the fuzzy dump that
    shows all transactions up to there is enabled. */
module Dumping {
  import opened StorageFormat
  import opened DataRecords
  import opened StmModel
  import opened StmInvariant
  import opened StmValues
  import opened StmShape
  import opened StmSteps
  import opened StmRecords
  import opened StmTheorems
  import opened Births
  import opened Images
  import opened EndToEnd
  import FuzzyDump

  // ----- where nodes with ids come from

  /** A node was created by a transaction that is open, or by one that committed. */
  ghost predicate MadeBy(s: State, o: nat) {
    || (exists h: nat, x: nat :: Creating(s, h, x, o))
    || exists i :: 0 <= i < |s.hist| && s.hist[i].status.Committed? && Makes(s.hist[i].log, o)
  }

  ghost predicate AllMade(r: RState) {
    forall o: nat :: o in r.nodes && Cell(r.birth, o) != 0 && o !in r.undone ==> MadeBy(r.stm, o)
  }

  /** Ids are those of creations that were not rolled back, and freed nodes have none. */
  ghost predicate Named(r: RState) {
    forall o: nat :: o in r.nodes && Cell(r.ids, o) != 0 ==>
      Cell(r.birth, o) != 0 && o !in r.undone && !Collected(r.stm, o)
  }

  ghost predicate DInv(r: RState) {
    AllMade(r) && Named(r)
  }

  // ----- creations stay, or are rolled back

  /** What becomes of a handle's log: it grows, it loses an item that is rolled back, or it was
      empty or is in the history. */
  ghost predicate LogEnds(hist: seq<Rec>, hd: Handle, hd': Handle, undone: seq<LogItem>) {
    || hd.log <= hd'.log
    || (hd.log != [] && hd'.log == DropLast(hd.log) && undone == [Last(hd.log)])
    || (hd.cur < |hist| && hist[hd.cur].status.Committed? && hist[hd.cur].log == hd.log)
  }

  lemma OwnLogEnds(s: State, step: Step)
    requires Enabled(s, step) && HandleStep(step) && Phase(s.handles[step.h]) && !step.Post?
    ensures var hd, hd' := s.handles[step.h], DoHandle(s, step);
      hd.log <= hd'.log || (hd.log != [] && hd'.log == DropLast(hd.log) && Undone(s, step) == [Last(hd.log)])
  {
    if !step.UndoItem? && !step.UndoNestedItem? {
      OwnLogGrows(s, step);
    }
  }

  lemma OwnLogGrows(s: State, step: Step)
    requires Enabled(s, step) && HandleStep(step) && Phase(s.handles[step.h])
    requires !step.Post? && !step.UndoItem? && !step.UndoNestedItem?
    ensures s.handles[step.h].log <= DoHandle(s, step).log
  {
  }

  ghost predicate LogsEnd(s: State, s': State, undone: seq<LogItem>) {
    |s.handles| == |s'.handles| && forall h :: 0 <= h < |s.handles| ==> LogEnds(s.hist, s.handles[h], s'.handles[h], undone)
  }

  lemma OneLogEnds(s: State, step: Step, h: nat)
    requires Inv(s) && Enabled(s, step) && h < |s.handles| == |Do(s, step).handles|
    ensures LogEnds(s.hist, s.handles[h], Do(s, step).handles[h], Undone(s, step))
  {
    if HandleStep(step) && step.h == h {
      Facts(s, h);
      if !step.Post? {
        OwnLogEnds(s, step);
      }
    }
  }

  lemma AllLogsEnd(s: State, step: Step)
    requires Inv(s) && Enabled(s, step)
    ensures LogsEnd(s, Do(s, step), Undone(s, step))
  {
    SameHandles(s, step);
    forall h | 0 <= h < |s.handles| ensures LogEnds(s.hist, s.handles[h], Do(s, step).handles[h], Undone(s, step)) {
      OneLogEnds(s, step, h);
    }
  }

  lemma CreationStays(s: State, s': State, h: nat, x: nat, o: nat, undone: seq<LogItem>)
    requires LogsEnd(s, s', undone) && |s.hist| <= |s'.hist|
    requires forall i :: 0 <= i < |s.hist| && s.hist[i].status.Committed? ==> s'.hist[i] == s.hist[i]
    requires Creating(s, h, x, o) && !Unmakes(undone, o)
    ensures MadeBy(s', o)
  {
    var hd, hd' := s.handles[h], s'.handles[h];
    assert LogEnds(s.hist, hd, hd', undone);
    if hd.log <= hd'.log {
      assert Creating(s', h, x, o);
    } else if hd.log != [] && hd'.log == DropLast(hd.log) && undone == [Last(hd.log)] {
      assert x < |hd'.log|;
      assert Creating(s', h, x, o);
    } else {
      assert Makes(s'.hist[hd.cur].log, o);
    }
  }

  lemma MadeStays(s: State, s': State, o: nat, undone: seq<LogItem>)
    requires LogsEnd(s, s', undone) && |s.hist| <= |s'.hist| && MadeBy(s, o) && !Unmakes(undone, o)
    requires forall i :: 0 <= i < |s.hist| && s.hist[i].status.Committed? ==> s'.hist[i] == s.hist[i]
    ensures MadeBy(s', o)
  {
    if h: nat, x: nat :| Creating(s, h, x, o) {
      CreationStays(s, s', h, x, o, undone);
    } else {
      var i :| 0 <= i < |s.hist| && s.hist[i].status.Committed? && Makes(s.hist[i].log, o);
      assert s'.hist[i] == s.hist[i];
    }
  }

  lemma MadeNow(s: State, h: nat, o: nat, note: Note)
    requires Enabled(s, Annotate(h, o, note)) && note.NodeAlloc?
    ensures MadeBy(Do(s, Annotate(h, o, note)), o)
  {
    var s', log := Do(s, Annotate(h, o, note)), s.handles[h].log;
    assert s'.handles[h] == DoHandle(s, Annotate(h, o, note));
    assert s'.handles[h].log == log + [Noted(o, note)];
    assert Creating(s', h, |log|, o);
  }

  /** The part of a step that concerns nodes' ids. */
  ghost predicate NodeStep(r: RState, r': RState, undone: seq<LogItem>, garbage: seq<LogItem>) {
    && r'.nodes == r.nodes
    && (forall o: nat :: o in r'.undone <==> o in r.undone || Unmakes(undone, o))
    && forall o: nat :: Deletes(garbage, o) || Unmakes(undone, o) ==> Cell(r'.ids, o) == 0
  }

  predicate NewNode(step: Step, o: nat) {
    step.Annotate? && step.note.NodeAlloc? && o == step.obj
  }

  ghost predicate IdMoves(r: RState, step: Step, r': RState, o: nat) {
    Cell(r'.ids, o) == Cell(r.ids, o) || Cell(r'.ids, o) == 0 || NewNode(step, o)
  }

  lemma NodeMoves(r: RState, step: Step, r': RState)
    requires Enabled(r.stm, step) && CellsNext(r, step, r')
    ensures NodeStep(r, r', Undone(r.stm, step), Garbage(r.stm, step))
  {
    Rolled(r, step, r');
    Zeroed(r, step, r');
  }

  lemma Rolled(r: RState, step: Step, r': RState)
    requires Enabled(r.stm, step) && forall o: nat :: o in r'.undone <==> o in r.undone || RollsBack(r.stm, step, o)
    ensures forall o: nat :: o in r'.undone <==> o in r.undone || Unmakes(Undone(r.stm, step), o)
  {
  }

  lemma Zeroed(r: RState, step: Step, r': RState)
    requires Enabled(r.stm, step) && IdsNext(r, step, r')
    ensures forall o: nat :: Deletes(Garbage(r.stm, step), o) || Unmakes(Undone(r.stm, step), o) ==> Cell(r'.ids, o) == 0
  {
  }

  lemma IdsMove(r: RState, step: Step, r': RState)
    requires Enabled(r.stm, step) && IdsNext(r, step, r')
    ensures forall o: nat :: IdMoves(r, step, r', o)
  {
  }

  lemma NodeMade(r: RState, step: Step, r': RState, undone: seq<LogItem>, garbage: seq<LogItem>, o: nat)
    requires AllMade(r) && LogsEnd(r.stm, r'.stm, undone) && HistStep(r.stm, step, r'.stm)
    requires BirthStep(r, step, r') && NodeStep(r, r', undone, garbage)
    requires NewNode(step, o) ==> MadeBy(r'.stm, o)
    requires o in r'.nodes && Cell(r'.birth, o) != 0 && o !in r'.undone
    ensures MadeBy(r'.stm, o)
  {
    if !NewNode(step, o) {
      assert Cell(r.birth, o) == Cell(r'.birth, o);
      MadeStays(r.stm, r'.stm, o, undone);
    }
  }

  lemma NewMade(s: State, step: Step, o: nat)
    requires Enabled(s, step) && NewNode(step, o)
    ensures MadeBy(Do(s, step), o)
  {
    MadeNow(s, step.h, o, step.note);
  }

  lemma AllNewMade(s: State, step: Step)
    requires Enabled(s, step)
    ensures forall o: nat :: NewNode(step, o) ==> MadeBy(Do(s, step), o)
  {
    forall o: nat | NewNode(step, o) ensures MadeBy(Do(s, step), o) {
      NewMade(s, step, o);
    }
  }

  lemma AllMadeKept(r: RState, step: Step, r': RState, undone: seq<LogItem>, garbage: seq<LogItem>)
    requires AllMade(r) && LogsEnd(r.stm, r'.stm, undone) && HistStep(r.stm, step, r'.stm)
    requires BirthStep(r, step, r') && NodeStep(r, r', undone, garbage)
    requires forall o: nat :: NewNode(step, o) ==> MadeBy(r'.stm, o)
    ensures AllMade(r')
  {
    forall o: nat | o in r'.nodes && Cell(r'.birth, o) != 0 && o !in r'.undone ensures MadeBy(r'.stm, o) {
      NodeMade(r, step, r', undone, garbage, o);
    }
  }

  // ----- ids go with freed nodes

  /** The job in slot `p` is that of a committed transaction. */
  predicate Writes(s: State, p: nat) {
    p < |s.queue| && s.queue[p] < |s.hist| && s.hist[s.queue[p]].status.Committed?
  }

  /** What the service thread has processed by a step: one job, whose garbage is freed, or none. */
  ghost predicate DoneStep(s: State, s': State, garbage: seq<LogItem>) {
    && s.queue <= s'.queue && s.done <= s'.done <= s.done + 1
    && (s'.done > s.done && Writes(s, s.done) ==> garbage == s.hist[s.queue[s.done]].log)
  }

  lemma DoneMoves(s: State, step: Step)
    requires Enabled(s, step)
    ensures DoneStep(s, Do(s, step), Garbage(s, step))
    ensures Do(s, step).done > s.done ==> step.Process? && s.done < |s.queue| && s.queue[s.done] in s.ready
  {
  }

  /** What is collected after a step was so before, or is in the garbage of the step. */
  lemma CollectedBefore(s: State, s': State, garbage: seq<LogItem>, o: nat)
    requires DoneStep(s, s', garbage) && QueueOk(s) && Collected(s', o)
    requires s'.done > s.done ==> s.done < |s.queue| && s.queue[s.done] in s.ready
    requires forall i :: 0 <= i < |s.hist| && !s.hist[i].status.Pending? ==> i < |s'.hist| && s'.hist[i] == s.hist[i]
    ensures Collected(s, o) || Deletes(garbage, o)
  {
    var p :| 0 <= p < s'.done && p < |s'.queue| && s'.queue[p] < |s'.hist|
             && s'.hist[s'.queue[p]].status.Committed? && Deletes(s'.hist[s'.queue[p]].log, o);
    assert p < |s.queue| && s'.queue[p] == s.queue[p] && s.queue[p] in s.ready;
    assert s'.hist[s.queue[p]] == s.hist[s.queue[p]];
  }

  lemma CollectedKnown(r: RState, o: nat)
    requires Past(r) && Collected(r.stm, o) && o in r.nodes
    ensures Cell(r.birth, o) != 0
  {
    var p :| 0 <= p < r.stm.done && p < |r.stm.queue| && r.stm.queue[p] < |r.stm.hist|
             && r.stm.hist[r.stm.queue[p]].status.Committed? && Deletes(r.stm.hist[r.stm.queue[p]].log, o);
    assert HistItems(r, r.stm.hist[r.stm.queue[p]].log);
  }

  /** The ids, births, records and the queue after a step. */
  ghost predicate NamesStep(r: RState, step: Step, r': RState, undone: seq<LogItem>, garbage: seq<LogItem>) {
    && BirthStep(r, step, r') && HistStep(r.stm, step, r'.stm) && FreshId(r, step)
    && NodeStep(r, r', undone, garbage) && DoneStep(r.stm, r'.stm, garbage)
    && (r'.stm.done > r.stm.done ==> r.stm.done < |r.stm.queue| && r.stm.queue[r.stm.done] in r.stm.ready)
  }

  lemma StaysUncollected(r: RState, step: Step, r': RState, undone: seq<LogItem>, garbage: seq<LogItem>, o: nat)
    requires Named(r) && QueueOk(r.stm) && Past(r) && NamesStep(r, step, r', undone, garbage) && IdMoves(r, step, r', o)
    requires o in r'.nodes && Cell(r'.ids, o) != 0
    ensures !Collected(r'.stm, o)
  {
    if Collected(r'.stm, o) {
      CollectedBefore(r.stm, r'.stm, garbage, o);
      CollectedKnown(r, o);
      assert false;
    }
  }

  lemma NameKept(r: RState, step: Step, r': RState, undone: seq<LogItem>, garbage: seq<LogItem>, o: nat)
    requires Named(r) && Ids(r) && BirthStep(r, step, r') && FreshId(r, step) && NodeStep(r, r', undone, garbage)
    requires IdMoves(r, step, r', o) && o in r'.nodes && Cell(r'.ids, o) != 0
    ensures Cell(r'.birth, o) != 0 && o !in r'.undone
  {
  }

  lemma NamedOn(r: RState, step: Step, r': RState, undone: seq<LogItem>, garbage: seq<LogItem>)
    requires Named(r) && QueueOk(r.stm) && Past(r) && Ids(r) && NamesStep(r, step, r', undone, garbage)
    requires forall o: nat :: IdMoves(r, step, r', o)
    ensures Named(r')
  {
    forall o: nat | o in r'.nodes && Cell(r'.ids, o) != 0
      ensures Cell(r'.birth, o) != 0 && o !in r'.undone && !Collected(r'.stm, o)
    {
      NameKept(r, step, r', undone, garbage, o);
      StaysUncollected(r, step, r', undone, garbage, o);
    }
  }

  lemma NamedKept(r: RState, step: Step, r': RState)
    requires Named(r) && Inv(r.stm) && Past(r) && Ids(r) && Enabled(r.stm, step) && r'.stm == Do(r.stm, step)
    requires BirthStep(r, step, r') && HistStep(r.stm, step, r'.stm) && FreshId(r, step)
    requires NodeStep(r, r', Undone(r.stm, step), Garbage(r.stm, step))
    requires forall o: nat :: IdMoves(r, step, r', o)
    ensures Named(r')
  {
    DoneMoves(r.stm, step);
    NamedOn(r, step, r', Undone(r.stm, step), Garbage(r.stm, step));
  }

  // ----- every step keeps the invariant

  lemma CellsOf(r: RState, step: Step, r': RState)
    requires RNext(r, step, r')
    ensures Enabled(r.stm, step) && r'.stm == Do(r.stm, step) && CellsNext(r, step, r')
  {
  }

  lemma AllMadeNext(r: RState, step: Step, r': RState)
    requires AllMade(r) && Inv(r.stm) && Enabled(r.stm, step) && r'.stm == Do(r.stm, step)
    requires BirthStep(r, step, r') && HistStep(r.stm, step, r'.stm)
    requires NodeStep(r, r', Undone(r.stm, step), Garbage(r.stm, step))
    ensures AllMade(r')
  {
    AllLogsEnd(r.stm, step);
    AllNewMade(r.stm, step);
    AllMadeKept(r, step, r', Undone(r.stm, step), Garbage(r.stm, step));
  }

  lemma DStepKept(r: RState, step: Step, r': RState)
    requires DInv(r) && Inv(r.stm) && Past(r) && Ids(r) && RNext(r, step, r') && FreshId(r, step)
    ensures DInv(r')
  {
    CellsOf(r, step, r');
    StepFacts(r, step, r');
    NodeMoves(r, step, r');
    IdsMove(r, step, r');
    AllMadeNext(r, step, r');
    NamedKept(r, step, r');
  }

  lemma DLayers(r: RState)
    requires RInv(r)
    ensures Inv(r.stm) && Past(r) && Ids(r)
  {
  }

  ghost predicate DHolds(run: seq<RState>, n: nat) {
    n < |run| && DInv(run[n])
  }

  lemma DStepAt(r: RState, step: Step, r': RState)
    requires DInv(r) && RInv(r) && RNext(r, step, r') && FreshId(r, step)
    ensures DInv(r')
  {
    DLayers(r);
    DStepKept(r, step, r');
  }

  lemma DRunStep(run: seq<RState>, steps: seq<Step>, n: nat, m: nat)
    requires NewDatabase(run, steps) && n < |steps| && m == n + 1 && DHolds(run, n)
    ensures DHolds(run, m)
  {
    StepFrom(run, steps, n);
    DStepAt(run[n], steps[n], run[m]);
  }

  lemma DInit(run: seq<RState>, steps: seq<Step>)
    requires NewDatabase(run, steps)
    ensures DHolds(run, 0)
  {
  }

  lemma {:induction false} DRunInv(run: seq<RState>, steps: seq<Step>, n: nat)
    requires NewDatabase(run, steps) && n < |run|
    ensures DHolds(run, n)
  {
    if n == 0 {
      DInit(run, steps);
    } else {
      DRunInv(run, steps, n - 1);
      DRunStep(run, steps, n - 1, n);
    }
  }

  // ----- what the dump finds

  /** The dump holds the lock of a node with an id, as the cursor sees to. */
  ghost predicate DumpsNode(r: RState, o: nat) {
    r.stm.dumper.DumpHolds? && r.stm.dumper.obj == o && o in r.nodes && Cell(r.ids, o) != 0
  }

  /** No open transaction has the node in its log, so a committed one created it. */
  lemma DumpedIsMade(s: State, o: nat)
    requires Inv(s) && s.dumper.DumpHolds? && s.dumper.obj == o && MadeBy(s, o)
    ensures MadeIn(s.hist, s.queue, o)
  {
    if h: nat, x: nat :| Creating(s, h, x, o) {
      Facts(s, h);
      var hd := s.handles[h];
      assert hd.log[x].Obj() == o;
      assert !Active(hd.pc);
      assert s.hist[hd.cur].status.Committed? && s.hist[hd.cur].log == hd.log;
      assert Makes(s.hist[hd.cur].log, o);
    }
    assert forall i :: 0 <= i < |s.hist| && s.hist[i].status.Committed? ==> i in s.queue;
  }

  lemma DumpedNow(s: State, o: nat, a: nat)
    requires Inv(s) && s.dumper.DumpHolds? && s.dumper.obj == o
    ensures s.mem[Loc(o, a)] == Now(s, Loc(o, a)) && NoPending(s.hist, o, -1)
  {
    assert LockOk(s, o);
  }

  /** What the queue leaves of a node does not change any more when no undecided transaction in
      it touches the node. */
  lemma {:induction false} ValueSettled(init: Memory, hist: seq<Rec>, hist': seq<Rec>, order: seq<nat>, loc: Loc)
    requires Listed(hist, order) && |hist| <= |hist'| && NoPending(hist, loc.obj, -1)
    requires forall i :: 0 <= i < |hist| ==> hist'[i].log == hist[i].log
    requires forall i :: 0 <= i < |hist| && !hist[i].status.Pending? ==> hist'[i] == hist[i]
    ensures QueueValue(init, hist', order, loc) == QueueValue(init, hist, order, loc)
  {
    if order != [] {
      var e := Last(order);
      assert e == order[|order| - 1];
      ValueSettled(init, hist, hist', DropLast(order), loc);
      if hist[e].status.Pending? {
        assert !Touches(hist[e].log, loc.obj);
        ApplyUntouched(hist'[e].log, loc, QueueValue(init, hist, DropLast(order), loc));
      }
    }
  }

  /** The whole queue leaves the committed values. */
  lemma QueueNow(s: State, loc: Loc)
    requires Inv(s)
    ensures Listed(s.hist, s.queue) && QueueValue(s.init, s.hist, s.queue, loc) == Now(s, loc)
  {
    forall p, q | 0 <= p < q < |s.queue| && Writer(s.hist, s.queue[p], loc.obj) && Writer(s.hist, s.queue[q], loc.obj)
      ensures s.queue[p] < s.queue[q]
    {
      QueueWritersInOrder(s, p, q, loc.obj);
    }
    PrefixValue(s.init, s.hist, s.queue, |s.hist|, loc);
  }

  // ----- the dump record

  /** The record of a node shows memory: what the list wrote as memory has it, the rest initial. */
  ghost predicate ShowsMemory(r: RState, R: Reading, schema: Schema, node: NodeRec, order: seq<nat>, o: nat, memory: Memory) {
    && node.ty == R.ty(IdIn(r, o)) < |schema| && |node.attrs| == |schema[node.ty]|
    && forall a :: 0 <= a < |node.attrs| ==> AttrKept(r, R, order, o, a, schema[node.ty][a], node.attrs[a], memory)
  }

  lemma AttrShown(r: RState, R: Reading, order: seq<nat>, o: nat, a: nat, t: AttrType, value: Value, memory: Memory)
    requires Orderly(r) && IsNode(r, o) && Listed(r.stm.hist, order)
    requires memory[Loc(o, a)] == QueueValue(r.stm.init, r.stm.hist, order, Loc(o, a))
    requires value == match Latest(Journal(r, R, order), IdIn(r, o), a) case None => InitValue(t) case Some(v) => v
    ensures AttrKept(r, R, order, o, a, t, value, memory)
  {
    JournalLatest(r, R, order, Loc(o, a));
  }

  lemma ContentShown(r: RState, R: Reading, schema: Schema, order: seq<nat>, o: nat, memory: Memory)
    requires Orderly(r) && IsNode(r, o) && HasTypes(schema, R) && Listed(r.stm.hist, order)
    requires MakersFirst(r.stm.hist, order, o) && MadeIn(r.stm.hist, order, o)
    requires forall a: nat :: memory[Loc(o, a)] == QueueValue(r.stm.init, r.stm.hist, order, Loc(o, a))
    ensures var content := FuzzyDump.Kept(schema, IdIn(r, o), None, Journal(r, R, order));
      content.Some? && ShowsMemory(r, R, schema, content.value, order, o, memory)
  {
    var n, ops := IdIn(r, o), Journal(r, R, order);
    JournalSeen(r, R, schema, order, o);
    ContentImage(schema, n, ops);
    var node := FuzzyDump.Kept(schema, n, None, ops).value;
    CreatorIn(r, R, order, node.ty, n);
    forall a | 0 <= a < |node.attrs|
      ensures AttrKept(r, R, order, o, a, schema[node.ty][a], node.attrs[a], memory)
    {
      AttrShown(r, R, order, o, a, schema[node.ty][a], node.attrs[a], memory);
    }
  }

  lemma {:induction false} SentPrefix(R: Reading, hist: seq<Rec>, order: seq<nat>, f: nat -> seq<DiskOp>, k: nat)
    requires Listed(hist, order) && k <= |order|
    ensures SentAs(R, hist, order[..k], f) <= SentAs(R, hist, order, f)
  {
    if k < |order| {
      SentPrefix(R, hist, DropLast(order), f, k);
      assert DropLast(order)[..k] == order[..k];
    } else {
      assert order[..k] == order;
    }
  }

  /** In `r`, a state before `r'`, the node has an id, so that no processed job deletes it. */
  lemma NotDeleted(r: RState, r': RState, o: nat)
    requires QueueOk(r.stm) && !Collected(r.stm, o) && Stays(r, r')
    ensures !DeletedIn(r'.stm.hist, r.stm.queue[..r.stm.done], o)
  {
    var order := r.stm.queue[..r.stm.done];
    forall i | i in order && i < |r'.stm.hist| && r'.stm.hist[i].status.Committed? ensures !Deletes(r'.stm.hist[i].log, o) {
      var p :| 0 <= p < |order| && order[p] == i;
      assert r.stm.queue[p] == i && i in r.stm.ready;
      assert r'.stm.hist[i] == r.stm.hist[i];
    }
  }

  /** A state of the fuzzy dump: its transactions are those of the queue in `r`, in queue order,
      and the records of the first `done` slots are written. */
  ghost predicate Mirrors(s: FuzzyDump.Sys, r: RState, R: Reading, done: nat) {
    && Listed(r.stm.hist, r.stm.queue) && done <= |r.stm.queue| && Listed(r.stm.hist, r.stm.queue[..done])
    && s.base.nodes == map[] && !s.finished
    && s.txs == SentAs(R, r.stm.hist, r.stm.queue, MeantBy(r))
    && s.written == |SentAs(R, r.stm.hist, r.stm.queue[..done], MeantBy(r))|
  }

  /** The step that dumps node `n` is enabled, showing the first `upTo` transactions, and its
      record is `node`. */
  ghost predicate CanDump(schema: Schema, s: FuzzyDump.Sys, n: nat, upTo: nat, node: NodeRec) {
    && FuzzyDump.Enabled(schema, s, FuzzyDump.DumpNode(n, upTo))
    && upTo <= |s.txs| && FuzzyDump.ContentAfter(schema, s, n, upTo) == Some(node)
  }

  /** The transactions that were queued and those that were processed, as fronts of all. */
  lemma Fronts(s: FuzzyDump.Sys, r': RState, R: Reading, order: seq<nat>, done: nat) returns (upTo: nat)
    requires Mirrors(s, r', R, done) && order <= r'.stm.queue && done <= |order|
    ensures Listed(r'.stm.hist, order) && Listed(r'.stm.hist, order[..done])
    ensures s.written <= upTo <= |s.txs| && FuzzyDump.Ops(s.txs[..upTo]) == Journal(r', R, order)
    ensures FuzzyDump.Ops(s.txs[..s.written]) == Journal(r', R, order[..done])
  {
    var hist, queue, f := r'.stm.hist, r'.stm.queue, MeantBy(r');
    assert order == queue[..|order|] && order[..done] == queue[..done];
    SentPrefix(R, hist, queue, f, |order|);
    SentPrefix(R, hist, order, f, done);
    upTo := |SentAs(R, hist, order, f)|;
    assert s.txs[..upTo] == SentAs(R, hist, order, f);
    assert s.txs[..s.written] == SentAs(R, hist, order[..done], f);
  }

  lemma DumpFits(s: FuzzyDump.Sys, r': RState, R: Reading, schema: Schema, order: seq<nat>, done: nat, o: nat, memory: Memory)
    returns (upTo: nat, node: NodeRec)
    requires Orderly(r') && HasTypes(schema, R) && IsNode(r', o) && IdIn(r', o) !in s.dumped
    requires Mirrors(s, r', R, done) && order <= r'.stm.queue && done <= |order| && Listed(r'.stm.hist, order)
    requires MakersFirst(r'.stm.hist, order, o) && MadeIn(r'.stm.hist, order, o)
    requires Listed(r'.stm.hist, order[..done]) && MakersFirst(r'.stm.hist, order[..done], o)
    requires !DeletedIn(r'.stm.hist, order[..done], o)
    requires forall a: nat :: memory[Loc(o, a)] == QueueValue(r'.stm.init, r'.stm.hist, order, Loc(o, a))
    ensures CanDump(schema, s, IdIn(r', o), upTo, node) && ShowsMemory(r', R, schema, node, order, o, memory)
  {
    upTo := Fronts(s, r', R, order, done);
    ContentShown(r', R, schema, order, o, memory);
    node := FuzzyDump.Kept(schema, IdIn(r', o), None, Journal(r', R, order)).value;
    JournalSeen(r', R, schema, order[..done], o);
  }

  lemma MadeLater(r: RState, r': RState, o: nat)
    requires Stays(r, r') && MadeIn(r.stm.hist, r.stm.queue, o)
    ensures MadeIn(r'.stm.hist, r.stm.queue, o)
  {
    var i :| i in r.stm.queue && i < |r.stm.hist| && r.stm.hist[i].status.Committed? && Makes(r.stm.hist[i].log, o);
    assert r'.stm.hist[i] == r.stm.hist[i];
  }

  lemma MemoryLater(r: RState, r': RState, o: nat)
    requires Stays(r, r') && Inv(r.stm) && r.stm.dumper.DumpHolds? && r.stm.dumper.obj == o && Listed(r'.stm.hist, r.stm.queue)
    ensures forall a: nat :: r.stm.mem[Loc(o, a)] == QueueValue(r'.stm.init, r'.stm.hist, r.stm.queue, Loc(o, a))
  {
    forall a: nat ensures r.stm.mem[Loc(o, a)] == QueueValue(r'.stm.init, r'.stm.hist, r.stm.queue, Loc(o, a)) {
      DumpedNow(r.stm, o, a);
      QueueNow(r.stm, Loc(o, a));
      ValueSettled(r.stm.init, r.stm.hist, r'.stm.hist, r.stm.queue, Loc(o, a));
    }
  }

  /** In state `n` the dump holds the lock of a node with an id.  Take the transactions as any
      later state has them in its queue.  In the fuzzy dump, which knows only those and how many
      of their records are written, the step that dumps the node is enabled, showing the
      transactions queued by state `n`; and its record is what the dump reads from memory. */
  lemma DumpIsEnabled(run: seq<RState>, steps: seq<Step>, n: nat, m: nat, o: nat, R: Reading, schema: Schema, s: FuzzyDump.Sys)
    requires NewDatabase(run, steps) && n <= m < |run| && DumpsNode(run[n], o) && HasTypes(schema, R)
    requires Mirrors(s, run[m], R, run[n].stm.done) && IdIn(run[m], o) !in s.dumped
    ensures exists upTo, node ::
      && CanDump(schema, s, IdIn(run[m], o), upTo, node)
      && ShowsMemory(run[m], R, schema, node, run[n].stm.queue, o, run[n].stm.mem)
  {
    DRunInv(run, steps, n);
    RunOrderly(run, steps, n);
    RunOrderly(run, steps, m);
    RunStays(run, steps, n, m);
    NamedIs(run[n], o);
    LaterFacts(run[n], run[m], o);
    var upTo, node := DumpFits(s, run[m], R, schema, run[n].stm.queue, run[n].stm.done, o, run[n].stm.mem);
  }

  lemma NamedIs(r: RState, o: nat)
    requires DInv(r) && Orderly(r) && DumpsNode(r, o)
    ensures IsNode(r, o) && MadeBy(r.stm, o) && !Collected(r.stm, o)
  {
  }

  /** A front of the queue, and what of it is processed, in the later state. */
  lemma LaterFronts(r: RState, r': RState, o: nat)
    requires Stays(r, r') && Inv(r'.stm) && Orderly(r') && r.stm.done <= |r.stm.queue|
    ensures var order, done, hist := r.stm.queue, r.stm.done, r'.stm.hist;
      && order <= r'.stm.queue && Listed(hist, order) && MakersFirst(hist, order, o)
      && Listed(hist, order[..done]) && MakersFirst(hist, order[..done], o)
  {
    FrontMakers(r', r.stm.queue, o);
    FrontMakers(r', r.stm.queue[..r.stm.done], o);
  }

  lemma FrontMakers(r: RState, order: seq<nat>, o: nat)
    requires Inv(r.stm) && CreatesFirst(r.stm.hist) && order <= r.stm.queue
    ensures Listed(r.stm.hist, order) && MakersFirst(r.stm.hist, order, o)
  {
    assert order == r.stm.queue[..|order|];
    QueueMakersFirst(r, |order|, o);
  }

  lemma Processed(s: State)
    requires Inv(s)
    ensures QueueOk(s) && s.done <= |s.queue|
  {
  }

  /** What the earlier state knows of the node, in terms of the later one. */
  lemma LaterFacts(r: RState, r': RState, o: nat)
    requires Stays(r, r') && Inv(r.stm) && Inv(r'.stm) && Orderly(r')
    requires DumpsNode(r, o) && IsNode(r, o) && MadeBy(r.stm, o) && !Collected(r.stm, o)
    ensures r.stm.done <= |r.stm.queue| && IsNode(r', o)
    ensures var order, done, hist := r.stm.queue, r.stm.done, r'.stm.hist;
      && order <= r'.stm.queue && Listed(hist, order) && MakersFirst(hist, order, o)
      && Listed(hist, order[..done]) && MakersFirst(hist, order[..done], o)
      && MadeIn(hist, order, o) && !DeletedIn(hist, order[..done], o)
      && forall a: nat :: r.stm.mem[Loc(o, a)] == QueueValue(r'.stm.init, hist, order, Loc(o, a))
  {
    Processed(r.stm);
    LaterFronts(r, r', o);
    DumpedIsMade(r.stm, o);
    MadeLater(r, r', o);
    MemoryLater(r, r', o);
    NotDeleted(r, r', o);
  }
}
