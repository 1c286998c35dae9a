/** From transactions to recovery.

    Loading the file that a crash left gives the nodes that a front of the output queue made,
    each attribute with the value that executing the committed transactions of that front one
    after the other leaves in memory. */
module EndToEnd {
  import opened StorageFormat
  import opened DataRecords
  import opened StmModel
  import opened StmInvariant
  import opened StmRecords
  import opened StmTheorems
  import opened Births
  import opened Images
  import FuzzyDump
  import Recovery
  import ServiceQueue
  import Durability

  /** The type of the node with an id, and what a word or text stands for in a record. */
  datatype Reading = Reading(ty: nat -> nat, show: (nat, nat, int) -> Value)

  function Id(id: int): nat {
    if id < 0 then 0 else id
  }

  function ToOp(R: Reading, d: DiskOp): Op {
    match d
    case Modify(id, a, v) => Op.Modify(Id(id), a, R.show(Id(id), a, v))
    case Create(id) => Op.Create(R.ty(Id(id)), Id(id))
    case Delete(id) => Op.Delete(Id(id))
  }

  function Spelled(R: Reading, ds: seq<DiskOp>): seq<Op> {
    if ds == [] then [] else Spelled(R, DropLast(ds)) + [ToOp(R, Last(ds))]
  }

  lemma {:induction false} SpelledJoined(R: Reading, s: seq<DiskOp>, t: seq<DiskOp>)
    ensures Spelled(R, s + t) == Spelled(R, s) + Spelled(R, t)
  {
    if t == [] {
      assert s + t == s;
    } else {
      assert DropLast(s + t) == s + DropLast(t);
      SpelledJoined(R, s, DropLast(t));
    }
  }

  // ----- the record of one transaction, seen from one node

  /** Nodes have the ids they were created with. */
  ghost predicate SettledItem(r: RState, item: LogItem) {
    && (item.Obj() in r.nodes ==> Cell(r.birth, item.Obj()) > 0)
    && (item.Noted? && (item.note.NodeAlloc? || item.note.NodeDelete?) ==> item.noteObj in r.nodes)
  }

  ghost predicate Settled(r: RState, log: seq<LogItem>) {
    forall x :: 0 <= x < |log| ==> SettledItem(r, log[x])
  }

  ghost predicate IsNode(r: RState, o: nat) {
    o in r.nodes && Cell(r.birth, o) > 0
  }

  ghost function IdIn(r: RState, o: nat): nat {
    Id(Cell(r.birth, o))
  }

  function LastWrite(log: seq<LogItem>, loc: Loc): Option<int> {
    if log == [] then None
    else if Last(log).Wrote? && Last(log).loc == loc then Some(Last(log).newVal)
    else LastWrite(DropLast(log), loc)
  }

  lemma {:induction false} LastWriteApplies(log: seq<LogItem>, loc: Loc, before: int)
    ensures ApplyAt(log, loc, before) == match LastWrite(log, loc) case None => before case Some(v) => v
  {
    if log != [] {
      LastWriteApplies(DropLast(log), loc, before);
    }
  }

  ghost function Shown(r: RState, R: Reading, all: seq<LogItem>, loc: Loc, val: int): Value {
    R.show(IdIn(r, loc.obj), loc.attr, Standing(r, all, loc, val))
  }

  ghost function ItemOps(r: RState, R: Reading, all: seq<LogItem>, item: LogItem): seq<Op> {
    Spelled(R, MeantItem(r, all, item))
  }

  function OpLatest(R: Reading, d: DiskOp, n: nat, a: nat): Option<Value> {
    if d.Modify? && Id(d.id) == n && d.attr == a then Some(R.show(n, a, d.value)) else None
  }

  lemma SingleOp(R: Reading, d: DiskOp, n: nat)
    ensures Spelled(R, [d]) == [ToOp(R, d)]
    ensures FuzzyDump.Creates([ToOp(R, d)], n) <==> d.Create? && Id(d.id) == n
    ensures FuzzyDump.Deletes([ToOp(R, d)], n) <==> d.Delete? && Id(d.id) == n
    ensures Concerns([ToOp(R, d)], n) <==> Id(d.id) == n
    ensures forall a: nat :: Latest([ToOp(R, d)], n, a) == OpLatest(R, d, n, a)
  {
    var ops := [ToOp(R, d)];
    assert DropLast([d]) == [] && ops[0] == ToOp(R, d) && ops[..0] == [];
    FuzzyDump.FrontPart(ops, n);
  }

  lemma ItemSeen(r: RState, R: Reading, all: seq<LogItem>, item: LogItem, o: nat)
    requires BirthsOk(r) && IsNode(r, o) && SettledItem(r, item)
    ensures var ops, n := ItemOps(r, R, all, item), IdIn(r, o);
      && (FuzzyDump.Creates(ops, n) <==> IsCreation(item, o))
      && (FuzzyDump.Deletes(ops, n) <==> item == Noted(o, NodeDelete))
      && (Concerns(ops, n) ==> item.Obj() == o)
      && |ops| <= 1
      && forall a: nat :: Latest(ops, n, a) ==
           if item.Wrote? && item.loc == Loc(o, a) then Some(Shown(r, R, all, item.loc, item.newVal)) else None
  {
    var ds, n := MeantItem(r, all, item), IdIn(r, o);
    assert item.Obj() in r.nodes && item.Obj() != o ==> IdIn(r, item.Obj()) != n;
    if ds != [] {
      assert ds == [ds[0]];
      SingleOp(R, ds[0], n);
    }
  }

  ghost function RecordOps(r: RState, R: Reading, all: seq<LogItem>, log: seq<LogItem>): seq<Op> {
    Spelled(R, Meant(r, all, log))
  }

  lemma RecordStep(r: RState, R: Reading, all: seq<LogItem>, log: seq<LogItem>)
    requires log != []
    ensures RecordOps(r, R, all, log) == RecordOps(r, R, all, DropLast(log)) + ItemOps(r, R, all, Last(log))
  {
    SpelledJoined(R, Meant(r, all, DropLast(log)), MeantItem(r, all, Last(log)));
  }

  lemma LogFront(log: seq<LogItem>, o: nat)
    requires log != []
    ensures Makes(log, o) <==> Makes(DropLast(log), o) || IsCreation(Last(log), o)
    ensures Deletes(log, o) <==> Deletes(DropLast(log), o) || Last(log) == Noted(o, NodeDelete)
    ensures Touches(log, o) <==> Touches(DropLast(log), o) || Last(log).Obj() == o
  {
    var front := DropLast(log);
    forall x | 0 <= x < |front| ensures front[x] == log[x] {
    }
    assert forall x :: 0 <= x < |log| ==> x == |log| - 1 || log[x] == front[x];
  }

  /** The creation of a node is the first item on it. */
  ghost predicate MakesFirst(log: seq<LogItem>, o: nat) {
    forall x :: 0 <= x < |log| && IsCreation(log[x], o) ==> !Touches(log[..x], o)
  }

  lemma MakesFirstFront(log: seq<LogItem>, o: nat)
    requires log != [] && MakesFirst(log, o)
    ensures MakesFirst(DropLast(log), o) && (IsCreation(Last(log), o) ==> !Touches(DropLast(log), o))
  {
    var front := DropLast(log);
    forall x | 0 <= x < |front| && IsCreation(front[x], o) ensures !Touches(front[..x], o) {
      assert front[x] == log[x] && front[..x] == log[..x];
    }
    assert IsCreation(log[|log| - 1], o) ==> !Touches(log[..|log| - 1], o);
  }

  /** What operations say about a node, in terms of creations, deletions and touches. */
  ghost predicate Seen(schema: Schema, ops: seq<Op>, n: nat, made: bool, deleted: bool, touched: bool) {
    && (FuzzyDump.Creates(ops, n) <==> made) && (FuzzyDump.Deletes(ops, n) <==> deleted)
    && (Concerns(ops, n) ==> touched) && CreatedFirst(schema, ops, n)
  }

  lemma SeenJoined(schema: Schema, s: seq<Op>, t: seq<Op>, n: nat, m: bool, d: bool, c: bool, m': bool, d': bool, c': bool)
    requires Seen(schema, s, n, m, d, c) && Seen(schema, t, n, m', d', c') && (m' ==> !c)
    ensures Seen(schema, s + t, n, m || m', d || d', c || c')
  {
    LivesJoined(s, t, n);
    ConcernsJoined(s, t, n);
    CreatedJoined(schema, s, t, n);
  }

  lemma NothingSeen(schema: Schema, n: nat)
    ensures Seen(schema, [], n, false, false, false)
  {
  }

  ghost predicate HasTypes(schema: Schema, R: Reading) {
    forall id: nat :: R.ty(id) < |schema|
  }

  lemma ItemTyped(R: Reading, schema: Schema, ds: seq<DiskOp>, n: nat)
    requires HasTypes(schema, R) && |ds| <= 1
    ensures CreatedFirst(schema, Spelled(R, ds), n)
  {
    if ds != [] {
      assert ds == [ds[0]];
      SingleOp(R, ds[0], n);
    }
  }

  lemma {:induction false} RecordSeen(r: RState, R: Reading, schema: Schema, all: seq<LogItem>, log: seq<LogItem>, o: nat)
    requires BirthsOk(r) && IsNode(r, o) && Settled(r, log) && MakesFirst(log, o) && HasTypes(schema, R)
    ensures Seen(schema, RecordOps(r, R, all, log), IdIn(r, o), Makes(log, o), Deletes(log, o), Touches(log, o))
  {
    if log == [] {
      NothingSeen(schema, IdIn(r, o));
    } else {
      var front, item, n := DropLast(log), Last(log), IdIn(r, o);
      RecordStep(r, R, all, log);
      LogFront(log, o);
      MakesFirstFront(log, o);
      RecordSeen(r, R, schema, all, front, o);
      assert SettledItem(r, log[|log| - 1]);
      ItemSeen(r, R, all, item, o);
      ItemTyped(R, schema, MeantItem(r, all, item), n);
      SeenJoined(schema, RecordOps(r, R, all, front), ItemOps(r, R, all, item), n, Makes(front, o), Deletes(front, o),
                 Touches(front, o), IsCreation(item, o), item == Noted(o, NodeDelete), item.Obj() == o);
    }
  }

  lemma {:induction false} RecordLatest(r: RState, R: Reading, all: seq<LogItem>, log: seq<LogItem>, loc: Loc)
    requires BirthsOk(r) && IsNode(r, loc.obj) && Settled(r, log)
    ensures Latest(RecordOps(r, R, all, log), IdIn(r, loc.obj), loc.attr) ==
      match LastWrite(log, loc) case None => None case Some(v) => Some(Shown(r, R, all, loc, v))
  {
    if log != [] {
      RecordStep(r, R, all, log);
      RecordLatest(r, R, all, DropLast(log), loc);
      assert SettledItem(r, log[|log| - 1]);
      ItemSeen(r, R, all, Last(log), loc.obj);
      LatestJoined(RecordOps(r, R, all, DropLast(log)), ItemOps(r, R, all, Last(log)), IdIn(r, loc.obj), loc.attr);
    }
  }

  // ----- the records of a list of transactions

  ghost predicate Listed(hist: seq<Rec>, order: seq<nat>) {
    forall p :: 0 <= p < |order| ==> order[p] < |hist|
  }

  /** The records of the committed transactions of a list. */
  ghost function SentAs(R: Reading, hist: seq<Rec>, order: seq<nat>, built: nat -> seq<DiskOp>): seq<seq<Op>>
    requires Listed(hist, order)
  {
    if order == [] then []
    else
      SentAs(R, hist, DropLast(order), built) +
      if hist[Last(order)].status.Committed? then [Spelled(R, built(Last(order)))] else []
  }

  ghost function MeantBy(r: RState): nat -> seq<DiskOp> {
    (i: nat) => if i < |r.stm.hist| then Meant(r, r.stm.hist[i].log, r.stm.hist[i].log) else []
  }

  /** All their operations. */
  ghost function Journal(r: RState, R: Reading, order: seq<nat>): seq<Op>
    requires Listed(r.stm.hist, order)
  {
    FuzzyDump.Ops(SentAs(R, r.stm.hist, order, MeantBy(r)))
  }

  lemma JournalStep(r: RState, R: Reading, order: seq<nat>)
    requires Listed(r.stm.hist, order) && order != []
    ensures var log := r.stm.hist[Last(order)].log;
      Journal(r, R, order) == Journal(r, R, DropLast(order)) +
        if r.stm.hist[Last(order)].status.Committed? then RecordOps(r, R, log, log) else []
  {
    var before, log := SentAs(R, r.stm.hist, DropLast(order), MeantBy(r)), r.stm.hist[Last(order)].log;
    if r.stm.hist[Last(order)].status.Committed? {
      var after := before + [RecordOps(r, R, log, log)];
      assert after[..|after| - 1] == before;
    } else {
      assert before + [] == before;
    }
  }

  ghost predicate MadeIn(hist: seq<Rec>, order: seq<nat>, o: nat) {
    exists i :: i in order && i < |hist| && hist[i].status.Committed? && Makes(hist[i].log, o)
  }

  ghost predicate DeletedIn(hist: seq<Rec>, order: seq<nat>, o: nat) {
    exists i :: i in order && i < |hist| && hist[i].status.Committed? && Deletes(hist[i].log, o)
  }

  ghost predicate TouchedIn(hist: seq<Rec>, order: seq<nat>, o: nat) {
    exists i :: i in order && Writer(hist, i, o)
  }

  ghost predicate WrittenIn(hist: seq<Rec>, order: seq<nat>, loc: Loc) {
    exists i :: i in order && i < |hist| && hist[i].status.Committed? && LastWrite(hist[i].log, loc).Some?
  }

  lemma OrderFront(order: seq<nat>)
    requires order != []
    ensures forall i :: i in order <==> i in DropLast(order) || i == Last(order)
  {
    assert order == DropLast(order) + [Last(order)];
  }

  /** No transaction of the list is in front of the creator of a node that it touches. */
  ghost predicate MakersFirst(hist: seq<Rec>, order: seq<nat>, o: nat)
    requires Listed(hist, order)
  {
    forall p, q :: 0 <= p < q < |order| && Writer(hist, order[p], o) && hist[order[q]].status.Committed? ==>
      !Makes(hist[order[q]].log, o)
  }

  lemma MakersFirstFront(hist: seq<Rec>, order: seq<nat>, o: nat)
    requires Listed(hist, order) && order != [] && MakersFirst(hist, order, o)
    ensures Listed(hist, DropLast(order)) && MakersFirst(hist, DropLast(order), o)
    ensures hist[Last(order)].status.Committed? && Makes(hist[Last(order)].log, o) ==> !TouchedIn(hist, DropLast(order), o)
  {
    var front := DropLast(order);
    forall i | i in front && Writer(hist, i, o) ensures !(hist[Last(order)].status.Committed? && Makes(hist[Last(order)].log, o)) {
      var p :| 0 <= p < |front| && front[p] == i;
      assert order[p] == i && order[|order| - 1] == Last(order);
    }
  }

  /** The records of the history are settled, with creations first. */
  ghost predicate Orderly(r: RState) {
    BirthsOk(r) && CreatesFirst(r.stm.hist) && forall i :: 0 <= i < |r.stm.hist| ==> Settled(r, r.stm.hist[i].log)
  }

  lemma OrderlyRecord(r: RState, i: nat, o: nat)
    requires Orderly(r) && i < |r.stm.hist|
    ensures Settled(r, r.stm.hist[i].log) && MakesFirst(r.stm.hist[i].log, o)
  {
    forall x | 0 <= x < |r.stm.hist[i].log| && IsCreation(r.stm.hist[i].log[x], o)
      ensures !Touches(r.stm.hist[i].log[..x], o)
    {
      assert FirstTouch(r.stm.hist, i, x, o);
    }
  }

  lemma {:induction false} JournalSeen(r: RState, R: Reading, schema: Schema, order: seq<nat>, o: nat)
    requires Orderly(r) && IsNode(r, o) && HasTypes(schema, R) && Listed(r.stm.hist, order) && MakersFirst(r.stm.hist, order, o)
    ensures Seen(schema, Journal(r, R, order), IdIn(r, o), MadeIn(r.stm.hist, order, o), DeletedIn(r.stm.hist, order, o),
                 TouchedIn(r.stm.hist, order, o))
  {
    if order == [] {
      NothingSeen(schema, IdIn(r, o));
    } else {
      var hist, front, i, n := r.stm.hist, DropLast(order), Last(order), IdIn(r, o);
      MakersFirstFront(hist, order, o);
      JournalSeen(r, R, schema, front, o);
      JournalStep(r, R, order);
      OrderFront(order);
      if hist[i].status.Committed? {
        var log := hist[i].log;
        OrderlyRecord(r, i, o);
        RecordSeen(r, R, schema, log, log, o);
        SeenJoined(schema, Journal(r, R, front), RecordOps(r, R, log, log), n, MadeIn(hist, front, o), DeletedIn(hist, front, o),
                   TouchedIn(hist, front, o), Makes(log, o), Deletes(log, o), Touches(log, o));
        assert TouchedIn(hist, order, o) <==> TouchedIn(hist, front, o) || Writer(hist, i, o);
      } else {
        assert Journal(r, R, front) + [] == Journal(r, R, front);
      }
    }
  }

  /** A value as some transaction of the list left it, shown as its record shows it. */
  ghost predicate LeftBy(r: RState, R: Reading, order: seq<nat>, loc: Loc, i: nat, word: int, value: Value) {
    && i in order && i < |r.stm.hist| && r.stm.hist[i].status.Committed?
    && LastWrite(r.stm.hist[i].log, loc) == Some(word) && value == Shown(r, R, r.stm.hist[i].log, loc, word)
  }

  /** What is recovered of a word, given what executing the list leaves there. */
  ghost predicate Tells(r: RState, R: Reading, order: seq<nat>, loc: Loc, word: int, found: Option<Value>) {
    if WrittenIn(r.stm.hist, order, loc) then found.Some? && exists i :: LeftBy(r, R, order, loc, i, word, found.value)
    else found == None
  }

  lemma {:induction false} JournalLatest(r: RState, R: Reading, order: seq<nat>, loc: Loc)
    requires Orderly(r) && IsNode(r, loc.obj) && Listed(r.stm.hist, order)
    ensures Tells(r, R, order, loc, QueueValue(r.stm.init, r.stm.hist, order, loc),
                  Latest(Journal(r, R, order), IdIn(r, loc.obj), loc.attr))
  {
    if order != [] {
      var hist, front, i := r.stm.hist, DropLast(order), Last(order);
      JournalLatest(r, R, front, loc);
      JournalStep(r, R, order);
      OrderFront(order);
      if hist[i].status.Committed? {
        var log := hist[i].log;
        OrderlyRecord(r, i, loc.obj);
        RecordLatest(r, R, log, log, loc);
        LatestJoined(Journal(r, R, front), RecordOps(r, R, log, log), IdIn(r, loc.obj), loc.attr);
        LastWriteApplies(log, loc, QueueValue(r.stm.init, hist, front, loc));
        TellsStep(r, R, order, loc);
      } else {
        assert Journal(r, R, front) + [] == Journal(r, R, front);
        TellsOn(r, R, order, loc, QueueValue(r.stm.init, hist, front, loc),
                Latest(Journal(r, R, front), IdIn(r, loc.obj), loc.attr));
      }
    }
  }

  /** The last transaction does not write the word. */
  lemma TellsOn(r: RState, R: Reading, order: seq<nat>, loc: Loc, word: int, found: Option<Value>)
    requires Listed(r.stm.hist, order) && order != [] && Tells(r, R, DropLast(order), loc, word, found)
    requires r.stm.hist[Last(order)].status.Committed? ==> LastWrite(r.stm.hist[Last(order)].log, loc) == None
    ensures Tells(r, R, order, loc, word, found)
  {
    OrderFront(order);
    if WrittenIn(r.stm.hist, order, loc) {
      var j :| j in order && j < |r.stm.hist| && r.stm.hist[j].status.Committed? && LastWrite(r.stm.hist[j].log, loc).Some?;
      assert WrittenIn(r.stm.hist, DropLast(order), loc);
      var i :| LeftBy(r, R, DropLast(order), loc, i, word, found.value);
      assert LeftBy(r, R, order, loc, i, word, found.value);
    } else if WrittenIn(r.stm.hist, DropLast(order), loc) {
      assert false;
    }
  }

  lemma TellsStep(r: RState, R: Reading, order: seq<nat>, loc: Loc)
    requires Listed(r.stm.hist, order) && order != [] && r.stm.hist[Last(order)].status.Committed?
    requires Tells(r, R, DropLast(order), loc, QueueValue(r.stm.init, r.stm.hist, DropLast(order), loc),
                   Latest(Journal(r, R, DropLast(order)), IdIn(r, loc.obj), loc.attr))
    ensures var log, front := r.stm.hist[Last(order)].log, DropLast(order);
      Tells(r, R, order, loc,
            match LastWrite(log, loc) case None => QueueValue(r.stm.init, r.stm.hist, front, loc) case Some(v) => v,
            match LastWrite(log, loc) case None => Latest(Journal(r, R, front), IdIn(r, loc.obj), loc.attr)
                                      case Some(v) => Some(Shown(r, R, log, loc, v)))
  {
    var log := r.stm.hist[Last(order)].log;
    OrderFront(order);
    match LastWrite(log, loc)
    case None =>
      TellsOn(r, R, order, loc, QueueValue(r.stm.init, r.stm.hist, DropLast(order), loc),
              Latest(Journal(r, R, DropLast(order)), IdIn(r, loc.obj), loc.attr));
    case Some(v) =>
      assert LeftBy(r, R, order, loc, Last(order), v, Shown(r, R, log, loc, v));
  }

  // ----- what is recovered of the memory

  /** A node that the list made and did not delete is there, with what the list wrote; memory
      is that of executing the committed transactions of the list, one after the other. */
  ghost predicate NodeKept(r: RState, R: Reading, schema: Schema, nodes: map<nat, NodeRec>, order: seq<nat>, o: nat)
    requires Listed(r.stm.hist, order)
  {
    var n, memory := IdIn(r, o), SerialMem(r.stm.init, r.stm.hist, order);
    && (n in nodes <==> MadeIn(r.stm.hist, order, o) && !DeletedIn(r.stm.hist, order, o))
    && (n in nodes ==>
          && nodes[n].ty == R.ty(n) < |schema| && |nodes[n].attrs| == |schema[nodes[n].ty]|
          && forall a :: 0 <= a < |nodes[n].attrs| ==> AttrKept(r, R, order, o, a, schema[nodes[n].ty][a], nodes[n].attrs[a], memory))
  }

  ghost predicate AttrKept(r: RState, R: Reading, order: seq<nat>, o: nat, a: nat, t: AttrType, value: Value, memory: Memory) {
    if WrittenIn(r.stm.hist, order, Loc(o, a)) then
      exists i :: LeftBy(r, R, order, Loc(o, a), i, memory[Loc(o, a)], value)
    else value == InitValue(t)
  }

  /** The nodes are those that the list leaves. */
  ghost predicate Remembers(r: RState, R: Reading, schema: Schema, nodes: map<nat, NodeRec>, order: seq<nat>) {
    && Listed(r.stm.hist, order)
    && (forall o: nat :: IsNode(r, o) ==> NodeKept(r, R, schema, nodes, order, o))
    && forall n :: n in nodes ==> exists o: nat :: IsNode(r, o) && IdIn(r, o) == n
  }

  lemma {:induction false} TypesOf(r: RState, R: Reading, log: seq<LogItem>, all: seq<LogItem>, ty: nat, n: nat)
    requires Op.Create(ty, n) in RecordOps(r, R, all, log) && Settled(r, log)
    ensures ty == R.ty(n) && exists o: nat :: IsNode(r, o) && IdIn(r, o) == n
  {
    var item, op := Last(log), Op.Create(ty, n);
    RecordStep(r, R, all, log);
    assert SettledItem(r, log[|log| - 1]);
    if op in ItemOps(r, R, all, item) {
      var ds := MeantItem(r, all, item);
      assert ds == [ds[0]];
      SingleOp(R, ds[0], n);
      assert IsNode(r, item.noteObj) && IdIn(r, item.noteObj) == n;
    } else {
      TypesOf(r, R, DropLast(log), all, ty, n);
    }
  }

  lemma {:induction false} CreatorIn(r: RState, R: Reading, order: seq<nat>, ty: nat, n: nat)
    requires Orderly(r) && Listed(r.stm.hist, order) && Op.Create(ty, n) in Journal(r, R, order)
    ensures ty == R.ty(n) && exists o: nat :: IsNode(r, o) && IdIn(r, o) == n
  {
    JournalStep(r, R, order);
    var i := Last(order);
    if r.stm.hist[i].status.Committed? && Op.Create(ty, n) in RecordOps(r, R, r.stm.hist[i].log, r.stm.hist[i].log) {
      OrderlyRecord(r, i, 0);
      TypesOf(r, R, r.stm.hist[i].log, r.stm.hist[i].log, ty, n);
    } else {
      CreatorIn(r, R, DropLast(order), ty, n);
    }
  }

  /** Loading transactions is applying their operations. */
  lemma {:induction false} TxsAt(schema: Schema, db: Db, txs: seq<seq<Op>>, n: nat)
    ensures FuzzyDump.At(Recovery.ApplyTxs(schema, db, txs), n)
         == FuzzyDump.State(schema, n, FuzzyDump.At(db, n), FuzzyDump.Ops(txs))
    decreases txs
  {
    if txs != [] {
      var first, rest := txs[0], txs[1..];
      TxsAt(schema, ApplyAll(schema, db, first), rest, n);
      FuzzyDump.ApplyAllAt(schema, db, first, n);
      FuzzyDump.Joined(schema, n, FuzzyDump.At(db, n), FuzzyDump.Unborn, first, FuzzyDump.Ops(rest));
      FuzzyDump.OpsConcat([first], rest);
      assert [first] + rest == txs && [first][..0] == [];
      assert FuzzyDump.Ops([first]) == [] + first == first;
    }
  }

  lemma NodeLoaded(r: RState, R: Reading, schema: Schema, nodes: map<nat, NodeRec>, order: seq<nat>, o: nat)
    requires Orderly(r) && IsNode(r, o) && HasTypes(schema, R) && Listed(r.stm.hist, order) && MakersFirst(r.stm.hist, order, o)
    requires FuzzyDump.State(schema, IdIn(r, o), None, Journal(r, R, order))
          == if IdIn(r, o) in nodes then Some(nodes[IdIn(r, o)]) else None
    ensures NodeKept(r, R, schema, nodes, order, o)
  {
    var n, ops := IdIn(r, o), Journal(r, R, order);
    JournalSeen(r, R, schema, order, o);
    Image(schema, n, ops);
    if n in nodes {
      CreatorIn(r, R, order, nodes[n].ty, n);
      forall a | 0 <= a < |nodes[n].attrs|
        ensures AttrKept(r, R, order, o, a, schema[nodes[n].ty][a], nodes[n].attrs[a], SerialMem(r.stm.init, r.stm.hist, order))
      {
        AttrLoaded(r, R, order, o, a, schema[nodes[n].ty][a], nodes[n].attrs[a]);
      }
    }
  }

  lemma AttrLoaded(r: RState, R: Reading, order: seq<nat>, o: nat, a: nat, t: AttrType, value: Value)
    requires Orderly(r) && IsNode(r, o) && Listed(r.stm.hist, order)
    requires value == match Latest(Journal(r, R, order), IdIn(r, o), a) case None => InitValue(t) case Some(v) => v
    ensures AttrKept(r, R, order, o, a, t, value, SerialMem(r.stm.init, r.stm.hist, order))
  {
    var loc := Loc(o, a);
    JournalLatest(r, R, order, loc);
    SerialMemAt(r.stm.init, r.stm.hist, order, loc);
  }

  /** The records of a list, loaded from nothing. */
  lemma ListLoaded(r: RState, R: Reading, schema: Schema, db: Db, order: seq<nat>)
    requires Orderly(r) && HasTypes(schema, R) && Listed(r.stm.hist, order) && db.nodes == map[]
    requires forall o: nat :: MakersFirst(r.stm.hist, order, o)
    ensures Remembers(r, R, schema,
                      Recovery.ApplyTxs(schema, db, SentAs(R, r.stm.hist, order, MeantBy(r))).nodes, order)
  {
    var txs := SentAs(R, r.stm.hist, order, MeantBy(r));
    var nodes := Recovery.ApplyTxs(schema, db, txs).nodes;
    forall o: nat | IsNode(r, o) ensures NodeKept(r, R, schema, nodes, order, o) {
      TxsAt(schema, db, txs, IdIn(r, o));
      NodeLoaded(r, R, schema, nodes, order, o);
    }
    forall n | n in nodes ensures exists o: nat :: IsNode(r, o) && IdIn(r, o) == n {
      TxsAt(schema, db, txs, n);
      if !FuzzyDump.Creates(Journal(r, R, order), n) {
        FuzzyDump.NoBirth(schema, n, Journal(r, R, order));
        assert false;
      }
      var i :| 0 <= i < |Journal(r, R, order)| && Journal(r, R, order)[i].Create? && Journal(r, R, order)[i].newId == n;
      CreatorIn(r, R, order, Journal(r, R, order)[i].ty, n);
    }
  }

  // ----- a front of the output queue

  /** Conflicting transactions are queued in the order of their end times, and what touches a
      node is behind its creator. */
  lemma QueueMakersFirst(r: RState, c: nat, o: nat)
    requires Inv(r.stm) && CreatesFirst(r.stm.hist) && c <= |r.stm.queue|
    ensures Listed(r.stm.hist, r.stm.queue[..c]) && MakersFirst(r.stm.hist, r.stm.queue[..c], o)
  {
    var hist, queue := r.stm.hist, r.stm.queue;
    forall p, q | 0 <= p < q < c && Writer(hist, queue[p], o) && hist[queue[q]].status.Committed?
      ensures !Makes(hist[queue[q]].log, o)
    {
      if Makes(hist[queue[q]].log, o) {
        var x :| 0 <= x < |hist[queue[q]].log| && IsCreation(hist[queue[q]].log[x], o);
        assert Writer(hist, queue[q], o);
        QueueWritersInOrder(r.stm, p, q, o);
        assert false;
      }
    }
  }

  lemma RunOrderly(run: seq<RState>, steps: seq<Step>, n: nat)
    requires NewDatabase(run, steps) && n < |run|
    ensures Inv(run[n].stm) && Orderly(run[n])
  {
    RRunInv(run, steps, n);
    CRunInv(run, steps, n);
    Layers(run[n]);
    HistorySettled(run[n]);
  }

  lemma HistorySettled(r: RState)
    requires Past(r) && BirthsOk(r)
    ensures forall i :: 0 <= i < |r.stm.hist| ==> Settled(r, r.stm.hist[i].log)
  {
    forall i | 0 <= i < |r.stm.hist| ensures Settled(r, r.stm.hist[i].log) {
      assert HistItems(r, r.stm.hist[i].log);
    }
  }

  /** Loading the records of a front of the queue, as the transactions meant them. */
  lemma QueueLoaded(run: seq<RState>, steps: seq<Step>, n: nat, c: nat, R: Reading, schema: Schema, db: Db)
    requires NewDatabase(run, steps) && n < |run| && c <= |run[n].stm.queue| && HasTypes(schema, R) && db.nodes == map[]
    ensures Listed(run[n].stm.hist, run[n].stm.queue[..c])
    ensures var r, order := run[n], run[n].stm.queue[..c];
      Remembers(r, R, schema, Recovery.ApplyTxs(schema, db, SentAs(R, r.stm.hist, order, MeantBy(r))).nodes, order)
  {
    var r := run[n];
    RunOrderly(run, steps, n);
    QueueMakersFirst(r, c, 0);
    forall o: nat ensures MakersFirst(r.stm.hist, r.stm.queue[..c], o) {
      QueueMakersFirst(r, c, o);
    }
    ListLoaded(r, R, schema, db, r.stm.queue[..c]);
  }

  // ----- the records that were built

  /** Some handle built this record for its commit, record `i` of the history. */
  ghost predicate BuiltAt(run: seq<RState>, n: nat, i: nat, ds: seq<DiskOp>, a: nat, h: nat) {
    && a <= n < |run| && h < |run[a].stm.handles|
    && run[a].stm.handles[h].pc.Building? && run[a].stm.handles[h].cur == i && ds == Build(run[a], run[a].stm.handles[h].log)
  }

  ghost predicate Built(run: seq<RState>, n: nat, i: nat, ds: seq<DiskOp>) {
    exists a: nat, h: nat :: BuiltAt(run, n, i, ds, a, h)
  }

  lemma BuiltOwn(s: State, h: nat)
    requires Inv(s) && h < |s.handles| && s.handles[h].pc.Building?
    ensures var hd := s.handles[h]; hd.cur < |s.hist| && s.hist[hd.cur].status.Committed? && s.hist[hd.cur].log == hd.log
  {
    assert Tied(s, h);
  }

  /** At that moment it is the record the transaction meant. */
  lemma BuiltThen(run: seq<RState>, steps: seq<Step>, a: nat, h: nat)
    requires NewDatabase(run, steps) && a < |run| && h < |run[a].stm.handles| && run[a].stm.handles[h].pc.Building?
    ensures var r, hd := run[a], run[a].stm.handles[h];
      && hd.cur < |r.stm.hist| && r.stm.hist[hd.cur].status.Committed? && r.stm.hist[hd.cur].log == hd.log
      && Build(r, hd.log) == Meant(r, hd.log, hd.log) && Settled(r, hd.log)
  {
    RecordsAreRight(run, steps, a, h);
    RunOrderly(run, steps, a);
    BuiltOwn(run[a].stm, h);
  }

  lemma MeantLater(r: RState, r': RState, i: nat)
    requires Stays(r, r') && i < |r.stm.hist| && r.stm.hist[i].status.Committed? && Settled(r, r.stm.hist[i].log)
    ensures i < |r'.stm.hist|
    ensures var log := r'.stm.hist[i].log; log == r.stm.hist[i].log && Meant(r', log, log) == Meant(r, log, log)
  {
    var log := r.stm.hist[i].log;
    assert forall x :: 0 <= x < |log| ==> SettledItem(r, log[x]);
    MeantStays(r, r', log, log);
  }

  /** It still is. */
  lemma BuiltIsMeant(run: seq<RState>, steps: seq<Step>, n: nat, i: nat, ds: seq<DiskOp>, a: nat, h: nat)
    requires NewDatabase(run, steps) && BuiltAt(run, n, i, ds, a, h)
    ensures i < |run[n].stm.hist| && ds == Meant(run[n], run[n].stm.hist[i].log, run[n].stm.hist[i].log)
  {
    BuiltThen(run, steps, a, h);
    RunStays(run, steps, a, n);
    MeantLater(run[a], run[n], i);
  }

  lemma {:induction false} SentSame(R: Reading, hist: seq<Rec>, order: seq<nat>, f: nat -> seq<DiskOp>, g: nat -> seq<DiskOp>)
    requires Listed(hist, order) && forall i :: i in order && hist[i].status.Committed? ==> f(i) == g(i)
    ensures SentAs(R, hist, order, f) == SentAs(R, hist, order, g)
  {
    if order != [] {
      OrderFront(order);
      SentSame(R, hist, DropLast(order), f, g);
    }
  }

  /** Every front of what is sent is what a front of the list sends. */
  lemma {:induction false} SentFront(R: Reading, hist: seq<Rec>, order: seq<nat>, f: nat -> seq<DiskOp>, j: nat) returns (p: nat)
    requires Listed(hist, order) && j <= |SentAs(R, hist, order, f)|
    ensures p <= |order| && SentAs(R, hist, order[..p], f) == SentAs(R, hist, order, f)[..j]
  {
    if j == |SentAs(R, hist, order, f)| {
      p := |order|;
      assert order[..p] == order && SentAs(R, hist, order, f)[..j] == SentAs(R, hist, order, f);
    } else {
      p := SentFront(R, hist, DropLast(order), f, j);
      assert DropLast(order)[..p] == order[..p];
      assert SentAs(R, hist, order, f)[..j] == SentAs(R, hist, DropLast(order), f)[..j];
    }
  }

  /** What was handed to the service thread: for each committed transaction in the first `c`
      slots of the queue, in their order, the record that its handle built. */
  ghost predicate HandedOver(run: seq<RState>, n: nat, c: nat, R: Reading, built: nat -> seq<DiskOp>, txs: seq<seq<Op>>) {
    && n < |run| && c <= |run[n].stm.queue| && Listed(run[n].stm.hist, run[n].stm.queue[..c])
    && (forall i :: i in run[n].stm.queue[..c] && run[n].stm.hist[i].status.Committed? ==> Built(run, n, i, built(i)))
    && txs == SentAs(R, run[n].stm.hist, run[n].stm.queue[..c], built)
  }

  lemma RecordIsMeant(run: seq<RState>, steps: seq<Step>, n: nat, i: nat, ds: seq<DiskOp>)
    requires NewDatabase(run, steps) && Built(run, n, i, ds)
    ensures n < |run| && ds == MeantBy(run[n])(i)
  {
    var a: nat, h: nat :| BuiltAt(run, n, i, ds, a, h);
    BuiltIsMeant(run, steps, n, i, ds, a, h);
  }

  lemma SentIsMeant(run: seq<RState>, steps: seq<Step>, n: nat, R: Reading, order: seq<nat>, built: nat -> seq<DiskOp>)
    requires NewDatabase(run, steps) && n < |run| && Listed(run[n].stm.hist, order)
    requires forall i :: i in order && run[n].stm.hist[i].status.Committed? ==> Built(run, n, i, built(i))
    ensures SentAs(R, run[n].stm.hist, order, built) == SentAs(R, run[n].stm.hist, order, MeantBy(run[n]))
  {
    forall i | i in order && run[n].stm.hist[i].status.Committed? ensures built(i) == MeantBy(run[n])(i) {
      RecordIsMeant(run, steps, n, i, built(i));
    }
    SentSame(R, run[n].stm.hist, order, built, MeantBy(run[n]));
  }

  /** Loading the first `j` records handed over. */
  lemma FrontLoaded(run: seq<RState>, steps: seq<Step>, n: nat, c: nat, R: Reading, schema: Schema, db: Db,
      built: nat -> seq<DiskOp>, txs: seq<seq<Op>>, j: nat) returns (p: nat)
    requires NewDatabase(run, steps) && HandedOver(run, n, c, R, built, txs) && j <= |txs|
    requires HasTypes(schema, R) && db.nodes == map[]
    ensures p <= c && Listed(run[n].stm.hist, run[n].stm.queue[..p])
    ensures |SentAs(R, run[n].stm.hist, run[n].stm.queue[..p], built)| == j
    ensures Remembers(run[n], R, schema, Recovery.ApplyTxs(schema, db, txs[..j]).nodes, run[n].stm.queue[..p])
  {
    var r, order := run[n], run[n].stm.queue[..c];
    p := SentFront(R, r.stm.hist, order, built, j);
    assert order[..p] == r.stm.queue[..p];
    QueueLoaded(run, steps, n, p, R, schema, db);
    forall i | i in order[..p] ensures i in order {
    }
    SentIsMeant(run, steps, n, R, r.stm.queue[..p], built);
  }

  /** Each transaction in the first `p` slots read what it would have read in that execution. */
  ghost predicate ReadSerially(s: State, p: nat)
    requires p <= |s.queue| && Listed(s.hist, s.queue)
  {
    forall q, k :: 0 <= q < p && s.hist[s.queue[q]].status.Committed? && 0 <= k < |s.hist[s.queue[q]].readSet| ==>
      SeesSerially(SerialMem(s.init, s.hist, s.queue[..q]), s.hist[s.queue[q]].log, s.hist[s.queue[q]].readSet[k])
  }

  lemma QueueReadSerially(run: seq<RState>, steps: seq<Step>, n: nat, p: nat)
    requires NewDatabase(run, steps) && n < |run| && p <= |run[n].stm.queue|
    ensures Listed(run[n].stm.hist, run[n].stm.queue) && ReadSerially(run[n].stm, p)
  {
    var s := run[n].stm;
    RunOrderly(run, steps, n);
    QueueMakersFirst(run[n], |s.queue|, 0);
    assert s.queue[..|s.queue|] == s.queue;
    forall q, k | 0 <= q < p && s.hist[s.queue[q]].status.Committed? && 0 <= k < |s.hist[s.queue[q]].readSet|
      ensures SeesSerially(SerialMem(s.init, s.hist, s.queue[..q]), s.hist[s.queue[q]].log, s.hist[s.queue[q]].readSet[k])
    {
      QueuedRead(s, q, k);
    }
  }

  ghost predicate Survives(r: RState, R: Reading, schema: Schema, nodes: map<nat, NodeRec>, built: nat -> seq<DiskOp>,
      least: nat, p: nat) {
    && p <= |r.stm.queue| && Listed(r.stm.hist, r.stm.queue[..p]) && Listed(r.stm.hist, r.stm.queue)
    && least <= |SentAs(R, r.stm.hist, r.stm.queue[..p], built)|
    && Remembers(r, R, schema, nodes, r.stm.queue[..p]) && ReadSerially(r.stm, p)
  }

  /** From commit to recovery.  Transactions run and commit as in `run`; their records, built
      after they released their locks, go through the service thread, whose states are `jobs`,
      into the file.  The machine fails in state `i` of the service thread, and of the file
      only the first `k` bytes survive, not less than were there in state `m`.  Loading them
      recovers the memory that a front of the output queue leaves when its committed
      transactions are executed one after the other, each of which read what it would have
      read in that execution; and if in state `m` a synchronous job was just done, no
      transaction sent by then is missing. */
  lemma CommitsSurvive(run: seq<RState>, steps: seq<Step>, n: nat, c: nat, R: Reading, built: nat -> seq<DiskOp>,
      jobs: seq<ServiceQueue.State>, m: nat, i: nat, k: nat, txs: seq<Option<seq<Op>>>, schema: Schema, db: Db)
    requires NewDatabase(run, steps) && HandedOver(run, n, c, R, built, Durability.Committed(txs))
    requires ServiceQueue.Run(jobs) && m <= i < |jobs| && |jobs[m].stream.file| <= k <= |jobs[i].stream.file|
    requires Durability.Records(jobs[i].sent, txs) && Recovery.NoneEmpty(Durability.Committed(txs))
    requires db.nodes == map[] && !db.dumpOn && HasTypes(schema, R) && Recovery.Sound(schema, db, Durability.Committed(txs))
    ensures |jobs[m].sent| <= |txs|
    ensures
      var file := Recovery.Marker(Recovery.DUMP_BEGIN) + (Recovery.Marker(Recovery.DUMP_END) + jobs[i].stream.file[..k]);
      exists p :: Survives(run[n], R, schema, Recovery.LoadFile(schema, true, db, file).0.nodes, built,
                           Durability.Secured(jobs[m], txs), p)
  {
    var file := Recovery.Marker(Recovery.DUMP_BEGIN) + (Recovery.Marker(Recovery.DUMP_END) + jobs[i].stream.file[..k]);
    Durability.CrashRecovers(jobs, m, i, k, schema, db, txs);
    var loaded, sent := Recovery.LoadFile(schema, true, db, file).0, Durability.Committed(txs);
    var j :| Durability.Recovers(schema, db, sent, loaded, Durability.Secured(jobs[m], txs), j);
    var p := FrontLoaded(run, steps, n, c, R, schema, db, built, sent, j);
    QueueReadSerially(run, steps, n, p);
    assert Survives(run[n], R, schema, loaded.nodes, built, Durability.Secured(jobs[m], txs), p);
  }
}
