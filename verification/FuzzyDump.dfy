/** The fuzzy dump: node states are written while transactions go on committing.

    Transactions commit in queue order and the service thread writes their records in that
    order.  In between it writes dump records, which bypass the queue: a dump record shows
    its node as all transactions that released the node's lock left it, also those whose own
    records are not written yet.  A new file starts with the dump; the theorem is that
    loading it alone gives the nodes of the whole history.

    The dump walks the slab, not the dictionary.  It also meets the slab nodes that loading
    left behind when it skipped the creation of a node that existed; they have an id and
    attributes that were never initialised. */
module FuzzyDump {
  import opened StorageFormat
  import opened Folds
  import opened DataRecords

  // ----- one node

  /** What an operation makes of node `n`. */
  function Effect(schema: Schema, n: nat, o: Option<NodeRec>, op: Op): Option<NodeRec> {
    match op
    case Modify(id, a, v) =>
      if id == n && o.Some? && a < |o.value.attrs| then Some(o.value.(attrs := o.value.attrs[a := v])) else o
    case Create(ty, id) =>
      if id == n && o.None? && ty < |schema| then Some(NodeRec(ty, InitAttrs(schema[ty]))) else o
    case Delete(id) => if id == n then None else o
  }

  /** The content of node `n`, which outlives its deletion until the node is freed. */
  function Content(schema: Schema, n: nat, o: Option<NodeRec>, op: Op): Option<NodeRec> {
    if op.Delete? then o else Effect(schema, n, o, op)
  }

  function At(db: Db, n: nat): Option<NodeRec> {
    if n in db.nodes then Some(db.nodes[n]) else None
  }

  function State(schema: Schema, n: nat, o: Option<NodeRec>, ops: seq<Op>): Option<NodeRec> {
    Fold((o: Option<NodeRec>, op: Op) => Effect(schema, n, o, op), o, ops)
  }

  function Kept(schema: Schema, n: nat, o: Option<NodeRec>, ops: seq<Op>): Option<NodeRec> {
    Fold((o: Option<NodeRec>, op: Op) => Content(schema, n, o, op), o, ops)
  }

  /** The life of a node's id. */
  datatype Phase = Unborn | Alive | Dead | Wrong

  function Lives(schema: Schema, n: nat, p: Phase, op: Op): Phase {
    match op
    case Modify(id, _, _) => if id == n && !p.Alive? then Wrong else p
    case Create(ty, id) => if id != n then p else if p.Unborn? && ty < |schema| then Alive else Wrong
    case Delete(id) => if id != n then p else if p.Alive? then Dead else Wrong
  }

  function Life(schema: Schema, n: nat, p: Phase, ops: seq<Op>): Phase {
    Fold((p: Phase, op: Op) => Lives(schema, n, p, op), p, ops)
  }

  predicate Deletes(ops: seq<Op>, n: nat) {
    exists i :: 0 <= i < |ops| && ops[i] == Delete(n)
  }

  predicate Creates(ops: seq<Op>, n: nat) {
    exists i :: 0 <= i < |ops| && ops[i].Create? && ops[i].newId == n
  }

  function Start(o: Option<NodeRec>): Phase {
    if o.Some? then Alive else Unborn
  }

  lemma LastStep(schema: Schema, n: nat, o: Option<NodeRec>, p: Phase, ops: seq<Op>)
    requires ops != []
    ensures State(schema, n, o, ops) == Effect(schema, n, State(schema, n, o, ops[..|ops| - 1]), ops[|ops| - 1])
    ensures Kept(schema, n, o, ops) == Content(schema, n, Kept(schema, n, o, ops[..|ops| - 1]), ops[|ops| - 1])
    ensures Life(schema, n, p, ops) == Lives(schema, n, Life(schema, n, p, ops[..|ops| - 1]), ops[|ops| - 1])
  {
  }

  lemma Joined(schema: Schema, n: nat, o: Option<NodeRec>, p: Phase, s: seq<Op>, t: seq<Op>)
    ensures State(schema, n, o, s + t) == State(schema, n, State(schema, n, o, s), t)
    ensures Kept(schema, n, o, s + t) == Kept(schema, n, Kept(schema, n, o, s), t)
    ensures Life(schema, n, p, s + t) == Life(schema, n, Life(schema, n, p, s), t)
  {
    FoldConcat((o: Option<NodeRec>, op: Op) => Effect(schema, n, o, op), o, s, t);
    FoldConcat((o: Option<NodeRec>, op: Op) => Content(schema, n, o, op), o, s, t);
    FoldConcat((p: Phase, op: Op) => Lives(schema, n, p, op), p, s, t);
  }

  lemma FrontPart(ops: seq<Op>, n: nat)
    requires ops != []
    ensures Deletes(ops, n) <==> Deletes(ops[..|ops| - 1], n) || ops[|ops| - 1] == Delete(n)
    ensures Creates(ops, n) <==> Creates(ops[..|ops| - 1], n) || (ops[|ops| - 1].Create? && ops[|ops| - 1].newId == n)
  {
    var front := ops[..|ops| - 1];
    if Deletes(ops, n) && ops[|ops| - 1] != Delete(n) {
      var i :| 0 <= i < |ops| && ops[i] == Delete(n);
      assert front[i] == Delete(n);
    }
    if Deletes(front, n) {
      var i :| 0 <= i < |front| && front[i] == Delete(n);
      assert ops[i] == Delete(n);
    }
    if Creates(ops, n) && !(ops[|ops| - 1].Create? && ops[|ops| - 1].newId == n) {
      var i :| 0 <= i < |ops| && ops[i].Create? && ops[i].newId == n;
      assert front[i].Create? && front[i].newId == n;
    }
    if Creates(front, n) {
      var i :| 0 <= i < |front| && front[i].Create? && front[i].newId == n;
      assert ops[i].Create? && ops[i].newId == n;
    }
  }

  /** How phases, states and contents go together. */
  lemma {:induction false} Phases(schema: Schema, n: nat, o: Option<NodeRec>, ops: seq<Op>)
    requires !Life(schema, n, Start(o), ops).Wrong?
    ensures Life(schema, n, Start(o), ops) ==
            if Deletes(ops, n) then Dead else if o.Some? || Creates(ops, n) then Alive else Unborn
    ensures State(schema, n, o, ops) == if Deletes(ops, n) then None else Kept(schema, n, o, ops)
    ensures Kept(schema, n, o, ops).Some? <==> o.Some? || Creates(ops, n)
    ensures o.Some? ==> !Creates(ops, n)
    ensures Deletes(ops, n) ==> o.Some? || Creates(ops, n)
  {
    if ops != [] {
      LastStep(schema, n, o, Start(o), ops);
      FrontPart(ops, n);
      Phases(schema, n, o, ops[..|ops| - 1]);
    }
  }

  /** Without a creation, nothing comes of nothing. */
  lemma {:induction false} NoBirth(schema: Schema, n: nat, ops: seq<Op>)
    requires !Creates(ops, n)
    ensures State(schema, n, None, ops) == None
  {
    if ops != [] {
      LastStep(schema, n, None, Unborn, ops);
      FrontPart(ops, n);
      NoBirth(schema, n, ops[..|ops| - 1]);
    }
  }

  /** Operations that end a node's life leave nothing, whatever state they start from. */
  lemma {:induction false} DeathEnds(schema: Schema, n: nat, o: Option<NodeRec>, p: Phase, ops: seq<Op>)
    requires Life(schema, n, p, ops).Dead? && !p.Dead?
    ensures State(schema, n, o, ops) == None
  {
    if ops != [] {
      LastStep(schema, n, o, p, ops);
      if Life(schema, n, p, ops[..|ops| - 1]).Dead? {
        DeathEnds(schema, n, o, p, ops[..|ops| - 1]);
      }
    }
  }

  lemma {:induction false} WrongStays(schema: Schema, n: nat, ops: seq<Op>)
    ensures Life(schema, n, Wrong, ops).Wrong?
  {
    if ops != [] {
      LastStep(schema, n, None, Wrong, ops);
      WrongStays(schema, n, ops[..|ops| - 1]);
    }
  }

  lemma SoundPart(schema: Schema, n: nat, p: Phase, s: seq<Op>, t: seq<Op>)
    requires !Life(schema, n, p, s + t).Wrong?
    ensures !Life(schema, n, p, s).Wrong?
  {
    Joined(schema, n, None, p, s, t);
    if Life(schema, n, p, s).Wrong? {
      WrongStays(schema, n, t);
    }
  }

  predicate Sets(ops: seq<Op>, n: nat, a: nat) {
    exists i :: 0 <= i < |ops| && ops[i].Modify? && ops[i].id == n && ops[i].attr == a
  }

  lemma SetsFront(ops: seq<Op>, n: nat, a: nat)
    requires ops != []
    ensures Sets(ops[..|ops| - 1], n, a) ==> Sets(ops, n, a)
  {
    var front := ops[..|ops| - 1];
    if Sets(front, n, a) {
      var i :| 0 <= i < |front| && front[i].Modify? && front[i].id == n && front[i].attr == a;
      assert ops[i] == front[i];
    }
  }

  lemma SetsFirst(op: Op, rest: seq<Op>, n: nat, a: nat)
    ensures Sets([op] + rest, n, a) ==> (op.Modify? && op.id == n && op.attr == a) || Sets(rest, n, a)
  {
    var all := [op] + rest;
    if Sets(all, n, a) {
      var i :| 0 <= i < |all| && all[i].Modify? && all[i].id == n && all[i].attr == a;
      assert i > 0 ==> rest[i - 1] == all[i];
    }
  }

  lemma {:induction false} KeptAttr(schema: Schema, n: nat, x: NodeRec, rest: seq<Op>, a: nat)
    requires a < |x.attrs| && !Sets(rest, n, a)
    ensures var y := Kept(schema, n, Some(x), rest);
      y.Some? && |y.value.attrs| == |x.attrs| && y.value.attrs[a] == x.attrs[a]
  {
    if rest != [] {
      var front := rest[..|rest| - 1];
      LastStep(schema, n, Some(x), Alive, rest);
      SetsFront(rest, n, a);
      KeptAttr(schema, n, x, front, a);
      assert rest[|rest| - 1].Modify? && rest[|rest| - 1].id == n ==> rest[|rest| - 1].attr != a;
    }
  }

  lemma {:induction false} KeptShape(schema: Schema, n: nat, x: NodeRec, ops: seq<Op>)
    ensures var y := Kept(schema, n, Some(x), ops);
      y.Some? && |y.value.attrs| == |x.attrs| && y.value.ty == x.ty
  {
    if ops != [] {
      LastStep(schema, n, Some(x), Alive, ops);
      KeptShape(schema, n, x, ops[..|ops| - 1]);
    }
  }

  /** The last operation to set an attribute decides its content. */
  lemma LastSet(schema: Schema, n: nat, o: Option<NodeRec>, front: seq<Op>, op: Op, rest: seq<Op>, c: NodeRec)
    requires op.Modify? && op.id == n && !Sets(rest, n, op.attr)
    requires !Life(schema, n, Start(o), front + ([op] + rest)).Wrong?
    requires Kept(schema, n, o, front + ([op] + rest)) == Some(c)
    ensures op.attr < |c.attrs| ==> c.attrs[op.attr] == op.value
  {
    var upTo := front + [op];
    assert front + ([op] + rest) == upTo + rest;
    SoundPart(schema, n, Start(o), upTo, rest);
    SoundPart(schema, n, Start(o), front, [op]);
    Phases(schema, n, o, front);
    assert upTo[..|upTo| - 1] == front;
    LastStep(schema, n, o, Start(o), upTo);
    Joined(schema, n, o, Start(o), upTo, rest);
    var x := Kept(schema, n, o, upTo).value;
    KeptShape(schema, n, x, rest);
    if op.attr < |c.attrs| {
      KeptAttr(schema, n, x, rest, op.attr);
    }
  }

  /** `o` is `c` but for attributes that `rest` will still set. */
  ghost predicate Agrees(o: Option<NodeRec>, c: NodeRec, rest: seq<Op>, n: nat) {
    && o.Some? && o.value.ty == c.ty && |o.value.attrs| == |c.attrs|
    && forall a :: 0 <= a < |c.attrs| && !Sets(rest, n, a) ==> o.value.attrs[a] == c.attrs[a]
  }

  lemma AgreesStep(schema: Schema, n: nat, o: Option<NodeRec>, c: NodeRec, op: Op, rest: seq<Op>)
    requires Agrees(o, c, [op] + rest, n) && op != Delete(n)
    requires op.Modify? && op.id == n && op.attr < |c.attrs| && !Sets(rest, n, op.attr) ==> c.attrs[op.attr] == op.value
    ensures Agrees(Effect(schema, n, o, op), c, rest, n)
  {
    var o' := Effect(schema, n, o, op);
    forall a | 0 <= a < |c.attrs| && !Sets(rest, n, a) ensures o'.value.attrs[a] == c.attrs[a] {
      SetsFirst(op, rest, n, a);
    }
  }

  /** Replaying operations on a content that they led to, together with `rest`, gives that
      content but for what `rest` sets. */
  lemma {:induction false} Replay(schema: Schema, n: nat, o: Option<NodeRec>, ops: seq<Op>, rest: seq<Op>, c: NodeRec)
    requires !Life(schema, n, Start(o), ops + rest).Wrong? && !Deletes(ops, n)
    requires Kept(schema, n, o, ops + rest) == Some(c)
    ensures Agrees(State(schema, n, Some(c), ops), c, rest, n)
  {
    if ops != [] {
      var front, op := ops[..|ops| - 1], ops[|ops| - 1];
      assert front + ([op] + rest) == ops + rest;
      FrontPart(ops, n);
      Replay(schema, n, o, front, [op] + rest, c);
      LastStep(schema, n, Some(c), Alive, ops);
      if op.Modify? && op.id == n && !Sets(rest, n, op.attr) {
        LastSet(schema, n, o, front, op, rest, c);
      }
      AgreesStep(schema, n, State(schema, n, Some(c), front), c, op, rest);
    }
  }

  /** Replaying operations on the content that they led to changes nothing. */
  lemma ReplayAll(schema: Schema, n: nat, o: Option<NodeRec>, ops: seq<Op>, c: NodeRec)
    requires !Life(schema, n, Start(o), ops).Wrong? && !Deletes(ops, n) && Kept(schema, n, o, ops) == Some(c)
    ensures State(schema, n, Some(c), ops) == Some(c)
  {
    assert ops + [] == ops;
    Replay(schema, n, o, ops, [], c);
    var x := State(schema, n, Some(c), ops).value;
    assert x.attrs == c.attrs;
  }

  /** The heart of the fuzzy dump.  History `early + seen + late`: the record of node `n` is
      written behind the records of `early` and shows the content after `early + seen`.
      Loading it and then the records of `seen + late` gives what the whole history gives. */
  lemma DumpedNode(schema: Schema, n: nat, o: Option<NodeRec>, early: seq<Op>, seen: seq<Op>, late: seq<Op>, c: NodeRec)
    requires !Life(schema, n, Start(o), early + seen).Wrong?
    requires !Deletes(early, n) && Kept(schema, n, o, early + seen) == Some(c)
    ensures State(schema, n, Some(c), seen + late) == State(schema, n, o, early + seen + late)
  {
    Joined(schema, n, Some(c), Alive, seen, late);
    Joined(schema, n, o, Start(o), early + seen, late);
    Joined(schema, n, o, Start(o), early, seen);
    SoundPart(schema, n, Start(o), early, seen);
    Phases(schema, n, o, early);
    Phases(schema, n, o, early + seen);
    var o1 := Kept(schema, n, o, early);
    assert Life(schema, n, Start(o), early) == Start(o1);
    Phases(schema, n, o1, seen);
    if Deletes(seen, n) {
      DeathEnds(schema, n, Some(c), Start(o1), seen);
      DeathEnds(schema, n, o1, Start(o1), seen);
    } else {
      ReplayAll(schema, n, o1, seen, c);
    }
  }

  // ----- whole databases

  lemma ApplyAt(schema: Schema, db: Db, op: Op, n: nat)
    ensures At(Apply(schema, db, op), n) == Effect(schema, n, At(db, n), op)
  {
  }

  lemma {:induction false} ApplyAllAt(schema: Schema, db: Db, ops: seq<Op>, n: nat)
    ensures At(ApplyAll(schema, db, ops), n) == State(schema, n, At(db, n), ops)
    decreases ops
  {
    if ops != [] {
      ApplyAt(schema, db, ops[0], n);
      ApplyAllAt(schema, Apply(schema, db, ops[0]), ops[1..], n);
      assert ops == [ops[0]] + ops[1..];
      Joined(schema, n, At(db, n), Unborn, [ops[0]], ops[1..]);
      LastStep(schema, n, At(db, n), Unborn, [ops[0]]);
      assert [ops[0]][..0] == [];
    }
  }

  /** The operations of transactions, one after the other. */
  function Ops(txs: seq<seq<Op>>): seq<Op> {
    if txs == [] then [] else Ops(txs[..|txs| - 1]) + txs[|txs| - 1]
  }

  lemma {:induction false} OpsConcat(s: seq<seq<Op>>, t: seq<seq<Op>>)
    ensures Ops(s + t) == Ops(s) + Ops(t)
  {
    if t == [] {
      assert s + t == s;
    } else {
      OpsConcat(s, t[..|t| - 1]);
      assert (s + t)[..|s + t| - 1] == s + t[..|t| - 1];
    }
  }

  /** A record of the new file. */
  datatype FileRec = DumpOf(id: nat, node: NodeRec) | TxOf(ops: seq<Op>)

  /** Loading the new file alone; it fails at the dump record of a node that exists. */
  function LoadNew(schema: Schema, file: seq<FileRec>): Option<Db> {
    if file == [] then Some(NO_DATA.(dumpOn := true))
    else
      match LoadNew(schema, file[..|file| - 1])
      case None => None
      case Some(db) =>
        match file[|file| - 1]
        case DumpOf(id, node) => if id in db.nodes then None else Some(AddNode(db, id, node))
        case TxOf(ops) => Some(ApplyAll(schema, db, ops))
  }

  /** Loading the new file behind older ones, which gave `db`: dump records are skipped. */
  function LoadAfter(schema: Schema, db: Db, file: seq<FileRec>): Db {
    if file == [] then db
    else
      match file[|file| - 1]
      case DumpOf(_, _) => LoadAfter(schema, db, file[..|file| - 1])
      case TxOf(ops) => ApplyAll(schema, LoadAfter(schema, db, file[..|file| - 1]), ops)
  }

  /** The transactions of a file. */
  function TxsOf(file: seq<FileRec>): seq<seq<Op>> {
    if file == [] then []
    else if file[|file| - 1].TxOf? then TxsOf(file[..|file| - 1]) + [file[|file| - 1].ops]
    else TxsOf(file[..|file| - 1])
  }

  predicate DumpedIn(file: seq<FileRec>, n: nat) {
    exists x :: 0 <= x < |file| && file[x].DumpOf? && file[x].id == n
  }

  lemma DumpedFront(file: seq<FileRec>, n: nat)
    requires file != []
    ensures DumpedIn(file, n) <==>
            DumpedIn(file[..|file| - 1], n) || (file[|file| - 1].DumpOf? && file[|file| - 1].id == n)
  {
    var front := file[..|file| - 1];
    if DumpedIn(file, n) && !(file[|file| - 1].DumpOf? && file[|file| - 1].id == n) {
      var x :| 0 <= x < |file| && file[x].DumpOf? && file[x].id == n;
      assert front[x] == file[x];
    }
    if DumpedIn(front, n) {
      var x :| 0 <= x < |front| && front[x].DumpOf? && front[x].id == n;
      assert front[x] == file[x];
    }
  }

  lemma {:induction false} LoadAfterAt(schema: Schema, db: Db, file: seq<FileRec>, n: nat)
    ensures At(LoadAfter(schema, db, file), n) == State(schema, n, At(db, n), Ops(TxsOf(file)))
  {
    if file != [] {
      var front := file[..|file| - 1];
      LoadAfterAt(schema, db, front, n);
      if file[|file| - 1].TxOf? {
        var ops := file[|file| - 1].ops;
        ApplyAllAt(schema, LoadAfter(schema, db, front), ops, n);
        assert (TxsOf(front) + [ops])[..|TxsOf(front)|] == TxsOf(front);
        Joined(schema, n, At(db, n), Unborn, Ops(TxsOf(front)), ops);
      }
    }
  }

  lemma LoadNewTx(schema: Schema, front: seq<FileRec>, ops: seq<Op>, o: Option<NodeRec>, past: seq<Op>, n: nat)
    requires LoadNew(schema, front).Some? && At(LoadNew(schema, front).value, n) == State(schema, n, o, past)
    ensures LoadNew(schema, front + [TxOf(ops)]).Some?
    ensures At(LoadNew(schema, front + [TxOf(ops)]).value, n) == State(schema, n, o, past + ops)
  {
    assert (front + [TxOf(ops)])[..|front|] == front;
    ApplyAllAt(schema, LoadNew(schema, front).value, ops, n);
    Joined(schema, n, o, Unborn, past, ops);
  }

  /** A node that is not dumped has what the transactions of the file make of nothing. */
  lemma {:induction false} LoadedUndumped(schema: Schema, file: seq<FileRec>, n: nat)
    requires LoadNew(schema, file).Some? && !DumpedIn(file, n)
    ensures At(LoadNew(schema, file).value, n) == State(schema, n, None, Ops(TxsOf(file)))
  {
    if file != [] {
      var front, last := file[..|file| - 1], file[|file| - 1];
      DumpedFront(file, n);
      LoadedUndumped(schema, front, n);
      if last.TxOf? {
        LoadNewTx(schema, front, last.ops, None, Ops(TxsOf(front)), n);
        assert front + [TxOf(last.ops)] == file;
        assert (TxsOf(front) + [last.ops])[..|TxsOf(front)|] == TxsOf(front);
      }
    }
  }

  /** A node dumped once has what the transactions behind its record make of that record. */
  lemma {:induction false} LoadedDumped(schema: Schema, file: seq<FileRec>, x: nat, n: nat)
    requires LoadNew(schema, file).Some? && x < |file| && file[x].DumpOf? && file[x].id == n
    requires !DumpedIn(file[x + 1..], n)
    ensures At(LoadNew(schema, file).value, n) == State(schema, n, Some(file[x].node), Ops(TxsOf(file[x + 1..])))
  {
    if x < |file| - 1 {
      var front, last := file[..|file| - 1], file[|file| - 1];
      var after := file[x + 1..];
      DumpedFront(after, n);
      assert after[..|after| - 1] == front[x + 1..];
      LoadedDumped(schema, front, x, n);
      if last.TxOf? {
        LoadNewTx(schema, front, last.ops, Some(file[x].node), Ops(TxsOf(front[x + 1..])), n);
        assert front + [TxOf(last.ops)] == file;
        assert (TxsOf(front[x + 1..]) + [last.ops])[..|TxsOf(front[x + 1..])|] == TxsOf(front[x + 1..]);
      }
    } else {
      assert file[x + 1..] == [];
    }
  }

  lemma {:induction false} TxsConcat(s: seq<FileRec>, t: seq<FileRec>)
    ensures TxsOf(s + t) == TxsOf(s) + TxsOf(t)
  {
    if t == [] {
      assert s + t == s;
    } else {
      TxsConcat(s, t[..|t| - 1]);
      assert (s + t)[..|s + t| - 1] == s + t[..|t| - 1];
    }
  }

  // ----- the run

  datatype Sys = Sys(
    base: Db,                 // what the older files hold, and the strays that loading left
    txs: seq<seq<Op>>,        // transactions committed since, in queue order
    written: nat,             // how many of them the new file holds
    file: seq<FileRec>,
    seen: seq<nat>,           // history: how many transactions each dump record shows,
    dumped: set<nat>,         // which nodes were dumped,
    visited: set<nat>,        // and which strays
    finished: bool)           // the dump cursor has passed the last node

  datatype Step =
    | Commit(ops: seq<Op>)
    | WriteTx
    | DumpNode(n: nat, upTo: nat)
    | DumpStray(k: nat, attrs: seq<Value>)
    | Finish

  /** Ids are created at most once, and used only between creation and deletion. */
  ghost predicate Legal(schema: Schema, base: Db, ops: seq<Op>) {
    forall n: nat :: !Life(schema, n, Start(At(base, n)), ops).Wrong?
  }

  /** Content of a node after the first `j` transactions. */
  function ContentAfter(schema: Schema, s: Sys, n: nat, j: nat): Option<NodeRec>
    requires j <= |s.txs|
  {
    Kept(schema, n, At(s.base, n), Ops(s.txs[..j]))
  }

  /** The node's deletion is on disk, so that the node has been freed. */
  predicate Gone(s: Sys, n: nat)
    requires s.written <= |s.txs|
  {
    Deletes(Ops(s.txs[..s.written]), n)
  }

  ghost predicate Enabled(schema: Schema, s: Sys, step: Step) {
    match step
    case Commit(ops) => Legal(schema, s.base, Ops(s.txs + [ops]))
    case WriteTx => s.written < |s.txs|
    case DumpNode(n, upTo) =>
      && s.written <= upTo <= |s.txs| && !s.finished && n !in s.dumped
      && !Gone(s, n) && ContentAfter(schema, s, n, upTo).Some?
    case DumpStray(k, attrs) => !s.finished && k < |s.base.strays| && k !in s.visited
    case Finish =>
      && s.written <= |s.txs|
      && (forall n: nat :: n in s.base.nodes ==> n in s.dumped || Gone(s, n))
      && (forall k :: 0 <= k < |s.base.strays| ==> k in s.visited)
  }

  ghost function Do(schema: Schema, s: Sys, step: Step): Sys
    requires Enabled(schema, s, step)
  {
    match step
    case Commit(ops) => s.(txs := s.txs + [ops])
    case WriteTx => s.(written := s.written + 1, file := s.file + [TxOf(s.txs[s.written])], seen := s.seen + [0])
    case DumpNode(n, upTo) =>
      s.(file := s.file + [DumpOf(n, ContentAfter(schema, s, n, upTo).value)], seen := s.seen + [upTo],
         dumped := s.dumped + {n})
    case DumpStray(k, attrs) =>
      var Stray(ty, id) := s.base.strays[k];
      s.(file := s.file + [DumpOf(id, NodeRec(ty, attrs))], seen := s.seen + [0], visited := s.visited + {k})
    case Finish => s.(finished := true)
  }

  ghost predicate Init(s: Sys) {
    s.txs == [] && s.written == 0 && s.file == [] && s.seen == [] && s.dumped == {} && s.visited == {} && !s.finished
  }

  ghost predicate Run(schema: Schema, run: seq<Sys>, steps: seq<Step>) {
    && run != [] && |run| == |steps| + 1 && Init(run[0])
    && forall i :: 0 <= i < |steps| ==> Stepped(schema, run, steps, i)
  }

  ghost predicate Stepped(schema: Schema, run: seq<Sys>, steps: seq<Step>, i: nat)
    requires i < |steps| && |run| == |steps| + 1
  {
    Enabled(schema, run[i], steps[i]) && run[i + 1] == Do(schema, run[i], steps[i])
  }

  // ----- the invariant

  /** A dump record shows its node as some of the transactions left it, at least those whose
      records are in front of it; the node's deletion is not in front of it. */
  ghost predicate DumpOk(schema: Schema, s: Sys, x: nat)
    requires x < |s.file| == |s.seen| && s.file[x].DumpOf?
  {
    var w, n := |TxsOf(s.file[..x])|, s.file[x].id;
    && w <= s.seen[x] <= |s.txs|
    && ContentAfter(schema, s, n, s.seen[x]) == Some(s.file[x].node)
    && !Deletes(Ops(s.txs[..w]), n)
    && !DumpedIn(s.file[..x], n)
  }

  /** Of a process that was loaded without strays. */
  ghost predicate Inv(schema: Schema, s: Sys) {
    && s.base.strays == [] && (forall n :: n in s.dumped <==> DumpedIn(s.file, n))
    && s.written <= |s.txs| && |s.seen| == |s.file|
    && TxsOf(s.file) == s.txs[..s.written]
    && Legal(schema, s.base, Ops(s.txs))
    && (forall x :: 0 <= x < |s.file| && s.file[x].DumpOf? ==> DumpOk(schema, s, x))
    && (s.finished ==> forall n: nat :: n in s.base.nodes ==> DumpedIn(s.file, n) || Gone(s, n))
  }

  lemma InitInv(schema: Schema, s: Sys)
    requires Init(s) && s.base.strays == []
    ensures Inv(schema, s)
  {
    forall n: nat ensures !Life(schema, n, Start(At(s.base, n)), Ops(s.txs)).Wrong? {
    }
  }

  lemma CommitKept(schema: Schema, s: Sys, ops: seq<Op>)
    requires Inv(schema, s) && Enabled(schema, s, Commit(ops))
    ensures Inv(schema, Do(schema, s, Commit(ops)))
  {
    var s' := Do(schema, s, Commit(ops));
    assert s'.txs[..s.written] == s.txs[..s.written];
    forall x | 0 <= x < |s'.file| && s'.file[x].DumpOf? ensures DumpOk(schema, s', x) {
      assert DumpOk(schema, s, x);
      assert s'.txs[..s.seen[x]] == s.txs[..s.seen[x]];
      assert s'.txs[..|TxsOf(s.file[..x])|] == s.txs[..|TxsOf(s.file[..x])|];
    }
  }

  lemma DeletesMore(s: seq<Op>, t: seq<Op>, n: nat)
    requires Deletes(s, n)
    ensures Deletes(s + t, n)
  {
    var i :| 0 <= i < |s| && s[i] == Delete(n);
    assert (s + t)[i] == Delete(n);
  }

  lemma DumpedMore(s: seq<FileRec>, t: seq<FileRec>, n: nat)
    requires DumpedIn(s, n)
    ensures DumpedIn(s + t, n)
  {
    var x :| 0 <= x < |s| && s[x].DumpOf? && s[x].id == n;
    assert (s + t)[x] == s[x];
  }

  /** Records already in the file stay right when the file grows. */
  lemma OlderDumps(schema: Schema, s: Sys, s': Sys, x: nat)
    requires x < |s.file| == |s.seen| && s.file[x].DumpOf? && DumpOk(schema, s, x)
    requires s'.base == s.base && s'.txs == s.txs && |s'.file| == |s'.seen|
    requires s.file <= s'.file && s.seen <= s'.seen
    ensures DumpOk(schema, s', x)
  {
    assert s'.file[..x] == s.file[..x];
  }

  lemma WriteKept(schema: Schema, s: Sys)
    requires Inv(schema, s) && Enabled(schema, s, WriteTx)
    ensures Inv(schema, Do(schema, s, WriteTx))
  {
    var s' := Do(schema, s, WriteTx);
    assert s'.file[..|s.file|] == s.file;
    assert s.txs[..s.written + 1] == s.txs[..s.written] + [s.txs[s.written]];
    forall x | 0 <= x < |s'.file| && s'.file[x].DumpOf? ensures DumpOk(schema, s', x) {
      OlderDumps(schema, s, s', x);
    }
    if s.finished {
      forall n: nat | n in s.base.nodes ensures DumpedIn(s'.file, n) || Gone(s', n) {
        if DumpedIn(s.file, n) {
          DumpedMore(s.file, [TxOf(s.txs[s.written])], n);
        } else {
          OpsConcat(s.txs[..s.written], [s.txs[s.written]]);
          DeletesMore(Ops(s.txs[..s.written]), Ops([s.txs[s.written]]), n);
        }
      }
    }
  }

  lemma DumpedNow(s: Sys, s': Sys, n: nat, rec: FileRec)
    requires (forall m :: m in s.dumped <==> DumpedIn(s.file, m)) && rec.DumpOf? && rec.id == n
    requires s'.file == s.file + [rec] && s'.dumped == s.dumped + {n}
    ensures forall m :: m in s'.dumped <==> DumpedIn(s'.file, m)
  {
    assert s'.file[..|s'.file| - 1] == s.file;
    forall m ensures m in s'.dumped <==> DumpedIn(s'.file, m) {
      DumpedFront(s'.file, m);
    }
  }

  lemma NewDump(schema: Schema, s: Sys, n: nat, upTo: nat, s': Sys)
    requires Inv(schema, s) && Enabled(schema, s, DumpNode(n, upTo)) && s' == Do(schema, s, DumpNode(n, upTo))
    ensures DumpOk(schema, s', |s.file|)
  {
    assert s'.file[..|s.file|] == s.file;
    assert s'.file[|s.file|] == DumpOf(n, ContentAfter(schema, s, n, upTo).value);
  }

  lemma DumpKept(schema: Schema, s: Sys, n: nat, upTo: nat)
    requires Inv(schema, s) && Enabled(schema, s, DumpNode(n, upTo))
    ensures Inv(schema, Do(schema, s, DumpNode(n, upTo)))
  {
    var s' := Do(schema, s, DumpNode(n, upTo));
    DumpedNow(s, s', n, s'.file[|s.file|]);
    assert s'.file[..|s'.file| - 1] == s.file;
    forall x | 0 <= x < |s'.file| && s'.file[x].DumpOf? ensures DumpOk(schema, s', x) {
      if x < |s.file| {
        OlderDumps(schema, s, s', x);
      } else {
        NewDump(schema, s, n, upTo, s');
      }
    }
  }

  lemma StepKept(schema: Schema, s: Sys, step: Step)
    requires Inv(schema, s) && Enabled(schema, s, step)
    ensures Inv(schema, Do(schema, s, step))
  {
    match step
    case Commit(ops) => CommitKept(schema, s, ops);
    case WriteTx => WriteKept(schema, s);
    case DumpNode(n, upTo) => DumpKept(schema, s, n, upTo);
    case Finish =>
      forall x | 0 <= x < |s.file| && s.file[x].DumpOf? ensures DumpOk(schema, s.(finished := true), x) {
        assert DumpOk(schema, s, x);
      }
  }

  lemma {:induction false} RunInv(schema: Schema, run: seq<Sys>, steps: seq<Step>, i: nat)
    requires Run(schema, run, steps) && i < |run| && run[0].base.strays == []
    ensures Inv(schema, run[i])
  {
    if i == 0 {
      InitInv(schema, run[0]);
    } else {
      RunInv(schema, run, steps, i - 1);
      assert Stepped(schema, run, steps, i - 1);
      StepKept(schema, run[i - 1], steps[i - 1]);
    }
  }

  // ----- loading the new file alone

  /** No node's creation is in front of its own dump record. */
  ghost predicate DumpsFirst(file: seq<FileRec>) {
    forall x :: 0 <= x < |file| && file[x].DumpOf? ==> !Creates(Ops(TxsOf(file[..x])), file[x].id)
  }

  /** Every transaction that a dump record shows is in the file. */
  ghost predicate AllSeenWritten(s: Sys) {
    forall x :: 0 <= x < |s.file| && x < |s.seen| && s.file[x].DumpOf? ==> s.seen[x] <= s.written
  }

  lemma TxsBefore(s: Sys, x: nat)
    requires s.written <= |s.txs| && TxsOf(s.file) == s.txs[..s.written] && x <= |s.file|
    ensures var w := |TxsOf(s.file[..x])|; w <= s.written && TxsOf(s.file[..x]) == s.txs[..w]
    ensures var w := |TxsOf(s.file[..x])|; TxsOf(s.file[x..]) == s.txs[w..s.written]
  {
    TxsConcat(s.file[..x], s.file[x..]);
    assert s.file == s.file[..x] + s.file[x..];
    Slices(TxsOf(s.file[..x]), TxsOf(s.file[x..]), s.txs, s.written);
  }

  lemma Slices<T>(a: seq<T>, b: seq<T>, all: seq<T>, k: nat)
    requires k <= |all| && a + b == all[..k]
    ensures |a| <= k && a == all[..|a|] && b == all[|a|..k]
  {
    assert a == (a + b)[..|a|] && b == (a + b)[|a|..];
  }

  lemma LegalPart(schema: Schema, s: Sys, k: nat, n: nat)
    requires Inv(schema, s) && k <= |s.txs|
    ensures !Life(schema, n, Start(At(s.base, n)), Ops(s.txs[..k])).Wrong?
  {
    assert s.txs == s.txs[..k] + s.txs[k..];
    OpsConcat(s.txs[..k], s.txs[k..]);
    SoundPart(schema, n, Start(At(s.base, n)), Ops(s.txs[..k]), Ops(s.txs[k..]));
  }

  /** Whether a dump record finds its node present. */
  lemma FoundAtDump(schema: Schema, s: Sys, x: nat)
    requires Inv(schema, s) && x < |s.file| && s.file[x].DumpOf? && LoadNew(schema, s.file[..x]).Some?
    ensures s.file[x].id in LoadNew(schema, s.file[..x]).value.nodes <==> Creates(Ops(TxsOf(s.file[..x])), s.file[x].id)
  {
    var n, w := s.file[x].id, |TxsOf(s.file[..x])|;
    assert DumpOk(schema, s, x);
    TxsBefore(s, x);
    LoadedUndumped(schema, s.file[..x], n);
    var past := Ops(s.txs[..w]);
    LegalPart(schema, s, w, n);
    Phases(schema, n, At(s.base, n), past);
    if !Creates(past, n) {
      NoBirth(schema, n, past);
    } else {
      Phases(schema, n, None, past);
    }
  }

  lemma DumpsFirstFront(file: seq<FileRec>)
    requires file != []
    ensures var front := file[..|file| - 1];
      DumpsFirst(file) <==> (DumpsFirst(front)
                             && (file[|file| - 1].DumpOf? ==> !Creates(Ops(TxsOf(front)), file[|file| - 1].id)))
  {
    var front := file[..|file| - 1];
    assert forall y :: 0 <= y < |front| ==> file[..y] == front[..y] && file[y] == front[y];
    if DumpsFirst(file) {
      forall y | 0 <= y < |front| && front[y].DumpOf? ensures !Creates(Ops(TxsOf(front[..y])), front[y].id) {
        assert file[y].DumpOf?;
      }
    }
  }

  lemma LoadStep(schema: Schema, front: seq<FileRec>, rec: FileRec)
    ensures LoadNew(schema, front + [rec]).Some? <==>
            LoadNew(schema, front).Some? && (rec.DumpOf? ==> rec.id !in LoadNew(schema, front).value.nodes)
  {
    assert (front + [rec])[..|front|] == front;
  }

  /** A file can be loaded exactly when no creation is in front of its node's dump record. */
  ghost predicate LoadsIff(schema: Schema, file: seq<FileRec>) {
    LoadNew(schema, file).Some? <==> DumpsFirst(file)
  }

  lemma LoadsNext(schema: Schema, front: seq<FileRec>, rec: FileRec, file: seq<FileRec>)
    requires LoadsIff(schema, front) && file == front + [rec]
    requires LoadNew(schema, front).Some? && rec.DumpOf? ==>
               (rec.id in LoadNew(schema, front).value.nodes <==> Creates(Ops(TxsOf(front)), rec.id))
    ensures LoadsIff(schema, file)
  {
    assert file[..|file| - 1] == front;
    LoadStep(schema, front, rec);
    DumpsFirstFront(file);
  }

  lemma FoundBehind(schema: Schema, s: Sys, x: nat, front: seq<FileRec>, rec: FileRec)
    requires Inv(schema, s) && x < |s.file| && front == s.file[..x] && rec == s.file[x]
    ensures LoadNew(schema, front).Some? && rec.DumpOf? ==>
              (rec.id in LoadNew(schema, front).value.nodes <==> Creates(Ops(TxsOf(front)), rec.id))
  {
    if LoadNew(schema, front).Some? && rec.DumpOf? {
      FoundAtDump(schema, s, x);
    }
  }

  lemma LastOf<T>(s: seq<T>, x: nat)
    requires 0 < x <= |s|
    ensures s[..x] == s[..x - 1] + [s[x - 1]]
  {
  }

  lemma {:induction false} LoadsPrefix(schema: Schema, s: Sys, x: nat, file: seq<FileRec>)
    requires Inv(schema, s) && x <= |s.file| && file == s.file[..x]
    ensures LoadsIff(schema, file)
  {
    if x > 0 {
      var front, rec := s.file[..x - 1], s.file[x - 1];
      LoadsPrefix(schema, s, x - 1, front);
      FoundBehind(schema, s, x - 1, front, rec);
      LastOf(s.file, x);
      LoadsNext(schema, front, rec, file);
    }
  }

  /** When the process was loaded without strays, the new file can be loaded exactly when no
      creation is in front of its node's dump record. */
  lemma LoadableIff(schema: Schema, run: seq<Sys>, steps: seq<Step>, i: nat)
    requires Run(schema, run, steps) && i < |run| && run[0].base.strays == []
    ensures LoadNew(schema, run[i].file).Some? <==> DumpsFirst(run[i].file)
  {
    RunInv(schema, run, steps, i);
    assert run[i].file[..|run[i].file|] == run[i].file;
    LoadsPrefix(schema, run[i], |run[i].file|, run[i].file);
  }

  lemma DumpedLoads(schema: Schema, s: Sys, x: nat)
    requires Inv(schema, s) && AllSeenWritten(s) && LoadNew(schema, s.file).Some?
    requires x < |s.file| && s.file[x].DumpOf?
    ensures At(LoadNew(schema, s.file).value, s.file[x].id) == At(LoadAfter(schema, s.base, s.file), s.file[x].id)
  {
    var n, c, j, w := s.file[x].id, s.file[x].node, s.seen[x], |TxsOf(s.file[..x])|;
    var o := At(s.base, n);
    assert DumpOk(schema, s, x);
    OnlyDump(schema, s, x);
    LoadedDumped(schema, s.file, x, n);
    LoadAfterAt(schema, s.base, s.file, n);
    TxsBefore(s, x);
    TxsBefore(s, x + 1);
    assert s.file[..x + 1][..x] == s.file[..x];
    var early, seen, late := Ops(s.txs[..w]), Ops(s.txs[w..j]), Ops(s.txs[j..s.written]);
    Pieces(s.txs, w, j, s.written);
    LegalPart(schema, s, j, n);
    DumpedNode(schema, n, o, early, seen, late, c);
  }

  lemma OpsSplit(txs: seq<seq<Op>>, from: nat, middle: nat, to: nat)
    requires from <= middle <= to <= |txs|
    ensures Ops(txs[from..to]) == Ops(txs[from..middle]) + Ops(txs[middle..to])
  {
    OpsConcat(txs[from..middle], txs[middle..to]);
    assert txs[from..to] == txs[from..middle] + txs[middle..to];
  }

  lemma Pieces(txs: seq<seq<Op>>, w: nat, j: nat, k: nat)
    requires w <= j <= k <= |txs|
    ensures Ops(txs[..j]) == Ops(txs[..w]) + Ops(txs[w..j])
    ensures Ops(txs[w..k]) == Ops(txs[w..j]) + Ops(txs[j..k])
    ensures Ops(txs[..k]) == Ops(txs[..w]) + Ops(txs[w..j]) + Ops(txs[j..k])
  {
    OpsSplit(txs, 0, w, j);
    OpsSplit(txs, w, j, k);
    OpsSplit(txs, 0, j, k);
    assert txs[0..j] == txs[..j] && txs[0..k] == txs[..k] && txs[0..w] == txs[..w];
  }

  /** A node is dumped once. */
  lemma OnlyDump(schema: Schema, s: Sys, x: nat)
    requires Inv(schema, s) && x < |s.file| && s.file[x].DumpOf?
    ensures !DumpedIn(s.file[x + 1..], s.file[x].id)
  {
    forall z | x < z < |s.file| && s.file[z].DumpOf? ensures s.file[z].id != s.file[x].id {
      DumpedBefore(schema, s, x, z);
    }
    NotBehind(s.file, x, s.file[x].id);
  }

  lemma DumpedBefore(schema: Schema, s: Sys, x: nat, z: nat)
    requires Inv(schema, s) && x < z < |s.file| && s.file[x].DumpOf? && s.file[z].DumpOf?
    ensures s.file[z].id != s.file[x].id
  {
    assert DumpOk(schema, s, z);
    assert s.file[..z][x] == s.file[x];
  }

  lemma NotBehind(file: seq<FileRec>, x: nat, n: nat)
    requires x < |file| && forall z :: x < z < |file| && file[z].DumpOf? ==> file[z].id != n
    ensures !DumpedIn(file[x + 1..], n)
  {
  }

  lemma UndumpedLoads(schema: Schema, s: Sys, n: nat)
    requires Inv(schema, s) && s.finished && LoadNew(schema, s.file).Some? && !DumpedIn(s.file, n)
    ensures At(LoadNew(schema, s.file).value, n) == At(LoadAfter(schema, s.base, s.file), n)
  {
    LoadedUndumped(schema, s.file, n);
    LoadAfterAt(schema, s.base, s.file, n);
    if n in s.base.nodes {
      var ops := Ops(s.txs[..s.written]);
      LegalPart(schema, s, s.written, n);
      Phases(schema, n, At(s.base, n), ops);
      NoBirth(schema, n, ops);
    }
  }

  /** Fuzzy dump correctness: once the dump of a process loaded without strays is finished and
      the file holds every transaction that a dump record shows, a new file in which no
      creation is in front of its node's dump record gives, loaded alone, the same nodes as
      behind the older files. */
  lemma NewFileSuffices(schema: Schema, run: seq<Sys>, steps: seq<Step>, i: nat)
    requires Run(schema, run, steps) && i < |run| && run[0].base.strays == []
    requires run[i].finished && AllSeenWritten(run[i]) && DumpsFirst(run[i].file)
    ensures LoadNew(schema, run[i].file).Some?
    ensures LoadNew(schema, run[i].file).value.nodes == LoadAfter(schema, run[i].base, run[i].file).nodes
  {
    var s := run[i];
    RunInv(schema, run, steps, i);
    LoadableIff(schema, run, steps, i);
    var alone, all := LoadNew(schema, s.file).value, LoadAfter(schema, s.base, s.file);
    forall n: nat ensures At(alone, n) == At(all, n) {
      if DumpedIn(s.file, n) {
        var x :| 0 <= x < |s.file| && s.file[x].DumpOf? && s.file[x].id == n;
        DumpedLoads(schema, s, x);
      } else {
        UndumpedLoads(schema, s, n);
      }
    }
    SameNodes(alone, all);
  }

  lemma SameNodes(a: Db, b: Db)
    requires forall n: nat :: At(a, n) == At(b, n)
    ensures a.nodes == b.nodes
  {
    forall n: nat ensures n in a.nodes <==> n in b.nodes {
      assert At(a, n) == At(b, n);
    }
    forall n: nat | n in a.nodes ensures a.nodes[n] == b.nodes[n] {
      assert At(a, n) == At(b, n);
    }
  }

  // ----- the file, said by the steps

  /** The transactions that were committed in the first `i` steps. */
  function CommitsOf(steps: seq<Step>, i: nat): seq<seq<Op>>
    requires i <= |steps|
  {
    if i == 0 then [] else CommitsOf(steps, i - 1) + if steps[i - 1].Commit? then [steps[i - 1].ops] else []
  }

  function WritesOf(steps: seq<Step>, i: nat): nat
    requires i <= |steps|
  {
    if i == 0 then 0 else WritesOf(steps, i - 1) + if steps[i - 1].WriteTx? then 1 else 0
  }

  lemma {:induction false} TxsAreCommits(schema: Schema, run: seq<Sys>, steps: seq<Step>, i: nat)
    requires Run(schema, run, steps) && i <= |steps|
    ensures run[i].txs == CommitsOf(steps, i) && run[i].written == WritesOf(steps, i) && run[i].base == run[0].base
  {
    if i > 0 {
      TxsAreCommits(schema, run, steps, i - 1);
      assert Stepped(schema, run, steps, i - 1);
    }
  }

  /** The database after the committed transactions whose records are in the file. */
  ghost function Written(schema: Schema, run: seq<Sys>, steps: seq<Step>, i: nat): Db
    requires Run(schema, run, steps) && i <= |steps| && WritesOf(steps, i) <= |CommitsOf(steps, i)|
  {
    ApplyAll(schema, run[0].base, Ops(CommitsOf(steps, i)[..WritesOf(steps, i)]))
  }

  /** What the new file gives, loaded alone: the old database with exactly the transactions of the
      steps so far that committed and were written. */
  lemma LoadedIsWritten(schema: Schema, run: seq<Sys>, steps: seq<Step>, i: nat)
    requires Run(schema, run, steps) && i <= |steps| && run[0].base.strays == []
    requires run[i].finished && AllSeenWritten(run[i]) && DumpsFirst(run[i].file)
    ensures WritesOf(steps, i) <= |CommitsOf(steps, i)| && LoadNew(schema, run[i].file).Some?
    ensures LoadNew(schema, run[i].file).value.nodes == Written(schema, run, steps, i).nodes
  {
    RunInv(schema, run, steps, i);
    TxsAreCommits(schema, run, steps, i);
    NewFileSuffices(schema, run, steps, i);
    var behind, written := LoadAfter(schema, run[i].base, run[i].file), Written(schema, run, steps, i);
    forall n: nat ensures At(behind, n) == At(written, n) {
      LoadAfterAt(schema, run[i].base, run[i].file, n);
      ApplyAllAt(schema, run[i].base, Ops(TxsOf(run[i].file)), n);
    }
    SameNodes(behind, written);
  }
}
