/** The id counter after loading.

    Every id that is in use is at most the counter, so that the ids given out after loading are
    new.  The counter never falls while files are loaded, and it is the greatest id of a record. */
module Counters {
  import opened StorageFormat
  import opened Roots
  import opened Readers
  import opened DataRecords
  import opened Recovery
  import opened FuzzyDump
  import Images

  /** No node has an id above the counter. */
  predicate Counted(db: Db) {
    forall id :: id in db.nodes ==> id <= db.counter
  }

  /** What loading keeps and does not take back. */
  ghost predicate Rises(db: Db, db': Db) {
    db.counter <= db'.counter && (Counted(db) ==> Counted(db'))
  }

  // ----- any bytes

  lemma AddRises(db: Db, id: nat, node: NodeRec)
    ensures Rises(db, AddNode(db, id, node)) && id <= AddNode(db, id, node).counter
  {
  }

  lemma OpRises(schema: Schema, db: Db, s: seq<byte>)
    ensures Rises(db, LoadOp(schema, db, s).0)
  {
    match ReadNumberAt(s)
    case None =>
    case Some((tag, rest)) =>
      if tag == CREATED {
        match LoadPrepare(schema, db, rest)
        case None =>
        case Some((ty, id, _)) => AddRises(db, id, NodeRec(ty, InitAttrs(schema[ty])));
      } else if tag == MODIFIED {
        ModifyRises(schema, db, rest);
      }
  }

  lemma ModifyRises(schema: Schema, db: Db, s: seq<byte>)
    ensures Rises(db, LoadModify(schema, db, s).0)
  {
  }

  lemma NodeRises(schema: Schema, db: Db, s: seq<byte>)
    ensures Rises(db, LoadNode(schema, db, s).0)
  {
    match LoadPrepare(schema, db, s)
    case None =>
    case Some((ty, id, rest)) =>
      if id !in db.nodes {
        AddRises(db, id, NodeRec(ty, LoadAttrs(schema[ty], InitAttrs(schema[ty]), 0, rest).0));
      }
  }

  lemma {:induction false} ArraysRise(schema: Schema, dump: bool, db: Db, s: seq<byte>)
    ensures Rises(db, LoadArrays(schema, dump, db, s).0)
    decreases |s|
  {
    if KindOf(s).IsOpen? {
      NodeRises(schema, db, s[1..]);
      OpRises(schema, db, s[1..]);
      var (db', r) := if dump then LoadNode(schema, db, s[1..]) else LoadOp(schema, db, s[1..]);
      if r.Some? && KindOf(r.value).IsClose? {
        ArraysRise(schema, dump, db', r.value[1..]);
      }
    }
  }

  lemma RootRises(schema: Schema, first: bool, db: Db, buffer: seq<byte>)
    requires KindOf(buffer).IsOpen?
    ensures Rises(db, LoadArrayRoot(schema, first, db, buffer).0)
  {
    var s := buffer[1..];
    ArraysRise(schema, false, db, s);
    if KindOf(s).IsText? && ReadNumberAt(s).Some? {
      ArraysRise(schema, true, db, ReadNumberAt(s).value.1);
    }
  }

  lemma {:induction false} RootsRise(schema: Schema, first: bool, db: Db, file: seq<byte>)
    ensures Rises(db, LoadRoots(schema, first, db, file).0)
    decreases |file|
  {
    var (status, buffer, rest) := ReadRoot(file);
    if status.Success? {
      if KindOf(buffer).IsOpen? {
        RootRises(schema, first, db, buffer);
        var (db', ok) := LoadArrayRoot(schema, first, db, buffer);
        if ok {
          RootsRise(schema, first, db', rest);
        }
      } else if KindOf(buffer).IsText? {
        RootsRise(schema, first, db.(dumpOn := true), rest);
        RootsRise(schema, first, db.(dumpOn := false), rest);
      }
    }
  }

  /** Whatever the bytes of a file, first or later: after loading no node has an id above the
      counter, if none had before, and the counter has not fallen. */
  lemma FileRises(schema: Schema, first: bool, db: Db, file: seq<byte>)
    ensures Rises(db, LoadFile(schema, first, db, file).0)
  {
    var (status, buffer, rest) := ReadRoot(file);
    RootsRise(schema, first, db.(dumpOn := true), rest);
    RootsRise(schema, first, db.(dumpOn := false), file);
  }

  // ----- which number it is

  /** The ids that records bring: those of creations, and of dump records. */
  predicate Brings(r: FileRec, id: nat) {
    match r
    case DumpOf(n, _) => n == id
    case TxOf(ops) => Creates(ops, id)
  }

  predicate BroughtBy(file: seq<FileRec>, id: nat) {
    exists x :: 0 <= x < |file| && Brings(file[x], id)
  }

  lemma BroughtFront(file: seq<FileRec>, id: nat)
    requires file != []
    ensures BroughtBy(file, id) <==> BroughtBy(file[..|file| - 1], id) || Brings(file[|file| - 1], id)
  {
    var front := file[..|file| - 1];
    if BroughtBy(front, id) {
      var x :| 0 <= x < |front| && Brings(front[x], id);
      assert Brings(file[x], id);
    }
    if BroughtBy(file, id) && !Brings(file[|file| - 1], id) {
      var x :| 0 <= x < |file| && Brings(file[x], id);
      assert Brings(front[x], id);
    }
  }

  ghost predicate KnownOps(schema: Schema, ops: seq<Op>) {
    forall op :: op in ops && op.Create? ==> op.ty < |schema|
  }

  ghost predicate KnownTypes(schema: Schema, file: seq<FileRec>) {
    forall x :: 0 <= x < |file| && file[x].TxOf? ==> KnownOps(schema, file[x].ops)
  }

  /** The counter is the least number that is at least what it was and every id created. */
  ghost predicate CountsOps(before: nat, ops: seq<Op>, after: nat) {
    && before <= after && (forall id: nat :: Creates(ops, id) ==> id <= after)
    && (after == before || Creates(ops, after))
  }

  /** The same for the records of a new file. */
  ghost predicate CountsFile(file: seq<FileRec>, after: nat) {
    && (forall id: nat :: BroughtBy(file, id) ==> id <= after)
    && 1 <= after && (after == 1 || BroughtBy(file, after))
  }

  lemma OpCounter(schema: Schema, db: Db, op: Op)
    requires Counted(db) && KnownOps(schema, [op])
    ensures Counted(Apply(schema, db, op)) && db.counter <= Apply(schema, db, op).counter
    ensures op.Create? ==> op.newId <= Apply(schema, db, op).counter
    ensures Apply(schema, db, op).counter == db.counter || (op.Create? && op.newId == Apply(schema, db, op).counter)
  {
    assert op in [op];
  }

  lemma {:induction false} OpsCounter(schema: Schema, db: Db, ops: seq<Op>)
    requires Counted(db) && KnownOps(schema, ops)
    ensures Counted(ApplyAll(schema, db, ops)) && CountsOps(db.counter, ops, ApplyAll(schema, db, ops).counter)
    decreases ops
  {
    if ops != [] {
      var db', rest := Apply(schema, db, ops[0]), ops[1..];
      assert forall op :: op in rest ==> op in ops;
      assert ops[0] in ops;
      OpCounter(schema, db, ops[0]);
      OpsCounter(schema, db', rest);
      forall id: nat ensures Creates(ops, id) <==> Creates(rest, id) || (ops[0].Create? && ops[0].newId == id) {
        CreatesFirst(ops, id);
      }
    }
  }

  lemma CreatesFirst(ops: seq<Op>, id: nat)
    requires ops != []
    ensures Creates(ops, id) <==> Creates(ops[1..], id) || (ops[0].Create? && ops[0].newId == id)
  {
    if Creates(ops[1..], id) {
      var i :| 0 <= i < |ops[1..]| && ops[1..][i].Create? && ops[1..][i].newId == id;
      assert ops[i + 1].Create? && ops[i + 1].newId == id;
    }
    if Creates(ops, id) && !(ops[0].Create? && ops[0].newId == id) {
      var i :| 0 <= i < |ops| && ops[i].Create? && ops[i].newId == id;
      assert ops[1..][i - 1].Create? && ops[1..][i - 1].newId == id;
    }
  }

  /** Loading a new file alone gives the greatest id of its records, or 1. */
  lemma {:induction false} NewCounter(schema: Schema, file: seq<FileRec>)
    requires KnownTypes(schema, file) && LoadNew(schema, file).Some?
    ensures Counted(LoadNew(schema, file).value) && CountsFile(file, LoadNew(schema, file).value.counter)
  {
    if file != [] {
      var front, last := file[..|file| - 1], file[|file| - 1];
      NewCounter(schema, front);
      var db := LoadNew(schema, front).value;
      if last.TxOf? {
        OpsCounter(schema, db, last.ops);
      } else {
        AddRises(db, last.id, last.node);
      }
      forall id: nat ensures BroughtBy(file, id) <==> BroughtBy(front, id) || Brings(last, id) {
        BroughtFront(file, id);
      }
    }
  }

  /** So does loading it behind older ones, for the transactions and what was there before. */
  lemma {:induction false} AfterCounter(schema: Schema, db: Db, file: seq<FileRec>)
    requires KnownTypes(schema, file) && Counted(db)
    ensures Counted(LoadAfter(schema, db, file))
    ensures CountsOps(db.counter, Ops(TxsOf(file)), LoadAfter(schema, db, file).counter)
  {
    if file != [] {
      var front, last := file[..|file| - 1], file[|file| - 1];
      AfterCounter(schema, db, front);
      if last.TxOf? {
        OpsCounter(schema, LoadAfter(schema, db, front), last.ops);
        assert (TxsOf(front) + [last.ops])[..|TxsOf(front)|] == TxsOf(front);
        forall id: nat
          ensures Creates(Ops(TxsOf(front)) + last.ops, id) <==> Creates(Ops(TxsOf(front)), id) || Creates(last.ops, id)
        {
          Images.LivesJoined(Ops(TxsOf(front)), last.ops, id);
        }
      }
    }
  }
}
