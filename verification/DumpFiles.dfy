/** The bytes of a file with a dump: loading them does what `FuzzyDump.LoadNew` says. */
module DumpFiles {
  import opened StorageFormat
  import opened Roots
  import opened Readers
  import opened DataRecords
  import opened Recovery
  import opened FuzzyDump

  function ValueTokens(vs: seq<Value>): seq<Token> {
    if vs == [] then [] else [ValueToken(vs[0])] + ValueTokens(vs[1..])
  }

  /** `write_node_store`, in the record that `do_dump` wraps around it. */
  function DumpTokens(id: nat, node: NodeRec): seq<Token> {
    [Open, NumberToken(0), Open, NumberToken(node.ty), NumberToken(id)] + ValueTokens(node.attrs) + [Close, Close]
  }

  function DumpBody(id: nat, node: NodeRec): seq<byte> {
    Spell(DumpTokens(id, node))
  }

  /** A node that fits the schema and can be written. */
  predicate NodeSound(schema: Schema, id: nat, node: NodeRec) {
    && id < TWO_64 && node.ty < |schema| < TWO_64 && |node.attrs| == |schema[node.ty]|
    && (forall a :: 0 <= a < |node.attrs| ==> Typed(schema[node.ty][a], node.attrs[a]) && ValueSized(node.attrs[a]))
    && |DumpBody(id, node)| + 6 < TWO_64
  }

  /** The attributes are read one by one. */
  lemma {:induction false} AttrsRead(types: seq<AttrType>, vs: seq<Value>, so: seq<Value>, i: nat, rest: seq<byte>)
    requires |vs| == |types| == |so| && i <= |vs| && so[..i] == vs[..i]
    requires forall a :: 0 <= a < |vs| ==> Typed(types[a], vs[a]) && ValueSized(vs[a])
    ensures LoadAttrs(types, so, i, Spell(ValueTokens(vs[i..])) + rest) == (vs, Some(rest))
    decreases |vs| - i
  {
    if i == |vs| {
      assert so == vs;
      assert Spell([]) + rest == rest;
    } else {
      assert vs[i..][0] == vs[i] && vs[i..][1..] == vs[i + 1..];
      SpellCons(ValueToken(vs[i]), ValueTokens(vs[i + 1..]), rest);
      ValueRead(types[i], vs[i], Spell(ValueTokens(vs[i + 1..])) + rest);
      AttrsRead(types, vs, so[i := vs[i]], i + 1, rest);
    }
  }

  lemma NodeRead(schema: Schema, db: Db, id: nat, node: NodeRec, s: seq<byte>, s1: seq<byte>, rest: seq<byte>)
    requires NodeSound(schema, id, node)
    requires s1 == TokenBytes(NumberToken(id)) + (Spell(ValueTokens(node.attrs)) + rest)
    requires s == TokenBytes(NumberToken(node.ty)) + s1
    ensures LoadNode(schema, db, s) == if id in db.nodes then (AddStray(db, node.ty, id), None) else (AddNode(db, id, node), Some(rest))
  {
    NumberRead(node.ty, s1);
    NumberRead(id, Spell(ValueTokens(node.attrs)) + rest);
    if id !in db.nodes {
      var init := InitAttrs(schema[node.ty]);
      AttrsRead(schema[node.ty], node.attrs, init, 0, rest);
      assert node.attrs[0..] == node.attrs;
    }
  }

  lemma DumpSpelled(id: nat, node: NodeRec, tail: seq<byte>)
    ensures DumpBody(id, node) + tail
         == TokenBytes(Open) + (TokenBytes(NumberToken(0)) + (TokenBytes(Open) + (TokenBytes(NumberToken(node.ty))
            + (TokenBytes(NumberToken(id)) + (Spell(ValueTokens(node.attrs)) + (TokenBytes(Close) + (TokenBytes(Close) + tail)))))))
  {
    var vs := ValueTokens(node.attrs);
    var t5 := vs + [Close, Close];
    var t4 := [NumberToken(id)] + t5;
    var t3 := [NumberToken(node.ty)] + t4;
    var t2 := [Open] + t3;
    var t1 := [NumberToken(0)] + t2;
    assert DumpTokens(id, node) == [Open] + t1;
    SpellCons(Open, t1, tail);
    SpellCons(NumberToken(0), t2, tail);
    SpellCons(Open, t3, tail);
    SpellCons(NumberToken(node.ty), t4, tail);
    SpellCons(NumberToken(id), t5, tail);
    SpellParts(vs, [Close, Close], tail);
    SpellTwo(Close, Close, tail);
  }

  lemma DumpArrays(schema: Schema, db: Db, id: nat, node: NodeRec, inner: seq<byte>, close: seq<byte>)
    requires LoadNode(schema, db, inner) ==
             if id in db.nodes then (AddStray(db, node.ty, id), None) else (AddNode(db, id, node), Some(TokenBytes(Close) + close))
    requires KindOf(close).IsClose?
    ensures LoadArrays(schema, true, db, TokenBytes(Open) + inner) ==
            if id in db.nodes then (AddStray(db, node.ty, id), None) else (AddNode(db, id, node), Some(close))
  {
    OpenKind(inner);
    if id !in db.nodes {
      CloseKind(close);
    }
  }

  /** A dump record adds its node; it is rejected exactly when the node exists. */
  lemma DumpRead(schema: Schema, db: Db, id: nat, node: NodeRec)
    requires NodeSound(schema, id, node) && db.dumpOn
    ensures var buffer := DumpBody(id, node) + Tail(DumpBody(id, node), true);
      && KindOf(buffer).IsOpen?
      && LoadArrayRoot(schema, true, db, buffer) == if id in db.nodes then (AddStray(db, node.ty, id), false) else (AddNode(db, id, node), true)
  {
    var body := DumpBody(id, node);
    var tail := Tail(body, true);
    var close := TokenBytes(Close) + tail;
    var s1 := TokenBytes(NumberToken(id)) + (Spell(ValueTokens(node.attrs)) + (TokenBytes(Close) + close));
    var inner := TokenBytes(NumberToken(node.ty)) + s1;
    var record := TokenBytes(NumberToken(0)) + (TokenBytes(Open) + inner);
    DumpSpelled(id, node, tail);
    OpenKind(record);
    NumberRead(0, TokenBytes(Open) + inner);
    NodeRead(schema, db, id, node, inner, s1, TokenBytes(Close) + close);
    CloseKind(tail);
    DumpArrays(schema, db, id, node, inner, close);
    RecordEnds(schema, db, record, TokenBytes(Open) + inner, body, tail);
  }

  lemma RecordEnds(schema: Schema, db: Db, record: seq<byte>, arrays: seq<byte>, body: seq<byte>, tail: seq<byte>)
    requires KindOf(record).IsText? && ReadNumberAt(record) == Some((0, arrays)) && db.dumpOn
    requires tail == Tail(body, true) && body + tail == TokenBytes(Open) + record
    requires var r := LoadArrays(schema, true, db, arrays).1; r.None? || r.value == TokenBytes(Close) + tail
    ensures KindOf(body + tail).IsOpen?
    ensures LoadArrayRoot(schema, true, db, body + tail)
         == (LoadArrays(schema, true, db, arrays).0, LoadArrays(schema, true, db, arrays).1.Some?)
  {
    OpenKind(record);
    CloseKind(tail);
    if LoadArrays(schema, true, db, arrays).1.Some? {
      EndCut(body, tail, body + tail, TokenBytes(Close) + tail);
      TailFinishes(body, true);
    }
  }

  // ----- files

  function FileRecBytes(r: FileRec): seq<byte> {
    match r
    case DumpOf(id, node) => Root(DumpBody(id, node), true)
    case TxOf(ops) => RecordBytes(ops)
  }

  /** A record that fits the schema where it is loaded. */
  predicate RecSound(schema: Schema, db: Db, r: FileRec) {
    match r
    case DumpOf(id, node) => NodeSound(schema, id, node)
    case TxOf(ops) =>
      ops != [] && |TransactionBody(ops)| + 6 < TWO_64 && AllFitDb(schema, db, ops) && forall op :: op in ops ==> OpSized(op)
  }

  function LoadRec(schema: Schema, db: Db, r: FileRec): Option<Db> {
    match r
    case DumpOf(id, node) => if id in db.nodes then None else Some(AddNode(db, id, node))
    case TxOf(ops) => Some(ApplyAll(schema, db, ops))
  }

  function LoadRecs(schema: Schema, db: Db, file: seq<FileRec>): Option<Db>
    decreases file
  {
    if file == [] then Some(db)
    else
      match LoadRec(schema, db, file[0])
      case None => None
      case Some(db') => LoadRecs(schema, db', file[1..])
  }

  predicate FileSound(schema: Schema, db: Db, file: seq<FileRec>)
    decreases file
  {
    file == [] ||
    (RecSound(schema, db, file[0])
     && (LoadRec(schema, db, file[0]).Some? ==> FileSound(schema, LoadRec(schema, db, file[0]).value, file[1..])))
  }

  lemma {:induction false} ApplyAllDump(schema: Schema, db: Db, ops: seq<Op>)
    ensures ApplyAll(schema, db, ops).dumpOn == db.dumpOn
    decreases ops
  {
    if ops != [] {
      ApplyAllDump(schema, Apply(schema, db, ops[0]), ops[1..]);
    }
  }

  lemma FirstRec(schema: Schema, db: Db, r: FileRec, rest: seq<byte>)
    requires RecSound(schema, db, r) && db.dumpOn
    ensures LoadRec(schema, db, r).Some? ==>
              LoadRoots(schema, true, db, FileRecBytes(r) + rest) == LoadRoots(schema, true, LoadRec(schema, db, r).value, rest)
    ensures LoadRec(schema, db, r).None? ==>
              r.DumpOf? && LoadRoots(schema, true, db, FileRecBytes(r) + rest) == (AddStray(db, r.node.ty, r.id), Corrupted)
    ensures LoadRec(schema, db, r).Some? ==> LoadRec(schema, db, r).value.dumpOn
  {
    match r
    case DumpOf(id, node) =>
      RootRoundTrip(DumpBody(id, node), true, rest);
      DumpRead(schema, db, id, node);
    case TxOf(ops) =>
      OneRecord(schema, true, db, ops, rest);
      ApplyAllDump(schema, db, ops);
  }

  function FileBytes(file: seq<FileRec>): seq<byte> {
    Flat(FileRecBytes, file)
  }

  /** Loading `s` does what loading the records of `file` means, and goes on at `rest`. */
  ghost predicate Loads(schema: Schema, db: Db, file: seq<FileRec>, s: seq<byte>, rest: seq<byte>) {
    match LoadRecs(schema, db, file)
    case None => LoadRoots(schema, true, db, s).1.Corrupted?
    case Some(db') => db'.dumpOn && LoadRoots(schema, true, db, s) == LoadRoots(schema, true, db', rest)
  }

  lemma LoadsStep(schema: Schema, db: Db, file: seq<FileRec>, more: seq<byte>, rest: seq<byte>)
    requires file != [] && RecSound(schema, db, file[0]) && db.dumpOn
    requires LoadRec(schema, db, file[0]).Some? ==> Loads(schema, LoadRec(schema, db, file[0]).value, file[1..], more, rest)
    ensures Loads(schema, db, file, FileRecBytes(file[0]) + more, rest)
  {
    FirstRec(schema, db, file[0], more);
  }

  lemma FileParts(file: seq<FileRec>, rest: seq<byte>)
    requires file != []
    ensures FileBytes(file) + rest == FileRecBytes(file[0]) + (FileBytes(file[1..]) + rest)
  {
    Assoc(FileRecBytes(file[0]), FileBytes(file[1..]), rest);
  }

  lemma RecKeepsDump(schema: Schema, db: Db, r: FileRec)
    requires db.dumpOn && LoadRec(schema, db, r).Some?
    ensures LoadRec(schema, db, r).value.dumpOn
  {
    if r.TxOf? {
      ApplyAllDump(schema, db, r.ops);
    }
  }

  /** Loading the bytes of dump records and transactions does what loading the records means. */
  lemma {:induction false} BytesLoad(schema: Schema, db: Db, file: seq<FileRec>, rest: seq<byte>)
    requires FileSound(schema, db, file) && db.dumpOn
    ensures Loads(schema, db, file, FileBytes(file) + rest, rest)
    decreases file
  {
    if file == [] {
      assert FileBytes(file) + rest == rest;
    } else {
      if LoadRec(schema, db, file[0]).Some? {
        RecKeepsDump(schema, db, file[0]);
        BytesLoad(schema, LoadRec(schema, db, file[0]).value, file[1..], rest);
      }
      FileParts(file, rest);
      LoadsStep(schema, db, file, FileBytes(file[1..]) + rest, rest);
    }
  }

  lemma {:induction false} RecsConcat(schema: Schema, db: Db, file: seq<FileRec>, r: FileRec)
    ensures LoadRecs(schema, db, file + [r]) ==
            match LoadRecs(schema, db, file) case None => None case Some(db') => LoadRec(schema, db', r)
    decreases file
  {
    if file == [] {
      assert file + [r] == [r];
    } else {
      assert (file + [r])[0] == file[0] && (file + [r])[1..] == file[1..] + [r];
      if LoadRec(schema, db, file[0]).Some? {
        RecsConcat(schema, LoadRec(schema, db, file[0]).value, file[1..], r);
      }
    }
  }

  const EMPTY := NO_DATA.(dumpOn := true)

  lemma {:induction false} RecsAreNew(schema: Schema, file: seq<FileRec>)
    ensures LoadRecs(schema, EMPTY, file) == LoadNew(schema, file)
  {
    if file != [] {
      var front := file[..|file| - 1];
      RecsAreNew(schema, front);
      RecsConcat(schema, EMPTY, front, file[|file| - 1]);
      assert file == front + [file[|file| - 1]];
    }
  }

  /** A new file, between its dump markers: `load_file` gives the nodes of `LoadNew`, and
      rejects the file exactly when `LoadNew` fails. */
  lemma NewFileLoads(schema: Schema, file: seq<FileRec>)
    requires FileSound(schema, EMPTY, file)
    ensures var (db, outcome) :=
        LoadFile(schema, true, NO_DATA, Marker(DUMP_BEGIN) + (FileBytes(file) + Marker(DUMP_END)));
      && (outcome.Unfinished? <==> LoadNew(schema, file).Some?)
      && (LoadNew(schema, file).Some? ==> db == LoadNew(schema, file).value.(dumpOn := false))
  {
    var end := Marker(DUMP_END);
    MarkerRead(DUMP_BEGIN, FileBytes(file) + end);
    RecsAreNew(schema, file);
    BytesLoad(schema, EMPTY, file, end);
    if LoadNew(schema, file).Some? {
      var db := LoadNew(schema, file).value;
      assert end + [] == end;
      DumpEnds(schema, db, []);
      NoFile(schema, true, db.(dumpOn := false));
    }
  }
}
