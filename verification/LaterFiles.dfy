/** Files behind the first one, and files that were closed.

    In a file behind the first one the dump is skipped: what it shows was loaded from the files
    before.  A file that was closed ends with a footer, the magic number of the next file. */
module LaterFiles {
  import opened StorageFormat
  import opened Roots
  import opened Readers
  import opened Writers
  import opened DataRecords
  import opened Recovery
  import opened FuzzyDump
  import opened DumpFiles

  // ----- a dump record that is not loaded

  lemma {:induction false} ValuesSkipped(vs: seq<Value>, rest: seq<byte>, d: nat)
    requires forall a :: 0 <= a < |vs| ==> ValueSized(vs[a])
    ensures Skip(Spell(ValueTokens(vs)) + rest, d) == Skip(rest, d)
  {
    if vs == [] {
      assert Spell([]) + rest == rest;
    } else {
      SpellCons(ValueToken(vs[0]), ValueTokens(vs[1..]), rest);
      ValueFits(vs[0]);
      SkipToken(ValueToken(vs[0]), Spell(ValueTokens(vs[1..])) + rest, d);
      ValuesSkipped(vs[1..], rest, d);
    }
  }

  /** The bytes of a dumped node, inside its record. */
  function NodeBytes(id: nat, node: NodeRec, close: seq<byte>): seq<byte> {
    TokenBytes(NumberToken(node.ty)) + (TokenBytes(NumberToken(id)) + (Spell(ValueTokens(node.attrs)) + (TokenBytes(Close) + close)))
  }

  lemma NodeSkipped(schema: Schema, id: nat, node: NodeRec, close: seq<byte>)
    requires NodeSound(schema, id, node) && KindOf(close).IsClose?
    ensures Skip(TokenBytes(Open) + NodeBytes(id, node, close), 0) == Some(close)
  {
    var values := Spell(ValueTokens(node.attrs)) + (TokenBytes(Close) + close);
    NumberFits(node.ty);
    NumberFits(id);
    SkipToken(Open, NodeBytes(id, node, close), 0);
    SkipToken(NumberToken(node.ty), TokenBytes(NumberToken(id)) + values, 1);
    SkipToken(NumberToken(id), values, 1);
    ValuesSkipped(node.attrs, TokenBytes(Close) + close, 1);
    SkipToken(Close, close, 1);
    SkipKinds(close, 0);
  }

  /** The record of a dumped node, split where loading looks at it. */
  lemma DumpRecord(id: nat, node: NodeRec, tail: seq<byte>) returns (record: seq<byte>, arrays: seq<byte>)
    ensures arrays == TokenBytes(Open) + NodeBytes(id, node, TokenBytes(Close) + tail)
    ensures KindOf(record).IsText? && ReadNumberAt(record) == Some((0, arrays))
    ensures DumpBody(id, node) + tail == TokenBytes(Open) + record
  {
    arrays := TokenBytes(Open) + NodeBytes(id, node, TokenBytes(Close) + tail);
    record := TokenBytes(NumberToken(0)) + arrays;
    DumpSpelled(id, node, tail);
    NumberRead(0, arrays);
  }

  /** In a later file a dump record is accepted and changes nothing. */
  lemma LaterDumpRead(schema: Schema, db: Db, id: nat, node: NodeRec)
    requires NodeSound(schema, id, node) && db.dumpOn
    ensures var buffer := DumpBody(id, node) + Tail(DumpBody(id, node), true);
      KindOf(buffer).IsOpen? && LoadArrayRoot(schema, false, db, buffer) == (db, true)
  {
    var body := DumpBody(id, node);
    var tail := Tail(body, true);
    var close := TokenBytes(Close) + tail;
    var record, arrays := DumpRecord(id, node, tail);
    OpenKind(record);
    CloseKind(tail);
    NodeSkipped(schema, id, node, close);
    EndCut(body, tail, body + tail, close);
    TailFinishes(body, true);
  }

  /** Outside of a dump a dump record is rejected, in every file. */
  lemma DumpOutside(schema: Schema, first: bool, db: Db, id: nat, node: NodeRec, tail: seq<byte>)
    requires !db.dumpOn
    ensures KindOf(DumpBody(id, node) + tail).IsOpen?
    ensures LoadArrayRoot(schema, first, db, DumpBody(id, node) + tail) == (db, false)
  {
    var record, arrays := DumpRecord(id, node, tail);
    OpenKind(record);
  }

  // ----- later files

  /** The effect of a record of a later file. */
  function LaterRec(schema: Schema, db: Db, r: FileRec): Db {
    match r
    case DumpOf(_, _) => db
    case TxOf(ops) => ApplyAll(schema, db, ops)
  }

  predicate LaterSound(schema: Schema, db: Db, file: seq<FileRec>)
    decreases file
  {
    file == [] || (RecSound(schema, db, file[0]) && LaterSound(schema, LaterRec(schema, db, file[0]), file[1..]))
  }

  lemma LaterRecRead(schema: Schema, db: Db, r: FileRec, rest: seq<byte>)
    requires RecSound(schema, db, r) && db.dumpOn
    ensures LoadRoots(schema, false, db, FileRecBytes(r) + rest) == LoadRoots(schema, false, LaterRec(schema, db, r), rest)
    ensures LaterRec(schema, db, r).dumpOn
  {
    match r
    case DumpOf(id, node) =>
      RootRoundTrip(DumpBody(id, node), true, rest);
      LaterDumpRead(schema, db, id, node);
    case TxOf(ops) =>
      OneRecord(schema, false, db, ops, rest);
      ApplyAllDump(schema, db, ops);
  }

  lemma {:induction false} AfterFirst(schema: Schema, db: Db, r: FileRec, file: seq<FileRec>)
    ensures LoadAfter(schema, db, [r] + file) == LoadAfter(schema, LaterRec(schema, db, r), file)
  {
    var all := [r] + file;
    if file == [] {
      assert all == [r] && [r][..0] == [];
    } else {
      assert all[..|all| - 1] == [r] + file[..|file| - 1];
      AfterFirst(schema, db, r, file[..|file| - 1]);
    }
  }

  lemma {:induction false} LaterBytesLoad(schema: Schema, db: Db, file: seq<FileRec>, rest: seq<byte>)
    requires LaterSound(schema, db, file) && db.dumpOn
    ensures LoadRoots(schema, false, db, FileBytes(file) + rest) == LoadRoots(schema, false, LoadAfter(schema, db, file), rest)
    ensures LoadAfter(schema, db, file).dumpOn
    decreases file
  {
    if file == [] {
      assert FileBytes(file) + rest == rest;
    } else {
      assert file == [file[0]] + file[1..];
      AfterFirst(schema, db, file[0], file[1..]);
      FileParts(file, rest);
      LaterRecRead(schema, db, file[0], FileBytes(file[1..]) + rest);
      LaterBytesLoad(schema, LaterRec(schema, db, file[0]), file[1..], rest);
    }
  }

  lemma ApplyDumpFlag(schema: Schema, db: Db, op: Op, on: bool)
    ensures Apply(schema, db.(dumpOn := on), op) == Apply(schema, db, op).(dumpOn := on)
  {
  }

  lemma {:induction false} ApplyAllFlag(schema: Schema, db: Db, ops: seq<Op>, on: bool)
    ensures ApplyAll(schema, db.(dumpOn := on), ops) == ApplyAll(schema, db, ops).(dumpOn := on)
    decreases ops
  {
    if ops != [] {
      ApplyDumpFlag(schema, db, ops[0], on);
      ApplyAllFlag(schema, Apply(schema, db, ops[0]), ops[1..], on);
    }
  }

  /** The dump flag has no part in what transactions do. */
  lemma {:induction false} AfterFlag(schema: Schema, db: Db, file: seq<FileRec>, on: bool)
    ensures LoadAfter(schema, db.(dumpOn := on), file) == LoadAfter(schema, db, file).(dumpOn := on)
  {
    if file != [] {
      var front := file[..|file| - 1];
      AfterFlag(schema, db, front, on);
      if file[|file| - 1].TxOf? {
        ApplyAllFlag(schema, LoadAfter(schema, db, front), file[|file| - 1].ops, on);
      }
    }
  }

  lemma LaterMarked(schema: Schema, db: Db, file: seq<FileRec>, rest: seq<byte>)
    requires LaterSound(schema, db.(dumpOn := true), file)
    ensures LoadFile(schema, false, db, Marker(DUMP_BEGIN) + (FileBytes(file) + (Marker(DUMP_END) + rest)))
         == LoadRoots(schema, false, LoadAfter(schema, db, file).(dumpOn := false), rest)
  {
    var end := Marker(DUMP_END) + rest;
    MarkerRead(DUMP_BEGIN, FileBytes(file) + end);
    AfterFlag(schema, db, file, true);
    LaterBytesLoad(schema, db.(dumpOn := true), file, end);
    MarkerRead(DUMP_END, rest);
  }

  /** A later file with its dump: `load_file` gives what its transactions make of what the older
      files left, skips the dump records, and can append to the file. */
  lemma LaterFileLoads(schema: Schema, db: Db, file: seq<FileRec>)
    requires LaterSound(schema, db.(dumpOn := true), file)
    ensures LoadFile(schema, false, db, Marker(DUMP_BEGIN) + (FileBytes(file) + Marker(DUMP_END)))
         == (LoadAfter(schema, db, file).(dumpOn := false), Unfinished)
  {
    LaterMarked(schema, db, file, []);
    assert Marker(DUMP_END) + [] == Marker(DUMP_END);
    NoFile(schema, false, LoadAfter(schema, db, file).(dumpOn := false));
  }

  /** Of bytes on both sides: the new file of a finished dump, loaded alone, gives the nodes that
      loading it behind the older files gives. */
  lemma NewBytesSuffice(schema: Schema, run: seq<Sys>, steps: seq<Step>, i: nat)
    requires Run(schema, run, steps) && i < |run| && run[0].base.strays == []
    requires run[i].finished && AllSeenWritten(run[i]) && DumpsFirst(run[i].file)
    requires FileSound(schema, EMPTY, run[i].file) && LaterSound(schema, run[i].base.(dumpOn := true), run[i].file)
    ensures var bytes := Marker(DUMP_BEGIN) + (FileBytes(run[i].file) + Marker(DUMP_END));
      var alone, behind := LoadFile(schema, true, NO_DATA, bytes), LoadFile(schema, false, run[i].base, bytes);
      alone.1 == behind.1 == Unfinished && alone.0.nodes == behind.0.nodes
  {
    NewFileSuffices(schema, run, steps, i);
    NewFileLoads(schema, run[i].file);
    LaterFileLoads(schema, run[i].base, run[i].file);
  }

  // ----- closed files

  /** `write_file_footer`. */
  function Footer(magic: nat): seq<byte> {
    Marker(END_OF_FILE) + Root(Spell([NumberToken(magic)]), false)
  }

  lemma MagicRead(magic: nat, rest: seq<byte>)
    requires magic < TWO_64
    ensures MagicRoot(Root(Spell([NumberToken(magic)]), false) + rest) == Some(magic)
  {
    var t := NumberToken(magic);
    var body := TokenBytes(t);
    var tail := Tail(body, false);
    SpellToken(t, []);
    assert Spell([t]) + [] == Spell([t]) && body + [] == body;
    NumberBytesShort(magic);
    ShortCode(NumberBytes(magic));
    RootRoundTrip(body, false, rest);
    NumberRead(magic, tail);
    TailFinishes(body, false);
    assert (body + tail)[..|body|] == body;
  }

  /** The footer closes the file with its magic number; what is behind it is not read. */
  lemma FooterCloses(schema: Schema, first: bool, db: Db, magic: nat, rest: seq<byte>)
    requires magic < TWO_64
    ensures LoadRoots(schema, first, db, Footer(magic) + rest) == (db, Closed(magic))
  {
    var number := Root(Spell([NumberToken(magic)]), false);
    Assoc(Marker(END_OF_FILE), number, rest);
    MarkerRead(END_OF_FILE, number + rest);
    MagicRead(magic, rest);
  }

  /** A later file that was closed. */
  lemma ClosedFileLoads(schema: Schema, db: Db, file: seq<FileRec>, magic: nat, rest: seq<byte>)
    requires LaterSound(schema, db.(dumpOn := true), file) && magic < TWO_64
    ensures LoadFile(schema, false, db, Marker(DUMP_BEGIN) + (FileBytes(file) + (Marker(DUMP_END) + (Footer(magic) + rest))))
         == (LoadAfter(schema, db, file).(dumpOn := false), Closed(magic))
  {
    LaterMarked(schema, db, file, Footer(magic) + rest);
    FooterCloses(schema, false, LoadAfter(schema, db, file).(dumpOn := false), magic, rest);
  }

  /** A new database's file that was closed. */
  lemma ClosedLogLoads(schema: Schema, db: Db, txs: seq<seq<Op>>, magic: nat)
    requires Sound(schema, db.(dumpOn := false), txs) && NoneEmpty(txs) && magic < TWO_64
    ensures LoadFile(schema, true, db, Marker(DUMP_BEGIN) + (Marker(DUMP_END) + (LogBytes(txs) + Footer(magic))))
         == (ApplyTxs(schema, db.(dumpOn := false), txs), Closed(magic))
  {
    EmptyDump(schema, db, LogBytes(txs) + Footer(magic));
    LogThen(schema, true, db.(dumpOn := false), txs, Footer(magic));
    assert Footer(magic) + [] == Footer(magic);
    FooterCloses(schema, true, ApplyTxs(schema, db.(dumpOn := false), txs), magic, []);
  }

  /** A log is loaded transaction by transaction, and then what is behind it. */
  lemma {:induction false} LogThen(schema: Schema, first: bool, db: Db, txs: seq<seq<Op>>, rest: seq<byte>)
    requires Sound(schema, db, txs) && NoneEmpty(txs)
    ensures LoadRoots(schema, first, db, LogBytes(txs) + rest) == LoadRoots(schema, first, ApplyTxs(schema, db, txs), rest)
    decreases txs
  {
    if txs == [] {
      assert LogBytes(txs) + rest == rest;
    } else {
      LogParts(txs);
      NoneEmptyStep(txs);
      Assoc(RecordBytes(txs[0]), LogBytes(txs[1..]), rest);
      OneRecord(schema, first, db, txs[0], LogBytes(txs[1..]) + rest);
      LogThen(schema, first, ApplyAll(schema, db, txs[0]), txs[1..], rest);
    }
  }
}
