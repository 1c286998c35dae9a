/** Loading a data file, and what a file cut short by a crash recovers.

    The functions say what `load_file` does to the node dictionary and what it returns,
    behind the file header.  The class below does it with the Reader. */
module Recovery {
  import opened StorageFormat
  import opened Roots
  import opened Readers
  import opened RawStrings
  import opened DataRecords

  const DUMP_BEGIN: seq<byte> := [68, 85, 77, 80, 32, 66, 69, 71, 73, 78]
  const DUMP_END: seq<byte> := [68, 85, 77, 80, 32, 69, 78, 68]
  const END_OF_FILE: seq<byte> := [69, 78, 68, 32, 79, 70, 32, 70, 73, 76, 69]

  datatype Outcome = Closed(magic: nat) | Unfinished | Corrupted

  /** The string a root element consists of, when it ends soundly behind it. */
  function StringRoot(buffer: seq<byte>): Option<seq<byte>> {
    match ReadText(buffer)
    case None => None
    case Some((s, rest)) => if Finishes(buffer[..|buffer| - |rest|], rest, false) then Some(s) else None
  }

  /** The magic number in the root element behind the footer. */
  function MagicRoot(file: seq<byte>): Option<nat> {
    var (status, buffer, _) := ReadRoot(file);
    if !status.Success? then None
    else
      match ReadNumberAt(buffer)
      case None => None
      case Some((n, rest)) =>
        if Finishes(buffer[..|buffer| - |rest|], rest, false) then Some(n) else None
  }

  /** The loop of `load_file`. */
  function LoadRoots(schema: Schema, first: bool, db: Db, file: seq<byte>): (Db, Outcome)
    decreases |file|
  {
    var (status, buffer, rest) := ReadRoot(file);
    if status.EndOfFile? then (db, Unfinished)
    else if status.Fail? then (db, Corrupted)
    else
      match KindOf(buffer)
      case IsOpen =>
        var (db', ok) := LoadArrayRoot(schema, first, db, buffer);
        if ok then LoadRoots(schema, first, db', rest) else (db', Corrupted)
      case IsText =>
        (match StringRoot(buffer)
         case None => (db, Corrupted)
         case Some(s) =>
           if s == DUMP_BEGIN then
             if db.dumpOn then (db, Corrupted) else LoadRoots(schema, first, db.(dumpOn := true), rest)
           else if s == DUMP_END then
             if db.dumpOn then LoadRoots(schema, first, db.(dumpOn := false), rest) else (db, Corrupted)
           else if s == END_OF_FILE && MagicRoot(rest).Some? then (db, Closed(MagicRoot(rest).value))
           else (db, Corrupted))
      case _ => (db, Corrupted)
  }

  /** `load_file`: the first file must begin with a dump. */
  function LoadFile(schema: Schema, first: bool, db: Db, file: seq<byte>): (Db, Outcome) {
    if first then
      var (status, buffer, rest) := ReadRoot(file);
      if status.Success? && StringRoot(buffer) == Some(DUMP_BEGIN)
      then LoadRoots(schema, first, db.(dumpOn := true), rest) else (db.(dumpOn := false), Corrupted)
    else LoadRoots(schema, first, db.(dumpOn := false), file)
  }

  /** The root element that makes loading fail, if one does. */
  function RejectedRoot(schema: Schema, first: bool, db: Db, file: seq<byte>): Option<seq<byte>>
    decreases |file|
  {
    var (status, buffer, rest) := ReadRoot(file);
    if !status.Success? then None
    else
      match KindOf(buffer)
      case IsOpen =>
        var (db', ok) := LoadArrayRoot(schema, first, db, buffer);
        if ok then RejectedRoot(schema, first, db', rest) else Some(buffer)
      case IsText =>
        var s := StringRoot(buffer);
        if s == Some(DUMP_BEGIN) && !db.dumpOn then RejectedRoot(schema, first, db.(dumpOn := true), rest)
        else if s == Some(DUMP_END) && db.dumpOn then RejectedRoot(schema, first, db.(dumpOn := false), rest)
        else Some(buffer)
      case _ => None
  }

  function RejectedIn(schema: Schema, first: bool, db: Db, file: seq<byte>): Option<seq<byte>> {
    if first then
      var (status, buffer, rest) := ReadRoot(file);
      if !status.Success? then None
      else if StringRoot(buffer) == Some(DUMP_BEGIN) then RejectedRoot(schema, first, db.(dumpOn := true), rest)
      else Some(buffer)
    else RejectedRoot(schema, first, db.(dumpOn := false), file)
  }

  /** A read of `load_file` may stray, and that only in the root element it rejects. */
  ghost predicate LoadMayStray(schema: Schema, first: bool, db: Db, file: seq<byte>) {
    RejectedIn(schema, first, db, file).Some? && MayStray(RejectedIn(schema, first, db, file).value)
  }

  // ----- files of transactions

  /** The record of a transaction. */
  function RecordBytes(ops: seq<Op>): seq<byte> {
    Root(TransactionBody(ops), true)
  }

  function LogBytes(txs: seq<seq<Op>>): seq<byte> {
    Flat(RecordBytes, txs)
  }

  function Marker(s: seq<byte>): seq<byte> {
    Root(Spell([Text(s)]), false)
  }

  function ApplyTxs(schema: Schema, db: Db, txs: seq<seq<Op>>): Db
    decreases txs
  {
    if txs == [] then db else ApplyTxs(schema, ApplyAll(schema, db, txs[0]), txs[1..])
  }

  /** Records that fit in 64-bit lengths and operations that fit the schema where they run. */
  predicate Sound(schema: Schema, db: Db, txs: seq<seq<Op>>)
    decreases txs
  {
    txs == [] ||
    (&& |TransactionBody(txs[0])| + 6 < TWO_64 && (forall op :: op in txs[0] ==> OpSized(op))
     && AllFitDb(schema, db, txs[0])
     && Sound(schema, ApplyAll(schema, db, txs[0]), txs[1..]))
  }

  /** What loading the first `k` bytes of a log comes to, for records of some form. */
  function ExpectedBy(record: seq<Op> -> seq<byte>, schema: Schema, db: Db, txs: seq<seq<Op>>, k: nat): (Db, Outcome)
    decreases txs
  {
    if txs == [] || k < |record(txs[0])| then (db, if k == 0 then Unfinished else Corrupted)
    else if txs[0] == [] then (db, Corrupted)
    else ExpectedBy(record, schema, ApplyAll(schema, db, txs[0]), txs[1..], k - |record(txs[0])|)
  }

  function Expected(schema: Schema, db: Db, txs: seq<seq<Op>>, k: nat): (Db, Outcome) {
    ExpectedBy(RecordBytes, schema, db, txs, k)
  }

  lemma OneRecord(schema: Schema, first: bool, db: Db, ops: seq<Op>, rest: seq<byte>)
    requires |TransactionBody(ops)| + 6 < TWO_64 && (forall op :: op in ops ==> OpSized(op)) && AllFitDb(schema, db, ops)
    ensures LoadRoots(schema, first, db, RecordBytes(ops) + rest)
         == if ops == [] then (db, Corrupted) else LoadRoots(schema, first, ApplyAll(schema, db, ops), rest)
  {
    RootRoundTrip(TransactionBody(ops), true, rest);
    TransactionRead(schema, first, db, ops);
  }

  lemma CutRecord(schema: Schema, first: bool, db: Db, ops: seq<Op>, k: nat)
    requires |TransactionBody(ops)| + 6 < TWO_64 && k < |RecordBytes(ops)|
    ensures LoadRoots(schema, first, db, RecordBytes(ops)[..k]) == (db, if k == 0 then Unfinished else Corrupted)
  {
    RootCut(TransactionBody(ops), true, k);
  }

  lemma NoFile(schema: Schema, first: bool, db: Db)
    ensures LoadRoots(schema, first, db, []) == (db, Unfinished)
  {
  }

  lemma RecordNotEmpty(ops: seq<Op>)
    ensures |RecordBytes(ops)| > 0
  {
  }

  /** The first record of a cut log, when it is whole. */
  lemma FirstWhole(schema: Schema, first: bool, db: Db, ops: seq<Op>, log: seq<byte>, k: nat, result: (Db, Outcome))
    requires |TransactionBody(ops)| + 6 < TWO_64 && (forall op :: op in ops ==> OpSized(op)) && AllFitDb(schema, db, ops)
    requires |RecordBytes(ops)| <= k <= |RecordBytes(ops) + log|
    requires if ops == [] then result == (db, Corrupted)
             else LoadRoots(schema, first, ApplyAll(schema, db, ops), log[..k - |RecordBytes(ops)|]) == result
    ensures LoadRoots(schema, first, db, (RecordBytes(ops) + log)[..k]) == result
  {
    var record := RecordBytes(ops);
    assert (record + log)[..k] == record + log[..k - |record|];
    OneRecord(schema, first, db, ops, log[..k - |record|]);
  }

  lemma FirstCut(schema: Schema, first: bool, db: Db, ops: seq<Op>, log: seq<byte>, k: nat)
    requires |TransactionBody(ops)| + 6 < TWO_64 && k < |RecordBytes(ops)|
    ensures LoadRoots(schema, first, db, (RecordBytes(ops) + log)[..k]) == (db, if k == 0 then Unfinished else Corrupted)
  {
    assert (RecordBytes(ops) + log)[..k] == RecordBytes(ops)[..k];
    CutRecord(schema, first, db, ops, k);
  }

  lemma LogParts(txs: seq<seq<Op>>)
    requires txs != []
    ensures LogBytes(txs) == RecordBytes(txs[0]) + LogBytes(txs[1..])
  {
  }

  lemma ExpectedStep(schema: Schema, db: Db, txs: seq<seq<Op>>, k: nat, first: nat)
    requires txs != [] && first == |RecordBytes(txs[0])|
    ensures k < first ==> Expected(schema, db, txs, k) == (db, if k == 0 then Unfinished else Corrupted)
    ensures k >= first && txs[0] == [] ==> Expected(schema, db, txs, k) == (db, Corrupted)
    ensures k >= first && txs[0] != [] ==>
              Expected(schema, db, txs, k) == Expected(schema, ApplyAll(schema, db, txs[0]), txs[1..], k - first)
  {
  }

  /** Loading a log cut anywhere, whether or not it has empty transactions. */
  lemma {:induction false} LoadCut(schema: Schema, first: bool, db: Db, txs: seq<seq<Op>>, k: nat)
    requires Sound(schema, db, txs) && k <= |LogBytes(txs)|
    ensures LoadRoots(schema, first, db, LogBytes(txs)[..k]) == Expected(schema, db, txs, k)
    decreases txs
  {
    if txs == [] {
      NoFile(schema, first, db);
      assert LogBytes(txs)[..k] == [];
    } else {
      var size, log := |RecordBytes(txs[0])|, LogBytes(txs[1..]);
      LogParts(txs);
      ExpectedStep(schema, db, txs, k, size);
      if k < size {
        FirstCut(schema, first, db, txs[0], log, k);
      } else {
        if txs[0] != [] {
          LoadCut(schema, first, ApplyAll(schema, db, txs[0]), txs[1..], k - size);
        }
        FirstWhole(schema, first, db, txs[0], log, k, Expected(schema, db, txs, k));
      }
    }
  }

  /** `j` is the number of whole transactions in the first `k` bytes. */
  predicate WholeBy(record: seq<Op> -> seq<byte>, txs: seq<seq<Op>>, k: nat, j: nat) {
    && j <= |txs| && |Flat(record, txs[..j])| <= k
    && (j < |txs| ==> k < |Flat(record, txs[..j + 1])|)
  }

  predicate Whole(txs: seq<seq<Op>>, k: nat, j: nat) {
    WholeBy(RecordBytes, txs, k, j)
  }

  /** Every transaction holds a node operation. */
  predicate NoneEmpty(txs: seq<seq<Op>>) {
    forall i :: 0 <= i < |txs| ==> txs[i] != []
  }

  lemma NoneEmptyStep(txs: seq<seq<Op>>)
    requires txs != []
    ensures NoneEmpty(txs) <==> txs[0] != [] && NoneEmpty(txs[1..])
  {
    if txs[0] != [] && NoneEmpty(txs[1..]) {
      forall i | 0 <= i < |txs| ensures txs[i] != [] {
        if i > 0 {
          assert txs[i] == txs[1..][i - 1];
        }
      }
    }
  }

  lemma {:induction false} ExpectedWhole(record: seq<Op> -> seq<byte>, schema: Schema, db: Db,
      txs: seq<seq<Op>>, k: nat, j: nat)
    requires k <= |Flat(record, txs)| && WholeBy(record, txs, k, j)
    requires NoneEmpty(txs)
    ensures ExpectedBy(record, schema, db, txs, k)
         == (ApplyTxs(schema, db, txs[..j]), if k == |Flat(record, txs[..j])| then Unfinished else Corrupted)
    decreases txs
  {
    if j == 0 {
      assert txs[..0] == [] && (txs != [] ==> txs[..1] == [txs[0]]);
      if txs != [] {
        assert Flat(record, [txs[0]]) == record(txs[0]) + Flat(record, []);
      }
    } else {
      assert txs[..j][0] == txs[0] && txs[..j][1..] == txs[1..][..j - 1];
      if j < |txs| {
        assert txs[..j + 1][0] == txs[0] && txs[..j + 1][1..] == txs[1..][..j];
      }
      NoneEmptyStep(txs);
      ExpectedWhole(record, schema, ApplyAll(schema, db, txs[0]), txs[1..], k - |record(txs[0])|, j - 1);
    }
  }

  lemma MarkerText(s: seq<byte>, c: seq<byte>, tail: seq<byte>)
    requires |s| + STRING < TWO_64 && c == Code(|s| + STRING)
    ensures ReadText(c + s + tail) == Some((s, tail)) && KindOf(c + s + tail).IsText?
  {
    TextRoundTrip(s, c, tail);
    Assoc(c, s, tail);
  }

  lemma MarkerBody(s: seq<byte>)
    ensures Spell([Text(s)]) == TokenBytes(Text(s))
  {
    SpellToken(Text(s), []);
    assert Spell([Text(s)]) + [] == Spell([Text(s)]) && TokenBytes(Text(s)) + [] == TokenBytes(Text(s));
  }

  lemma MarkerRead(s: seq<byte>, rest: seq<byte>)
    requires |s| + STRING + 16 < TWO_64
    ensures var (status, buffer, after) := ReadRoot(Marker(s) + rest);
      status.Success? && KindOf(buffer).IsText? && StringRoot(buffer) == Some(s) && after == rest
  {
    var body := TokenBytes(Text(s));
    MarkerBody(s);
    MarkerLength(s);
    RootRoundTrip(body, false, rest);
    MarkerText(s, Code(|s| + STRING), Tail(body, false));
    StringEnds(body, s);
  }

  lemma MarkerLength(s: seq<byte>)
    ensures |TokenBytes(Text(s))| <= |s| + 9
  {
  }

  lemma StringEnds(body: seq<byte>, s: seq<byte>)
    requires ReadText(body + Tail(body, false)) == Some((s, Tail(body, false)))
    ensures StringRoot(body + Tail(body, false)) == Some(s)
  {
    TailFinishes(body, false);
    assert (body + Tail(body, false))[..|body|] == body;
  }

  /** A new database's file: an empty dump, and then the log. */
  lemma EmptyDump(schema: Schema, db: Db, rest: seq<byte>)
    ensures LoadFile(schema, true, db, Marker(DUMP_BEGIN) + (Marker(DUMP_END) + rest))
         == LoadRoots(schema, true, db.(dumpOn := false), rest)
  {
    MarkerRead(DUMP_BEGIN, Marker(DUMP_END) + rest);
    MarkerRead(DUMP_END, rest);
    DumpEnds(schema, db.(dumpOn := true), rest);
  }

  lemma DumpEnds(schema: Schema, db: Db, rest: seq<byte>)
    requires db.dumpOn
    ensures LoadRoots(schema, true, db, Marker(DUMP_END) + rest) == LoadRoots(schema, true, db.(dumpOn := false), rest)
  {
    MarkerRead(DUMP_END, rest);
  }

  lemma RejectedOne(schema: Schema, first: bool, db: Db, ops: seq<Op>, rest: seq<byte>)
    requires |TransactionBody(ops)| + 6 < TWO_64 && (forall op :: op in ops ==> OpSized(op)) && AllFitDb(schema, db, ops)
    requires ops != []
    ensures RejectedRoot(schema, first, db, RecordBytes(ops) + rest)
         == RejectedRoot(schema, first, ApplyAll(schema, db, ops), rest)
  {
    RootRoundTrip(TransactionBody(ops), true, rest);
    TransactionRead(schema, first, db, ops);
  }

  lemma RejectedPiece(schema: Schema, first: bool, db: Db, ops: seq<Op>, log: seq<byte>, k: nat)
    requires |TransactionBody(ops)| + 6 < TWO_64 && k < |RecordBytes(ops)|
    ensures RejectedRoot(schema, first, db, (RecordBytes(ops) + log)[..k]) == None
  {
    assert (RecordBytes(ops) + log)[..k] == RecordBytes(ops)[..k];
    RootCut(TransactionBody(ops), true, k);
  }

  lemma RejectedFirst(schema: Schema, first: bool, db: Db, ops: seq<Op>, log: seq<byte>, k: nat)
    requires |TransactionBody(ops)| + 6 < TWO_64 && (forall op :: op in ops ==> OpSized(op)) && AllFitDb(schema, db, ops)
    requires ops != [] && |RecordBytes(ops)| <= k <= |RecordBytes(ops) + log|
    requires RejectedRoot(schema, first, ApplyAll(schema, db, ops), log[..k - |RecordBytes(ops)|]) == None
    ensures RejectedRoot(schema, first, db, (RecordBytes(ops) + log)[..k]) == None
  {
    var record := RecordBytes(ops);
    assert (record + log)[..k] == record + log[..k - |record|];
    RejectedOne(schema, first, db, ops, log[..k - |record|]);
  }

  /** Whatever is cut off, no whole root element of a log is rejected. */
  lemma {:induction false} NoneRejectedCut(schema: Schema, first: bool, db: Db, txs: seq<seq<Op>>, k: nat)
    requires Sound(schema, db, txs) && NoneEmpty(txs) && k <= |LogBytes(txs)|
    ensures RejectedRoot(schema, first, db, LogBytes(txs)[..k]) == None
    decreases txs
  {
    if txs == [] {
      assert LogBytes(txs)[..k] == [];
    } else {
      var size, log := |RecordBytes(txs[0])|, LogBytes(txs[1..]);
      LogParts(txs);
      if k < size {
        RejectedPiece(schema, first, db, txs[0], log, k);
      } else {
        NoneEmptyStep(txs);
        NoneRejectedCut(schema, first, ApplyAll(schema, db, txs[0]), txs[1..], k - size);
        RejectedFirst(schema, first, db, txs[0], log, k);
      }
    }
  }

  lemma RejectedMarkers(schema: Schema, db: Db, rest: seq<byte>)
    ensures RejectedIn(schema, true, db, Marker(DUMP_BEGIN) + (Marker(DUMP_END) + rest))
         == RejectedRoot(schema, true, db.(dumpOn := false), rest)
  {
    MarkerRead(DUMP_BEGIN, Marker(DUMP_END) + rest);
    MarkerRead(DUMP_END, rest);
  }

  /** Crash-prefix recovery: a file that starts with an empty dump and whose transactions each
      hold a node operation, cut anywhere behind the dump markers, recovers exactly the
      transactions that are whole in it.  It can be appended to only when the cut is at the
      end of a record; otherwise it counts as corrupted.  No read of it can stray. */
  lemma CrashPrefix(schema: Schema, db: Db, txs: seq<seq<Op>>, k: nat, j: nat)
    requires !db.dumpOn && Sound(schema, db, txs) && k <= |LogBytes(txs)| && Whole(txs, k, j)
    requires NoneEmpty(txs)
    ensures LoadFile(schema, true, db, Marker(DUMP_BEGIN) + (Marker(DUMP_END) + LogBytes(txs)[..k]))
         == (ApplyTxs(schema, db, txs[..j]), if k == |LogBytes(txs[..j])| then Unfinished else Corrupted)
    ensures !LoadMayStray(schema, true, db, Marker(DUMP_BEGIN) + (Marker(DUMP_END) + LogBytes(txs)[..k]))
  {
    RejectedMarkers(schema, db, LogBytes(txs)[..k]);
    NoneRejectedCut(schema, true, db, txs, k);
    EmptyDump(schema, db, LogBytes(txs)[..k]);
    LoadCut(schema, true, db, txs, k);
    ExpectedWhole(RecordBytes, schema, db, txs, k, j);
  }

  lemma {:induction false} ExpectedAll(record: seq<Op> -> seq<byte>, schema: Schema, db: Db, txs: seq<seq<Op>>)
    requires forall tx :: |record(tx)| > 0
    ensures ExpectedBy(record, schema, db, txs, |Flat(record, txs)|).1.Unfinished? <==> NoneEmpty(txs)
    decreases txs
  {
    if txs != [] {
      if txs[0] != [] {
        ExpectedAll(record, schema, ApplyAll(schema, db, txs[0]), txs[1..]);
        NoneEmptyStep(txs);
      }
    }
  }

  /** A log is loaded to its end exactly when no transaction is without a node operation: the
      record of such a transaction is an empty array, which counts as corrupted. */
  lemma LoadedIff(schema: Schema, first: bool, db: Db, txs: seq<seq<Op>>)
    requires Sound(schema, db, txs)
    ensures LoadRoots(schema, first, db, LogBytes(txs)).1.Unfinished? <==> NoneEmpty(txs)
  {
    assert LogBytes(txs)[..|LogBytes(txs)|] == LogBytes(txs);
    LoadCut(schema, first, db, txs, |LogBytes(txs)|);
    forall tx ensures |RecordBytes(tx)| > 0 {
      RecordNotEmpty(tx);
    }
    ExpectedAll(RecordBytes, schema, db, txs);
  }
}
