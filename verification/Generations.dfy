/** All data files of a database, in the order of their numbers.

    Each file begins with a header that names the database and holds a magic number; a file that
    was closed ends with the magic number of the next one.  Loading goes through the files, and
    stops in read-only mode at the first that is corrupted, or not finished and not the last. */
module Generations {
  import opened StorageFormat
  import opened Roots
  import opened Readers
  import opened Writers
  import opened DataRecords
  import opened Recovery
  import opened FuzzyDump
  import opened DumpFiles
  import opened LaterFiles

  const TITLE: seq<byte> :=
    [72, 121, 98, 114, 105, 100, 68, 97, 116, 97, 98, 97, 115, 101, 32, 68, 97, 116, 97, 32, 70, 105, 108, 101]

  /** The name and the version of a database type. */
  datatype Names = Names(name: seq<byte>, version: seq<byte>)
  {
    predicate Valid() {
      |name| < 0x1_0000_0000 && |version| < 0x1_0000_0000
    }
  }

  // ----- the file header

  function Titles(n: Names): seq<Token> {
    [Text(TITLE), Text(n.name), Text(n.version)]
  }

  /** `write_file_header`. */
  function FileHeader(n: Names, magic: nat): seq<byte> {
    Root(Spell([Open] + Titles(n) + [Close]), true) + Root(Spell([NumberToken(magic)]), false)
  }

  /** `rCheckString`. */
  function Expect(s: seq<byte>, text: seq<byte>): (r: Option<seq<byte>>)
    ensures r.Some? ==> |r.value| < |s|
  {
    match ReadText(s)
    case None => None
    case Some((x, rest)) => if x == text then Some(rest) else None
  }

  function ExpectAll(s: seq<byte>, texts: seq<Token>): (r: Option<seq<byte>>)
    ensures r.Some? ==> |r.value| <= |s|
    decreases |texts|
  {
    if texts == [] then Some(s)
    else if !texts[0].Text? then None
    else
      match Expect(s, texts[0].s)
      case None => None
      case Some(rest) => ExpectAll(rest, texts[1..])
  }

  /** The array ends, and its checksum or a dot is behind it. */
  predicate ArrayEnds(buffer: seq<byte>, s: seq<byte>)
    requires |s| <= |buffer|
  {
    KindOf(s).IsClose? && Finishes(buffer[..|buffer| - |s| + 1], s[1..], true)
  }

  /** The first root element of the header is right. */
  predicate NamesRoot(n: Names, buffer: seq<byte>) {
    && KindOf(buffer).IsOpen?
    && match ExpectAll(buffer[1..], Titles(n)) case None => false case Some(s) => ArrayEnds(buffer, s)
  }

  /** `read_file_header`: the magic number, and what is behind the header. */
  function HeaderRoot(n: Names, file: seq<byte>): Option<(nat, seq<byte>)> {
    var (status, buffer, rest) := ReadRoot(file);
    if !status.Success? || !NamesRoot(n, buffer) then None
    else
      match MagicRoot(rest)
      case None => None
      case Some(magic) => Some((magic, ReadRoot(rest).2))
  }

  lemma TitleRead(text: seq<byte>, rest: seq<byte>)
    requires Fits(Text(text))
    ensures Expect(TokenBytes(Text(text)) + rest, text) == Some(rest)
  {
    TextRoundTrip(text, Code(|text| + STRING), rest);
    Assoc(Code(|text| + STRING), text, rest);
  }

  lemma {:induction false} TitlesRead(texts: seq<Token>, rest: seq<byte>)
    requires forall t :: t in texts ==> t.Text? && Fits(t)
    ensures ExpectAll(Spell(texts) + rest, texts) == Some(rest)
    decreases |texts|
  {
    if texts == [] {
      assert Spell([]) + rest == rest;
    } else {
      SpellCons(texts[0], texts[1..], rest);
      assert texts == [texts[0]] + texts[1..];
      TitleRead(texts[0].s, Spell(texts[1..]) + rest);
      TitlesRead(texts[1..], rest);
    }
  }

  lemma {:induction false} SpellBound(ts: seq<Token>)
    requires forall t :: t in ts ==> |TokenBytes(t)| < 0x2_0000_0000
    ensures |Spell(ts)| <= 0x2_0000_0000 * |ts|
  {
    if ts != [] {
      SpellStep(ts[0], ts[1..]);
      assert ts == [ts[0]] + ts[1..];
      SpellBound(ts[1..]);
    }
  }

  lemma TitleBytes(t: Token)
    requires t.Text? && |t.s| < 0x1_0000_0000
    ensures Fits(t) && |TokenBytes(t)| < 0x2_0000_0000
  {
    assert |TokenBytes(t)| == |Code(|t.s| + STRING)| + |t.s|;
    CodeLength(|t.s| + STRING);
  }

  lemma CodeLength(n: nat)
    requires n < TWO_64
    ensures |Code(n)| <= 9
  {
  }

  lemma TitlesSmall(n: Names)
    requires n.Valid()
    ensures forall t :: t in Titles(n) ==> t.Text? && Fits(t)
    ensures |Spell([Open] + Titles(n) + [Close])| + 6 < TWO_64
  {
    forall t | t in Titles(n) ensures t.Text? && Fits(t) && |TokenBytes(t)| < 0x2_0000_0000 {
      TitleBytes(t);
    }
    SpellBound([Open] + Titles(n) + [Close]);
  }

  lemma TitleSpelled(n: Names, tail: seq<byte>)
    ensures Spell([Open] + Titles(n) + [Close]) + tail
         == TokenBytes(Open) + (Spell(Titles(n)) + (TokenBytes(Close) + tail))
  {
    assert [Open] + Titles(n) + [Close] == [Open] + (Titles(n) + [Close]);
    SpellCons(Open, Titles(n) + [Close], tail);
    SpellAppend(Titles(n), [Close]);
    SpellToken(Close, tail);
    Assoc(Spell(Titles(n)), Spell([Close]), tail);
  }

  lemma NamesRead(n: Names, body: seq<byte>)
    requires n.Valid() && body == Spell([Open] + Titles(n) + [Close])
    ensures |body| + 6 < TWO_64 && NamesRoot(n, body + Tail(body, true))
  {
    var tail := Tail(body, true);
    TitlesSmall(n);
    TitleSpelled(n, tail);
    var s := TokenBytes(Close) + tail;
    OpenKind(Spell(Titles(n)) + s);
    TitlesRead(Titles(n), s);
    CloseKind(tail);
    EndCut(body, tail, body + tail, s);
    TailFinishes(body, true);
  }

  /** A header is read by the database it was written for. */
  lemma HeaderIsRead(n: Names, magic: nat, rest: seq<byte>)
    requires n.Valid() && magic < TWO_64
    ensures HeaderRoot(n, FileHeader(n, magic) + rest) == Some((magic, rest))
  {
    var body, number := Spell([Open] + Titles(n) + [Close]), Root(Spell([NumberToken(magic)]), false);
    NamesRead(n, body);
    Assoc(Root(body, true), number, rest);
    RootRoundTrip(body, true, number + rest);
    MagicRead(magic, rest);
    NumberRoot(magic, rest);
  }

  lemma NumberRoot(magic: nat, rest: seq<byte>)
    requires magic < TWO_64
    ensures ReadRoot(Root(Spell([NumberToken(magic)]), false) + rest).2 == rest
  {
    var t := NumberToken(magic);
    SpellToken(t, []);
    assert Spell([t]) + [] == Spell([t]) && TokenBytes(t) + [] == TokenBytes(t);
    NumberBytesShort(magic);
    ShortCode(NumberBytes(magic));
    RootRoundTrip(Spell([t]), false, rest);
  }

  // ----- all files

  datatype Mode =
    | NextFile       // all files are closed, a new one is created
    | Appending      // the last one is not, new records are appended to it
    | ReadOnly

  datatype Loading = Loading(db: Db, magic: nat, first: bool, mode: Mode)

  const START := Loading(NO_DATA, 0, true, NextFile)

  /** `load_file` with the header. */
  function LoadOne(schema: Schema, n: Names, at: Loading, file: seq<byte>): (Db, Outcome) {
    match HeaderRoot(n, file)
    case None => (at.db, Corrupted)
    case Some((magic, rest)) =>
      if at.magic != 0 && at.magic != magic then (at.db, Corrupted) else LoadFile(schema, at.first, at.db, rest)
  }

  /** The loop of `load_data`, with `one` for `load_file`. */
  function LoadBy(one: (Loading, seq<byte>) -> (Db, Outcome), at: Loading, files: seq<seq<byte>>): Loading
    decreases |files|
  {
    if files == [] then at
    else
      var (db, outcome) := one(at, files[0]);
      match outcome
      case Corrupted => Loading(db, at.magic, false, ReadOnly)
      case Unfinished => Loading(db, at.magic, false, if |files| == 1 then Appending else ReadOnly)
      case Closed(magic) => LoadBy(one, Loading(db, magic, false, NextFile), files[1..])
  }

  function OneOf(schema: Schema, n: Names): (Loading, seq<byte>) -> (Db, Outcome) {
    (at, file) => LoadOne(schema, n, at, file)
  }

  function LoadFiles(schema: Schema, n: Names, at: Loading, files: seq<seq<byte>>): Loading {
    LoadBy(OneOf(schema, n), at, files)
  }

  /** What loading the last file comes to. */
  function AfterLast(magic: nat, db: Db, outcome: Outcome): Loading {
    match outcome
    case Corrupted => Loading(db, magic, false, ReadOnly)
    case Unfinished => Loading(db, magic, false, Appending)
    case Closed(next) => Loading(db, next, false, NextFile)
  }

  lemma OneBy(one: (Loading, seq<byte>) -> (Db, Outcome), at: Loading, file: seq<byte>)
    ensures LoadBy(one, at, [file]) == AfterLast(at.magic, one(at, file).0, one(at, file).1)
  {
    assert [file][1..] == [];
  }

  lemma OneFile(schema: Schema, n: Names, at: Loading, file: seq<byte>, db: Db, outcome: Outcome)
    requires LoadOne(schema, n, at, file) == (db, outcome)
    ensures LoadFiles(schema, n, at, [file]) == AfterLast(at.magic, db, outcome)
  {
    OneBy(OneOf(schema, n), at, file);
  }

  lemma {:induction false} JoinBy(one: (Loading, seq<byte>) -> (Db, Outcome), at: Loading, olds: seq<seq<byte>>,
                                  news: seq<seq<byte>>)
    requires LoadBy(one, at, olds).mode.NextFile?
    ensures LoadBy(one, at, olds + news) == LoadBy(one, LoadBy(one, at, olds), news)
    decreases |olds|
  {
    if olds == [] {
      assert olds + news == news;
    } else {
      assert (olds + news)[0] == olds[0] && (olds + news)[1..] == olds[1..] + news;
      var (db, outcome) := one(at, olds[0]);
      if outcome.Closed? {
        JoinBy(one, Loading(db, outcome.magic, false, NextFile), olds[1..], news);
      }
    }
  }

  /** Files that were all closed are followed by others. */
  lemma FilesJoin(schema: Schema, n: Names, at: Loading, olds: seq<seq<byte>>, news: seq<seq<byte>>)
    requires LoadFiles(schema, n, at, olds).mode.NextFile?
    ensures LoadFiles(schema, n, at, olds + news) == LoadFiles(schema, n, LoadFiles(schema, n, at, olds), news)
  {
    JoinBy(OneOf(schema, n), at, olds, news);
  }

  /** A file whose header does not hold the magic number that the file before it announced stops
      loading, whatever is in it, unless that number is 0. */
  lemma MagicIff(schema: Schema, n: Names, at: Loading, magic: nat, content: seq<byte>)
    requires n.Valid() && magic < TWO_64
    ensures LoadOne(schema, n, at, FileHeader(n, magic) + content)
         == if at.magic == 0 || at.magic == magic then LoadFile(schema, at.first, at.db, content) else (at.db, Corrupted)
  {
    HeaderIsRead(n, magic, content);
  }

  // ----- old files can be removed

  lemma ApplyAlike(schema: Schema, a: Db, b: Db, op: Op)
    requires a.nodes == b.nodes
    ensures Apply(schema, a, op).nodes == Apply(schema, b, op).nodes && FitsDb(schema, a, op) == FitsDb(schema, b, op)
  {
  }

  lemma {:induction false} OpsAlike(schema: Schema, a: Db, b: Db, ops: seq<Op>)
    requires a.nodes == b.nodes
    ensures ApplyAll(schema, a, ops).nodes == ApplyAll(schema, b, ops).nodes
    ensures AllFitDb(schema, a, ops) == AllFitDb(schema, b, ops)
    decreases ops
  {
    if ops != [] {
      ApplyAlike(schema, a, b, ops[0]);
      OpsAlike(schema, Apply(schema, a, ops[0]), Apply(schema, b, ops[0]), ops[1..]);
    }
  }

  /** Transactions do the same to databases with the same nodes. */
  lemma {:induction false} TxsAlike(schema: Schema, a: Db, b: Db, txs: seq<seq<Op>>)
    requires a.nodes == b.nodes
    ensures ApplyTxs(schema, a, txs).nodes == ApplyTxs(schema, b, txs).nodes && Sound(schema, a, txs) == Sound(schema, b, txs)
    decreases txs
  {
    if txs != [] {
      OpsAlike(schema, a, b, txs[0]);
      TxsAlike(schema, ApplyAll(schema, a, txs[0]), ApplyAll(schema, b, txs[0]), txs[1..]);
    }
  }

  /** A new file: its dump, and the transactions written since the dump was finished. */
  function Content(file: seq<FileRec>, txs: seq<seq<Op>>): seq<byte> {
    Marker(DUMP_BEGIN) + (FileBytes(file) + (Marker(DUMP_END) + LogBytes(txs)))
  }

  lemma AloneLoads(schema: Schema, file: seq<FileRec>, txs: seq<seq<Op>>)
    requires FileSound(schema, EMPTY, file) && LoadNew(schema, file).Some?
    requires Sound(schema, LoadNew(schema, file).value.(dumpOn := false), txs) && NoneEmpty(txs)
    ensures LoadFile(schema, true, NO_DATA, Content(file, txs))
         == (ApplyTxs(schema, LoadNew(schema, file).value.(dumpOn := false), txs), Unfinished)
  {
    var end := Marker(DUMP_END) + LogBytes(txs);
    var db := LoadNew(schema, file).value;
    MarkerRead(DUMP_BEGIN, FileBytes(file) + end);
    RecsAreNew(schema, file);
    BytesLoad(schema, EMPTY, file, end);
    DumpEnds(schema, db, LogBytes(txs));
    LogEnds(schema, true, db.(dumpOn := false), txs);
  }

  lemma LogEnds(schema: Schema, first: bool, db: Db, txs: seq<seq<Op>>)
    requires Sound(schema, db, txs) && NoneEmpty(txs)
    ensures LoadRoots(schema, first, db, LogBytes(txs)) == (ApplyTxs(schema, db, txs), Unfinished)
  {
    LogThen(schema, first, db, txs, []);
    assert LogBytes(txs) + [] == LogBytes(txs);
    NoFile(schema, first, ApplyTxs(schema, db, txs));
  }

  lemma BehindLoads(schema: Schema, db: Db, file: seq<FileRec>, txs: seq<seq<Op>>)
    requires LaterSound(schema, db.(dumpOn := true), file) && NoneEmpty(txs)
    requires Sound(schema, LoadAfter(schema, db, file).(dumpOn := false), txs)
    ensures LoadFile(schema, false, db, Content(file, txs))
         == (ApplyTxs(schema, LoadAfter(schema, db, file).(dumpOn := false), txs), Unfinished)
  {
    LaterMarked(schema, db, file, LogBytes(txs));
    LogEnds(schema, false, LoadAfter(schema, db, file).(dumpOn := false), txs);
  }

  /** What the fuzzy dump of a process, loaded without strays from closed files, must have reached. */
  ghost predicate DumpDone(schema: Schema, run: seq<Sys>, steps: seq<Step>, i: nat, at: Loading) {
    && Run(schema, run, steps) && i < |run| && at.mode.NextFile? && !at.first && run[i].base == run[0].base == at.db
    && at.db.strays == [] && run[i].finished && AllSeenWritten(run[i]) && DumpsFirst(run[i].file)
    && FileSound(schema, EMPTY, run[i].file) && LaterSound(schema, at.db.(dumpOn := true), run[i].file)
  }

  /** The nodes that the new file holds. */
  lemma DumpedNodes(schema: Schema, run: seq<Sys>, steps: seq<Step>, i: nat, at: Loading, txs: seq<seq<Op>>)
    requires DumpDone(schema, run, steps, i, at)
    requires Sound(schema, LoadAfter(schema, at.db, run[i].file).(dumpOn := false), txs) && NoneEmpty(txs)
    ensures var content := Content(run[i].file, txs);
      var alone, behind := LoadFile(schema, true, NO_DATA, content), LoadFile(schema, false, at.db, content);
      && alone.1 == behind.1 == Unfinished && alone.0.nodes == behind.0.nodes
      && behind.0.nodes == ApplyTxs(schema, LoadAfter(schema, at.db, run[i].file), txs).nodes
  {
    var file := run[i].file;
    NewFileSuffices(schema, run, steps, i);
    var loaded, after := LoadNew(schema, file).value.(dumpOn := false), LoadAfter(schema, at.db, file).(dumpOn := false);
    TxsAlike(schema, loaded, after, txs);
    TxsAlike(schema, after, LoadAfter(schema, at.db, file), txs);
    AloneLoads(schema, file, txs);
    BehindLoads(schema, at.db, file, txs);
  }

  lemma LastFile(schema: Schema, n: Names, at: Loading, magic: nat, content: seq<byte>)
    requires n.Valid() && magic < TWO_64 && (at.magic == 0 || at.magic == magic)
    requires LoadFile(schema, at.first, at.db, content).1.Unfinished?
    ensures LoadFiles(schema, n, at, [FileHeader(n, magic) + content])
         == Loading(LoadFile(schema, at.first, at.db, content).0, at.magic, false, Appending)
  {
    MagicIff(schema, n, at, magic, content);
  }

  /** What a dump is for.  Older files were all closed, the last of them with the magic number that
      the new file's header holds; a process loaded from them without strays finished its dump,
      in which no creation is in front of its node's dump record; and more transactions followed.
      Then all files together load, the new file alone loads, both can be appended to, and they
      give the same nodes: those that the transactions in the new file make of the old ones. */
  lemma OldFilesRemovable(schema: Schema, n: Names, olds: seq<seq<byte>>, run: seq<Sys>, steps: seq<Step>, i: nat,
                          txs: seq<seq<Op>>)
    requires var at := LoadFiles(schema, n, START, olds);
      && n.Valid() && olds != [] && at.magic < TWO_64 && DumpDone(schema, run, steps, i, at)
      && Sound(schema, LoadAfter(schema, at.db, run[i].file).(dumpOn := false), txs) && NoneEmpty(txs)
    ensures var at := LoadFiles(schema, n, START, olds);
      var file := FileHeader(n, at.magic) + Content(run[i].file, txs);
      var alone, all := LoadFiles(schema, n, START, [file]), LoadFiles(schema, n, START, olds + [file]);
      && alone.mode == all.mode == Appending && alone.db.nodes == all.db.nodes
      && all.db.nodes == ApplyTxs(schema, LoadAfter(schema, at.db, run[i].file), txs).nodes
  {
    var at := LoadFiles(schema, n, START, olds);
    var content := Content(run[i].file, txs);
    DumpedNodes(schema, run, steps, i, at, txs);
    FilesJoin(schema, n, START, olds, [FileHeader(n, at.magic) + content]);
    LastFile(schema, n, at, at.magic, content);
    LastFile(schema, n, START, at.magic, content);
  }
}
