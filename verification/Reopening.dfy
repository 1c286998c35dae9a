/** Where records go after a restart.

    `load_data` appends to the last file when that is not finished, and creates a new file
    otherwise.  But behind the creation it opens the last file for appending all the same, unless
    there was no file: the branch that was meant for unfinished files belongs to another `if`. */
module Reopening {
  import opened StorageFormat
  import opened Roots
  import opened Readers
  import opened DataRecords
  import opened Recovery
  import opened LaterFiles
  import opened Accepting
  import opened Generations
  import Rejections

  /** The data files, and the one that new records are appended to; none in read-only mode. */
  datatype Store = Store(files: seq<seq<byte>>, out: Option<nat>)

  /** What the end of `load_data` opens for writing. */
  function OpenedAs(n: Names, mode: Mode, magic: nat, files: seq<seq<byte>>): (s: Store)
    requires mode.Appending? ==> files != []
    ensures s.out.Some? ==> s.out.value < |s.files|
  {
    match mode
    case ReadOnly => Store(files, None)
    case Appending => Store(files, Some(|files| - 1))
    case NextFile =>
      if files == [] then Store([FileHeader(n, magic) + Marker(DUMP_BEGIN) + Marker(DUMP_END)], Some(0))
      else Store(files + [FileHeader(n, magic)], Some(|files| - 1))
  }

  function Opened(schema: Schema, n: Names, files: seq<seq<byte>>): (s: Store)
    ensures s.out.Some? ==> s.out.value < |s.files|
  {
    var at := LoadFiles(schema, n, START, files);
    OpenedAs(n, at.mode, at.magic, files)
  }

  /** The files after more bytes were written. */
  function Wrote(s: Store, bytes: seq<byte>): seq<seq<byte>>
    requires s.out.Some? ==> s.out.value < |s.files|
  {
    match s.out case None => s.files case Some(k) => s.files[k := s.files[k] + bytes]
  }

  // ----- bytes behind a file

  lemma RootMore(file: seq<byte>, more: seq<byte>)
    requires ReadRoot(file).0.Success?
    ensures ReadRoot(file + more) == (Success, ReadRoot(file).1, ReadRoot(file).2 + more)
  {
    var all := file + more;
    assert all[..HEADER] == file[..HEADER];
    var length := ReadHeader(file[..HEADER]).value;
    assert all[HEADER..HEADER + length] == file[HEADER..HEADER + length];
    assert all[HEADER + length..] == file[HEADER + length..] + more;
  }

  lemma MagicMore(file: seq<byte>, more: seq<byte>)
    requires MagicRoot(file).Some?
    ensures MagicRoot(file + more) == MagicRoot(file)
  {
    RootMore(file, more);
  }

  lemma HeaderMore(n: Names, file: seq<byte>, more: seq<byte>)
    requires HeaderRoot(n, file).Some?
    ensures HeaderRoot(n, file + more) == Some((HeaderRoot(n, file).value.0, HeaderRoot(n, file).value.1 + more))
  {
    RootMore(file, more);
    var rest := ReadRoot(file).2;
    MagicMore(rest, more);
    RootMore(rest, more);
  }

  /** A file that is not finished goes on with whatever is appended; one that is closed does not. */
  ghost predicate GoesOn(schema: Schema, first: bool, before: (Db, Outcome), after: (Db, Outcome), more: seq<byte>) {
    && (before.1.Unfinished? ==> after == LoadRoots(schema, first, before.0, more))
    && (before.1.Closed? ==> after == before)
  }

  lemma FooterEnds(schema: Schema, first: bool, db: Db, file: seq<byte>, magic: nat)
    requires FileEnds(file, Closed(magic))
    ensures LoadRoots(schema, first, db, file) == (db, Closed(magic))
  {
    assert END_OF_FILE != DUMP_BEGIN && END_OF_FILE != DUMP_END;
  }

  lemma FooterMore(file: seq<byte>, magic: nat, more: seq<byte>)
    requires FileEnds(file, Closed(magic))
    ensures FileEnds(file + more, Closed(magic))
  {
    RootMore(file, more);
    MagicMore(ReadRoot(file).2, more);
  }

  lemma {:induction false} RootsMore(schema: Schema, first: bool, db: Db, file: seq<byte>, more: seq<byte>)
    ensures GoesOn(schema, first, LoadRoots(schema, first, db, file), LoadRoots(schema, first, db, file + more), more)
    decreases |file|
  {
    var (status, buffer, rest) := ReadRoot(file);
    var (db', outcome) := LoadRoots(schema, first, db, file);
    LoopStep(schema, first, db, file);
    if status.EndOfFile? {
      assert file + more == more;
    } else if status.Success? && outcome.Closed? && FileEnds(file, outcome) {
      FooterMore(file, outcome.magic, more);
      FooterEnds(schema, first, db, file + more, outcome.magic);
    } else if status.Success? && !outcome.Corrupted? {
      var mid :| Accepts(schema, first, db, buffer, mid) && LoadRoots(schema, first, mid, rest) == (db', outcome);
      RootMore(file, more);
      AcceptedGoesOn(schema, first, db, file + more, mid);
      RootsMore(schema, first, mid, rest, more);
    }
  }

  lemma FileMore(schema: Schema, first: bool, db: Db, file: seq<byte>, more: seq<byte>)
    ensures GoesOn(schema, first, LoadFile(schema, first, db, file), LoadFile(schema, first, db, file + more), more)
  {
    if first {
      var (status, buffer, rest) := ReadRoot(file);
      if status.Success? {
        RootMore(file, more);
        RootsMore(schema, first, db.(dumpOn := true), rest, more);
      }
    } else {
      RootsMore(schema, first, db.(dumpOn := false), file, more);
    }
  }

  lemma OneMore(schema: Schema, n: Names, at: Loading, file: seq<byte>, more: seq<byte>)
    ensures GoesOn(schema, at.first, LoadOne(schema, n, at, file), LoadOne(schema, n, at, file + more), more)
  {
    if HeaderRoot(n, file).Some? {
      HeaderMore(n, file, more);
      FileMore(schema, at.first, at.db, HeaderRoot(n, file).value.1, more);
    }
  }

  // ----- the last of several files

  /** Unless loading ends in read-only mode, all files but the last are closed. */
  lemma {:induction false} FrontCloses(schema: Schema, n: Names, at: Loading, files: seq<seq<byte>>)
    requires files != [] && !LoadFiles(schema, n, at, files).mode.ReadOnly? && at.mode.NextFile?
    ensures LoadFiles(schema, n, at, files[..|files| - 1]).mode.NextFile?
    decreases |files|
  {
    if |files| > 1 {
      var (db, outcome) := LoadOne(schema, n, at, files[0]);
      var next := Loading(db, outcome.magic, false, NextFile);
      FrontCloses(schema, n, next, files[1..]);
      var front := files[..|files| - 1];
      assert front[0] == files[0] && front[1..] == files[1..][..|files[1..]| - 1];
    }
  }

  lemma FrontAndLast<T>(s: seq<T>, x: T)
    requires s != []
    ensures s == s[..|s| - 1] + [s[|s| - 1]] && s[|s| - 1 := x] == s[..|s| - 1] + [x]
  {
  }

  lemma UpdateInFront<T>(s: seq<T>, k: nat, x: T, y: T)
    requires k < |s|
    ensures (s + [y])[k := x] == s[k := x] + [y]
  {
  }

  lemma SplitLast(schema: Schema, n: Names, files: seq<seq<byte>>, last: seq<byte>) returns (at: Loading)
    requires files != [] && !LoadFiles(schema, n, START, files).mode.ReadOnly?
    ensures at.mode.NextFile? && at == LoadFiles(schema, n, START, files[..|files| - 1])
    ensures LoadFiles(schema, n, START, files) == LoadFiles(schema, n, at, [files[|files| - 1]])
    ensures LoadFiles(schema, n, START, files[|files| - 1 := last]) == LoadFiles(schema, n, at, [last])
  {
    var front := files[..|files| - 1];
    FrontCloses(schema, n, START, files);
    at := LoadFiles(schema, n, START, front);
    FilesJoin(schema, n, START, front, [files[|files| - 1]]);
    FilesJoin(schema, n, START, front, [last]);
    FrontAndLast(files, last);
  }

  // ----- the next start

  /** What the next start loads when these transactions were written meanwhile. */
  function Reloaded(schema: Schema, n: Names, files: seq<seq<byte>>, txs: seq<seq<Op>>): Loading {
    LoadFiles(schema, n, START, Wrote(Opened(schema, n, files), LogBytes(txs)))
  }

  /** An unfinished last file goes on with the new records. */
  lemma AppendedLoads(schema: Schema, n: Names, files: seq<seq<byte>>, txs: seq<seq<Op>>)
    requires var at := LoadFiles(schema, n, START, files); at.mode.Appending? && Sound(schema, at.db, txs)
    requires NoneEmpty(txs) && files != []
    ensures Reloaded(schema, n, files, txs).mode.Appending?
    ensures Reloaded(schema, n, files, txs).db == ApplyTxs(schema, LoadFiles(schema, n, START, files).db, txs)
  {
    var last := files[|files| - 1];
    var at := SplitLast(schema, n, files, last + LogBytes(txs));
    var (db, outcome) := LoadOne(schema, n, at, last);
    OneFile(schema, n, at, last, db, outcome);
    OneMore(schema, n, at, last, LogBytes(txs));
    LogEnds(schema, at.first, db, txs);
    OneFile(schema, n, at, last + LogBytes(txs), ApplyTxs(schema, db, txs), Unfinished);
  }

  lemma EmptyFile(schema: Schema, n: Names, at: Loading, magic: nat)
    requires n.Valid() && magic < TWO_64 && at.magic == magic && !at.first
    ensures LoadFiles(schema, n, at, [FileHeader(n, magic)]) == Loading(at.db.(dumpOn := false), magic, false, Appending)
  {
    MagicIff(schema, n, at, magic, []);
    assert FileHeader(n, magic) + [] == FileHeader(n, magic);
    NoFile(schema, false, at.db.(dumpOn := false));
  }

  lemma NotFirst(schema: Schema, n: Names, at: Loading, file: seq<byte>)
    ensures !LoadFiles(schema, n, at, [file]).first
  {
    var (db, outcome) := LoadOne(schema, n, at, file);
    OneFile(schema, n, at, file, db, outcome);
  }

  /** Behind the footer of a closed last file the new records are never read. */
  lemma ClosedLoses(schema: Schema, n: Names, files: seq<seq<byte>>, txs: seq<seq<Op>>)
    requires n.Valid() && files != []
    requires var at := LoadFiles(schema, n, START, files); at.mode.NextFile? && at.magic < TWO_64
    ensures Reloaded(schema, n, files, txs).mode.Appending?
    ensures Reloaded(schema, n, files, txs).db.nodes == LoadFiles(schema, n, START, files).db.nodes
  {
    var k, all := |files| - 1, LoadFiles(schema, n, START, files);
    var last := files[k];
    var written := files[k := last + LogBytes(txs)];
    var at := SplitLast(schema, n, files, last + LogBytes(txs));
    var (db, outcome) := LoadOne(schema, n, at, last);
    OneFile(schema, n, at, last, db, outcome);
    OneMore(schema, n, at, last, LogBytes(txs));
    OneFile(schema, n, at, last + LogBytes(txs), db, outcome);
    assert LoadFiles(schema, n, START, written) == all;
    FilesJoin(schema, n, START, written, [FileHeader(n, all.magic)]);
    NotFirst(schema, n, at, last);
    EmptyFile(schema, n, all, all.magic);
    UpdateInFront(files, k, last + LogBytes(txs), FileHeader(n, all.magic));
  }

  lemma FourParts(a: seq<byte>, b: seq<byte>, c: seq<byte>, d: seq<byte>)
    ensures a + b + c + d == a + (b + (c + d))
  {
    Assoc(a, b, c + d);
    Assoc(a + b, c, d);
  }

  /** The first file of a new database, with what was written to it. */
  lemma FirstFile(schema: Schema, n: Names, bytes: seq<byte>)
    ensures Wrote(Opened(schema, n, []), bytes)
         == [FileHeader(n, 0) + (Marker(DUMP_BEGIN) + (Marker(DUMP_END) + bytes))]
  {
    FourParts(FileHeader(n, 0), Marker(DUMP_BEGIN), Marker(DUMP_END), bytes);
  }

  lemma FirstLoads(schema: Schema, n: Names, txs: seq<seq<Op>>)
    requires n.Valid() && Sound(schema, NO_DATA, txs) && NoneEmpty(txs)
    ensures Reloaded(schema, n, [], txs).mode.Appending?
    ensures Reloaded(schema, n, [], txs).db == ApplyTxs(schema, NO_DATA, txs)
  {
    FirstFile(schema, n, LogBytes(txs));
    MagicIff(schema, n, START, 0, Marker(DUMP_BEGIN) + (Marker(DUMP_END) + LogBytes(txs)));
    EmptyDump(schema, NO_DATA, LogBytes(txs));
    LogEnds(schema, true, NO_DATA, txs);
  }

  /** Exactly when transactions that are written after a start are there at the next one: when there
      was no file, or the last one was not finished.  When it was closed they are lost, so that
      they must change nothing. */
  lemma ReloadedIff(schema: Schema, n: Names, files: seq<seq<byte>>, txs: seq<seq<Op>>)
    requires n.Valid() && NoneEmpty(txs)
    requires var at := LoadFiles(schema, n, START, files); !at.mode.ReadOnly? && at.magic < TWO_64 && Sound(schema, at.db, txs)
    ensures var at := LoadFiles(schema, n, START, files);
      var wanted := ApplyTxs(schema, at.db, txs).nodes;
      Reloaded(schema, n, files, txs).db.nodes == wanted <==> files == [] || at.mode.Appending? || at.db.nodes == wanted
  {
    var at := LoadFiles(schema, n, START, files);
    if files == [] {
      FirstLoads(schema, n, txs);
    } else if at.mode.Appending? {
      AppendedLoads(schema, n, files, txs);
    } else {
      ClosedLoses(schema, n, files, txs);
    }
  }

  // ----- a loss

  lemma OneCreation(n: Names, txs: seq<seq<Op>>)
    requires txs == [[Create(0, 2)]]
    ensures Sound([[]], NO_DATA, txs) && NoneEmpty(txs) && ApplyTxs([[]], NO_DATA, txs).nodes == map[2 := NodeRec(0, [])]
  {
    var op := Create(0, 2);
    assert txs[1..] == [] && [op][1..] == [];
    assert OpsTokens([op]) == OpTokens(op) + OpsTokens([]);
    assert [Open] + OpsTokens([op]) + [Close] == [Open] + (OpTokens(op) + [Close]);
    assert |[Open] + (OpTokens(op) + [Close])| <= 10;
    Rejections.TokensSmall([Open] + (OpTokens(op) + [Close]));
    assert InitAttrs([]) == [];
  }

  lemma ClosedAtOnce(n: Names, content: seq<byte>) returns (files: seq<seq<byte>>)
    requires n.Valid() && LoadFile([[]], true, NO_DATA, content) == (NO_DATA, Closed(5))
    ensures files != [] && LoadFiles([[]], n, START, files) == Loading(NO_DATA, 5, false, NextFile)
  {
    files := [FileHeader(n, 0) + content];
    MagicIff([[]], n, START, 0, content);
    OneFile([[]], n, START, FileHeader(n, 0) + content, NO_DATA, Closed(5));
  }

  /** A new database, closed at once with the magic number 5, is opened again; a transaction
      creates a node and is written.  The next start does not find it. */
  lemma ClosedLosesOne(n: Names)
    requires n.Valid()
    ensures exists files, txs ::
      && LoadFiles([[]], n, START, files) == Loading(NO_DATA, 5, false, NextFile)
      && ApplyTxs([[]], NO_DATA, txs).nodes != map[] && Reloaded([[]], n, files, txs).db.nodes == map[]
  {
    ClosedLogLoads([[]], NO_DATA, [], 5);
    var files := ClosedAtOnce(n, Marker(DUMP_BEGIN) + (Marker(DUMP_END) + (LogBytes([]) + Footer(5))));
    var txs := [[Create(0, 2)]];
    OneCreation(n, txs);
    ClosedLoses([[]], n, files, txs);
  }
}
