/** `load_data`, with the Reader: all files, and what is opened for writing afterwards. */
module DataFiles {
  import opened StorageFormat
  import opened Roots
  import opened Readers
  import opened RawStrings
  import Data = DataRecords
  import opened Recovery
  import opened Loader
  import opened Generations
  import opened Reopening

  lemma ExpectFirst(s: seq<byte>, a: seq<byte>, more: seq<Token>)
    ensures ExpectAll(s, [Text(a)] + more) == match Expect(s, a) case None => None case Some(rest) => ExpectAll(rest, more)
  {
    assert ([Text(a)] + more)[1..] == more;
  }

  lemma ThreeTitles(s: seq<byte>, a: seq<byte>, b: seq<byte>, c: seq<byte>)
    ensures ExpectAll(s, [Text(a), Text(b), Text(c)]) ==
      match Expect(s, a)
      case None => None
      case Some(s1) => match Expect(s1, b) case None => None case Some(s2) => Expect(s2, c)
  {
    ExpectFirst(s, a, [Text(b), Text(c)]);
    assert [Text(a)] + [Text(b), Text(c)] == [Text(a), Text(b), Text(c)];
    if Expect(s, a).Some? {
      var s1 := Expect(s, a).value;
      ExpectFirst(s1, b, [Text(c)]);
      assert [Text(b)] + [Text(c)] == [Text(b), Text(c)];
      if Expect(s1, b).Some? {
        ExpectFirst(Expect(s1, b).value, c, []);
        assert [Text(c)] + [] == [Text(c)];
      }
    }
  }

  lemma EndsAt(buffer: seq<byte>, ptr: nat, s: seq<byte>)
    requires KindOf(s).IsClose? && |s| <= |buffer| && ptr <= |buffer| && s[1..] == buffer[ptr..]
    ensures ArrayEnds(buffer, s) <==> Finishes(buffer[..ptr], buffer[ptr..], true)
  {
    assert |buffer| - |s| + 1 == ptr;
  }

  /** Every file and its buffers have room in memory. */
  ghost predicate HasRoom(files: seq<seq<byte>>) {
    forall i :: 0 <= i < |files| ==> |files[i]| + 32 <= ADDRESSES
  }

  /** What loading the files from number `i` on comes to. */
  ghost function FilesAhead(schema: Data.Schema, n: Names, files: seq<seq<byte>>, i: nat, at: Loading): Loading
    requires i <= |files|
  {
    if at.mode.NextFile? then LoadFiles(schema, n, at, files[i..]) else at
  }

  /** What a new file begins with. */
  function NewContent(n: Names, dumpBegin: bool, magic: nat): seq<byte> {
    if dumpBegin then FileHeader(n, magic) + Marker(DUMP_BEGIN) else FileHeader(n, magic)
  }

  class Directory {
    const names: Names
    const db: Database
    var files: seq<seq<byte>>
    var out: Option<nat>          // the file that the descriptor stands for

    constructor (names: Names, db: Database, files: seq<seq<byte>>)
      ensures this.names == names && this.db == db && this.files == files && out == None
    {
      this.names, this.db, this.files, this.out := names, db, files, None;
    }

    /** `rCheckString`. */
    method CheckTitle(R: Reader, text: seq<byte>) returns (ok: bool)
      requires R.Valid() && !R.strayed
      modifies R`ptr, R`strayed
      ensures R.Valid() && (R.strayed ==> !ok)
      ensures ok <==> Expect(old(R.Rest()), text).Some?
      ensures ok ==> R.Rest() == Expect(old(R.Rest()), text).value
    {
      var s;
      ok, s := R.ReadString();
      ok := ok && s == text;
    }

    method CheckTitles(R: Reader) returns (ok: bool)
      requires R.Valid() && !R.strayed
      modifies R`ptr, R`strayed
      ensures R.Valid() && (R.strayed ==> !ok)
      ensures ok <==> ExpectAll(old(R.Rest()), Titles(names)).Some?
      ensures ok ==> R.Rest() == ExpectAll(old(R.Rest()), Titles(names)).value
    {
      ThreeTitles(R.Rest(), TITLE, names.name, names.version);
      ok := CheckTitle(R, TITLE);
      if !ok { return; }
      ok := CheckTitle(R, names.name);
      if !ok { return; }
      ok := CheckTitle(R, names.version);
    }

    method CheckNames(R: Reader) returns (ok: bool)
      requires R.Valid() && !R.strayed && R.ptr == 0 && R.depth == 0
      modifies R`ptr, R`depth, R`strayed
      ensures R.Valid() && (R.strayed ==> !ok) && (ok <==> NamesRoot(names, R.buffer))
    {
      assert R.Rest() == R.buffer;
      ok := R.ReadArray();
      if !ok { return; }
      ok := CheckTitles(R);
      if !ok { return; }
      ghost var s := R.Rest();
      ok := R.ReadArrayEnd();
      if !ok { return; }
      EndsAt(R.buffer, R.ptr, s);
      ok := R.Finish(true);
    }

    /** `read_file_header`. */
    method ReadHeader(R: Reader) returns (magic: Option<nat>)
      requires R.Valid() && !R.strayed
      modifies R
      ensures R.Valid() && (R.strayed ==> magic == None)
      ensures match HeaderRoot(names, R.file[old(R.pos)..])
              case None => magic == None
              case Some((m, rest)) => magic == Some(m) && R.file[R.pos..] == rest
    {
      var status := R.Begin();
      if !status.Success? { return None; }
      var ok := CheckNames(R);
      if !ok { return None; }
      magic := db.ReadMagic(R);
    }

    /** `load_file` on one file.  Where a read strays nothing is claimed. */
    method LoadNext(file: seq<byte>, magic: nat, first: bool) returns (outcome: Outcome, strayed: bool)
      requires |file| + 32 <= ADDRESSES
      modifies db
      ensures !strayed ==>
                (db.View(), outcome) == LoadOne(db.schema, names, Loading(old(db.View()), magic, first, NextFile), file)
    {
      var R := new Reader(file);
      assert file[0..] == file;
      var found := ReadHeader(R);
      if R.strayed || found.None? || (magic != 0 && magic != found.value) { return Corrupted, R.strayed; }
      outcome := db.LoadFile(R, first);
      strayed := R.strayed;
    }

    ghost function Ahead(i: nat, magic: nat, mode: Mode): Loading
      requires i <= |files|
      reads this, db
    {
      FilesAhead(db.schema, names, files, i, Loading(db.View(), magic, i == 0, mode))
    }

    /** One round of the loop over the files. */
    method LoadRound(i: nat, magic: nat) returns (mode: Mode, next: nat, strayed: bool)
      requires i < |files| && HasRoom(files)
      modifies db
      ensures !strayed ==> Ahead(i + 1, next, mode) == old(Ahead(i, magic, NextFile))
    {
      assert files[i..][1..] == files[i + 1..];
      var outcome;
      outcome, strayed := LoadNext(files[i], magic, i == 0);
      mode, next := NextFile, magic;
      match outcome {
        case Corrupted => mode := ReadOnly;
        case Unfinished => mode := if i == |files| - 1 then Appending else ReadOnly;
        case Closed(m) => next := m;
      }
    }

    /** The loop. */
    method LoadAll() returns (mode: Mode, magic: nat, strayed: bool)
      requires db.View() == Data.NO_DATA && HasRoom(files)
      modifies db
      ensures !strayed ==> Loading(db.View(), magic, files == [], mode) == LoadFiles(db.schema, names, START, files)
    {
      var i := 0;
      ghost var target := LoadFiles(db.schema, names, START, files);
      mode, magic, strayed := NextFile, 0, false;
      AtStart();
      while i < |files| && mode.NextFile? && !strayed
        invariant i <= |files| && (i == 0 ==> mode.NextFile?)
        invariant !strayed ==> Ahead(i, magic, mode) == target
        decreases |files| - i
      {
        mode, magic, strayed := LoadRound(i, magic);
        i := i + 1;
      }
      if !strayed {
        AtEnd(i, magic, mode);
      }
    }

    lemma AtStart()
      requires db.View() == Data.NO_DATA
      ensures Ahead(0, 0, NextFile) == LoadFiles(db.schema, names, START, files)
    {
      assert files[0..] == files;
    }

    lemma AtEnd(i: nat, magic: nat, mode: Mode)
      requires i <= |files| && (i == 0 ==> mode.NextFile?) && (mode.NextFile? ==> i == |files|)
      ensures Ahead(i, magic, mode) == Loading(db.View(), magic, files == [], mode)
    {
      assert mode.NextFile? ==> files[i..] == [];
    }

    /** `util_fd_write`. */
    method WriteTo(k: nat, bytes: seq<byte>)
      requires k < |files|
      modifies this`files
      ensures files == old(files)[k := old(files)[k] + bytes]
    {
      files := files[k := files[k] + bytes];
    }

    /** The end of `load_data`: `create_new_file` and `files_count` are tested one after the other,
        as in the source. */
    method OpenOutput(mode: Mode, magic: nat)
      requires mode.Appending? ==> files != []
      modifies this`files, this`out
      ensures Store(files, out) == OpenedAs(names, mode, magic, old(files))
    {
      out := None;
      if mode.ReadOnly? { return; }
      var count := |files|;
      if mode.NextFile? {
        NewFile(count == 0, magic);
      }
      if count == 0 {
        ghost var content := NewContent(names, true, magic);
        assert files == [content];
        WriteTo(count, Marker(DUMP_END));
        assert files == [content + Marker(DUMP_END)];
      } else {
        out := Some(count - 1);
      }
    }

    /** `load_data`. */
    method LoadData() returns (strayed: bool)
      requires db.View() == Data.NO_DATA && HasRoom(files)
      modifies this`files, this`out, db
      ensures !strayed ==>
                && Store(files, out) == Opened(db.schema, names, old(files))
                && db.View() == LoadFiles(db.schema, names, START, old(files)).db
    {
      var mode, magic;
      mode, magic, strayed := LoadAll();
      if strayed { return; }
      OpenOutput(mode, magic);
    }

    /** `_database_new_file`, when no file is open. */
    method NewFile(dumpBegin: bool, magic: nat)
      modifies this`files, this`out
      ensures files == old(files) + [NewContent(names, dumpBegin, magic)] && out == Some(|files| - 1)
    {
      files := files + [NewContent(names, dumpBegin, magic)];
      out := Some(|files| - 1);
    }
  }
}
