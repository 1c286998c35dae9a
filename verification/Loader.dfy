/** `load_file` and the reading of single operations, on the Reader and a database in memory. */
module Loader {
  import opened StorageFormat
  import opened Roots
  import opened Readers
  import Data = DataRecords
  import opened RawStrings
  import opened Recovery

  /** A root string that was read up to `ptr`. */
  lemma StringRootAt(buffer: seq<byte>, ptr: nat, s: seq<byte>)
    requires ptr <= |buffer| && ReadText(buffer) == Some((s, buffer[ptr..]))
    ensures StringRoot(buffer) == if Finishes(buffer[..ptr], buffer[ptr..], false) then Some(s) else None
  {
    assert |buffer| - |buffer[ptr..]| == ptr;
  }

  class Database {
    const schema: Data.Schema
    var nodes: map<nat, Data.NodeRec>     // the id dictionary, with the contents of its nodes
    var counter: nat                      // node_id_counter
    var dumpOn: bool                      // whether loading is inside a dump
    var strays: seq<Data.Stray>           // slab nodes with an id that the dictionary does not know

    ghost function View(): Data.Db
      reads this
    {
      Data.Db(nodes, counter, dumpOn, strays)
    }

    constructor (types: Data.Schema)
      ensures schema == types && View() == Data.NO_DATA
    {
      schema, nodes, counter, dumpOn, strays := types, map[], 1, false, [];
    }

    /** What an operation left: the state, and the rest of the input unless it failed. */
    ghost function Left(R: Reader, ok: bool): (Data.Db, Option<seq<byte>>)
      requires R.Valid()
      reads this, R
    {
      (View(), if ok then Some(R.Rest()) else None)
    }

    /** `attribute_load`. */
    method LoadValue(R: Reader, t: Data.AttrType) returns (v: Option<Data.Value>)
      requires R.Valid() && !R.strayed
      modifies R`ptr, R`strayed
      ensures R.Valid() && (R.strayed ==> v == None && MayStray(R.buffer))
      ensures match Data.LoadValue(t, old(R.Rest()))
              case None => v == None
              case Some((w, rest)) => v == Some(w) && R.Rest() == rest
    {
      v := None;
      match t {
        case UIntAttr =>
          var ok, n := R.ReadNumber();
          if ok { v := Some(Data.UInt(n)); }
        case StringAttr =>
          var ok, s := R.ReadString();
          if ok { v := Some(Data.Chars(s)); }
      }
    }

    method ReadNodeModify(R: Reader) returns (ok: bool)
      requires R.Valid() && !R.strayed
      modifies this`nodes, R`ptr, R`depth, R`strayed
      ensures R.strayed ==> !ok && MayStray(R.buffer)
      ensures R.Valid() && (ok ==> R.depth == old(R.depth))
      ensures Left(R, ok) == Data.LoadModify(schema, old(View()), old(R.Rest()))
    {
      var id, attr;
      ok, id := R.ReadNumber();
      if !ok { return; }
      ok, attr := R.ReadNumber();
      if !ok { return; }
      if id !in nodes {
        ok := R.SkipRest();
        return;
      }
      ok := ModifyAttribute(R, id, attr);
    }

    /** The new value of an attribute of a node that exists. */
    method ModifyAttribute(R: Reader, id: nat, attr: nat) returns (ok: bool)
      requires R.Valid() && !R.strayed && id in nodes
      modifies this`nodes, R`ptr, R`strayed
      ensures R.strayed ==> !ok && MayStray(R.buffer)
      ensures R.Valid()
      ensures Left(R, ok) == Data.LoadAttribute(schema, old(View()), id, attr, old(R.Rest()))
    {
      var node := nodes[id];
      if node.ty >= |schema| || attr >= |schema[node.ty]| || attr >= |node.attrs| { return false; }
      var v := LoadValue(R, schema[node.ty][attr]);
      if v.None? { return false; }
      nodes := nodes[id := node.(attrs := node.attrs[attr := v.value])];
      ok := true;
    }

    /** `read_node_prepare`: a slab node gets the id; when the node exists, it stays behind. */
    method ReadNodePrepare(R: Reader) returns (found: Option<(nat, nat)>)
      requires R.Valid()
      modifies this`strays, R`ptr
      ensures R.Valid()
      ensures match Data.LoadPrepare(schema, old(View()), old(R.Rest()))
              case None => found == None && strays == old(strays)
              case Some((ty, id, rest)) =>
                found == Some((ty, id)) && R.Rest() == rest
                && View() == if id in nodes then Data.AddStray(old(View()), ty, id) else old(View())
    {
      var ok, ty, id;
      ok, ty := R.ReadNumber();
      if !ok || ty >= |schema| { return None; }
      ok, id := R.ReadNumber();
      if !ok { return None; }
      if id in nodes {
        strays := strays + [Data.Stray(ty, id)];
      }
      return Some((ty, id));
    }

    method Insert(id: nat, node: Data.NodeRec)
      modifies this`nodes, this`counter
      ensures View() == Data.AddNode(old(View()), id, node)
    {
      if id > counter {
        counter := id;
      }
      nodes := nodes[id := node];
    }

    method ReadNodeCreate(R: Reader) returns (ok: bool)
      requires R.Valid()
      modifies this`nodes, this`counter, this`strays, R`ptr
      ensures R.Valid()
      ensures Left(R, ok) == Data.LoadCreate(schema, old(View()), old(R.Rest()))
    {
      var found := ReadNodePrepare(R);
      if found.None? { return false; }
      var (ty, id) := found.value;
      if id !in nodes {
        Insert(id, Data.NodeRec(ty, Data.InitAttrs(schema[ty])));
      }
      ok := true;
    }

    method ReadNodeDelete(R: Reader) returns (ok: bool)
      requires R.Valid()
      modifies this`nodes, R`ptr
      ensures R.Valid()
      ensures Left(R, ok) == Data.LoadDelete(old(View()), old(R.Rest()))
    {
      var id;
      ok, id := R.ReadNumber();
      if ok {
        nodes := nodes - {id};
      }
    }

    /** The tag of an operation, and its arguments. */
    method ReadOperation(R: Reader) returns (ok: bool)
      requires R.Valid() && !R.strayed
      modifies this`nodes, this`counter, this`strays, R`ptr, R`depth, R`strayed
      ensures R.strayed ==> !ok && MayStray(R.buffer)
      ensures R.Valid() && (ok ==> R.depth == old(R.depth))
      ensures Left(R, ok) == Data.LoadOp(schema, old(View()), old(R.Rest()))
    {
      var tag;
      ok, tag := R.ReadNumber();
      if !ok { return; }
      if tag == Data.MODIFIED {
        ok := ReadNodeModify(R);
      } else if tag == Data.CREATED {
        ok := ReadNodeCreate(R);
      } else if tag == Data.DELETED {
        ok := ReadNodeDelete(R);
      } else {
        ok := false;
      }
    }

    static lemma AttrsStep(types: seq<Data.AttrType>, attrs: seq<Data.Value>, i: nat, s: seq<byte>)
      requires |attrs| == |types| && i < |types|
      ensures Data.LoadAttrs(types, attrs, i, s)
           == match Data.LoadValue(types[i], s)
              case None => (attrs, None)
              case Some((v, rest)) => Data.LoadAttrs(types, attrs[i := v], i + 1, rest)
    {
    }

    /** The attributes of a dumped node, in the order of its type. */
    method LoadAttrs(R: Reader, types: seq<Data.AttrType>) returns (attrs: seq<Data.Value>, ok: bool)
      requires R.Valid() && !R.strayed
      modifies R`ptr, R`strayed
      ensures R.Valid() && (R.strayed ==> !ok && MayStray(R.buffer))
      ensures (attrs, if ok then Some(R.Rest()) else None) == Data.LoadAttrs(types, Data.InitAttrs(types), 0, old(R.Rest()))
    {
      attrs := Data.InitAttrs(types);
      ghost var target := Data.LoadAttrs(types, attrs, 0, R.Rest());
      for i := 0 to |types|
        invariant R.Valid() && !R.strayed && |attrs| == |types|
        invariant Data.LoadAttrs(types, attrs, i, R.Rest()) == target
      {
        AttrsStep(types, attrs, i, R.Rest());
        var v := LoadValue(R, types[i]);
        if v.None? { return attrs, false; }
        attrs := attrs[i := v.value];
      }
      ok := true;
    }

    method ReadNodeLoad(R: Reader) returns (ok: bool)
      requires R.Valid() && !R.strayed
      modifies this`nodes, this`counter, this`strays, R`ptr, R`strayed
      ensures R.Valid() && (R.strayed ==> !ok && MayStray(R.buffer))
      ensures Left(R, ok) == Data.LoadNode(schema, old(View()), old(R.Rest()))
    {
      var found := ReadNodePrepare(R);
      if found.None? { return false; }
      var (ty, id) := found.value;
      if id in nodes { return false; }
      var attrs;
      attrs, ok := LoadAttrs(R, schema[ty]);
      Insert(id, Data.NodeRec(ty, attrs));
    }

    /** The arrays of a transaction, or of a dump record. */
    method LoadArrays(R: Reader, dump: bool) returns (ok: bool)
      requires R.Valid() && !R.strayed
      modifies this`nodes, this`counter, this`strays, R`ptr, R`depth, R`strayed
      ensures R.strayed ==> !ok && MayStray(R.buffer)
      ensures R.Valid() && (ok ==> R.depth == old(R.depth))
      ensures Left(R, ok) == Data.LoadArrays(schema, dump, old(View()), old(R.Rest()))
    {
      ghost var target := Data.LoadArrays(schema, dump, View(), R.Rest());
      var kind := R.Next();
      while !kind.IsClose?
        invariant R.Valid() && !R.strayed && kind == KindOf(R.Rest()) && R.depth == old(R.depth)
        invariant Data.LoadArrays(schema, dump, View(), R.Rest()) == target
        decreases |R.buffer| - R.ptr
      {
        if !kind.IsOpen? { return false; }
        ok := LoadArray(R, dump);
        if !ok { return; }
        kind := R.Next();
      }
      ok := true;
    }

    /** One array of a record. */
    method LoadArray(R: Reader, dump: bool) returns (ok: bool)
      requires R.Valid() && !R.strayed && KindOf(R.Rest()).IsOpen?
      modifies this`nodes, this`counter, this`strays, R`ptr, R`depth, R`strayed
      ensures R.strayed ==> !ok && MayStray(R.buffer)
      ensures R.Valid() && (ok ==> R.depth == old(R.depth) && R.ptr > old(R.ptr))
      ensures Data.LoadArrays(schema, dump, old(View()), old(R.Rest()))
           == if ok then Data.LoadArrays(schema, dump, View(), R.Rest()) else (View(), None)
    {
      ok := R.ReadArray();
      if dump {
        ok := ReadNodeLoad(R);
      } else {
        ok := ReadOperation(R);
      }
      if !ok { return; }
      ok := R.ReadArrayEnd();
    }

    /** The inside of a root array: a transaction, or a dump record, which later files skip. */
    method LoadRecord(R: Reader, first: bool) returns (ok: bool)
      requires R.Valid() && !R.strayed
      modifies this`nodes, this`counter, this`strays, R`ptr, R`depth, R`strayed
      ensures R.strayed ==> !ok && MayStray(R.buffer)
      ensures R.Valid() && (ok ==> R.depth == old(R.depth))
      ensures Left(R, ok) == Data.LoadRecord(schema, first, old(View()), old(R.Rest()))
    {
      var kind := R.Next();
      match kind {
        case IsOpen => ok := LoadArrays(R, false);
        case IsText =>
          var n;
          ok, n := R.ReadNumber();
          if !ok { return; }
          if n != 0 || !dumpOn { return false; }
          if first {
            ok := LoadArrays(R, true);
          } else {
            ok := R.SkipRest();
          }
        case _ => ok := false;
      }
    }

    method LoadArrayRoot(R: Reader, first: bool) returns (ok: bool)
      requires R.Valid() && !R.strayed && R.ptr == 0 && R.depth == 0 && KindOf(R.buffer).IsOpen?
      modifies this`nodes, this`counter, this`strays, R`ptr, R`depth, R`strayed
      ensures R.strayed ==> !ok && MayStray(R.buffer)
      ensures R.Valid()
      ensures (View(), ok) == Data.LoadArrayRoot(schema, first, old(View()), R.buffer)
    {
      assert R.Rest() == R.buffer;
      ok := R.ReadArray();
      ok := LoadRecord(R, first);
      if !ok { return; }
      ghost var s := R.Rest();
      ok := R.ReadArrayEnd();
      if !ok { return; }
      assert R.buffer[..R.ptr] == R.buffer[..|R.buffer| - |s| + 1];
      ok := R.Finish(true);
    }

    /** `read_dump_begin`, `read_dump_end` and the first half of `read_file_footer`. */
    method CheckString(R: Reader, expected: seq<byte>) returns (ok: bool)
      requires R.Valid() && !R.strayed && R.depth == 0 && R.ptr == 0
      modifies R`ptr, R`strayed
      ensures R.strayed ==> !ok && StringRoot(R.buffer) == None && MayStray(R.buffer)
      ensures R.Valid() && (ok <==> StringRoot(R.buffer) == Some(expected))
    {
      assert R.Rest() == R.buffer;
      var s;
      ok, s := R.ReadString();
      if !ok || s != expected { return false; }
      StringRootAt(R.buffer, R.ptr, s);
      ok := R.Finish(false);
    }

    /** The second half of `read_file_footer`. */
    method ReadMagic(R: Reader) returns (magic: Option<nat>)
      requires R.Valid() && !R.strayed
      modifies R
      ensures !R.strayed
      ensures R.Valid() && magic == MagicRoot(R.file[old(R.pos)..])
      ensures magic.Some? ==> R.file[R.pos..] == ReadRoot(R.file[old(R.pos)..]).2
    {
      var status := R.Begin();
      if !status.Success? { return None; }
      var ok, n := R.ReadNumber();
      if !ok { return None; }
      assert R.buffer[..R.ptr] == R.buffer[..|R.buffer| - |R.Rest()|];
      ok := R.Finish(false);
      return if ok then Some(n) else None;
    }

    /** `read_file_footer`, after the other readings of the string failed. */
    method ReadFooter(R: Reader) returns (magic: Option<nat>)
      requires R.Valid() && R.depth == 0
      modifies R
      ensures R.Valid()
      ensures magic == if StringRoot(old(R.buffer)) == Some(END_OF_FILE) then MagicRoot(R.file[old(R.pos)..]) else None
      ensures R.strayed ==> R.buffer == old(R.buffer) && StringRoot(R.buffer) == None && MayStray(R.buffer)
    {
      R.SetPos(0);
      var ok := CheckString(R, END_OF_FILE);
      if !ok { return None; }
      magic := ReadMagic(R);
    }

    /** A root string: a dump marker switches `dumpOn`, the footer ends the file. */
    method LoadString(R: Reader) returns (end: Option<Outcome>)
      requires R.Valid() && !R.strayed && R.ptr == 0 && R.depth == 0 && KindOf(R.buffer).IsText?
      modifies this`dumpOn, R
      ensures R.strayed ==> R.buffer == old(R.buffer) && StringRoot(R.buffer) == None && MayStray(R.buffer)
      ensures R.Valid() && nodes == old(nodes) && counter == old(counter) && strays == old(strays)
      ensures end.None? ==> R.pos == old(R.pos)
      ensures
        var s := StringRoot(old(R.buffer));
        var magic := MagicRoot(R.file[old(R.pos)..]);
        (dumpOn, end) ==
          if s == Some(DUMP_BEGIN) then (true, if old(dumpOn) then Some(Corrupted) else None)
          else if s == Some(DUMP_END) then (false, if old(dumpOn) then None else Some(Corrupted))
          else (old(dumpOn), Some(if s == Some(END_OF_FILE) && magic.Some? then Closed(magic.value) else Corrupted))
    {
      var ok := CheckString(R, DUMP_BEGIN);
      if ok {
        end := if dumpOn then Some(Corrupted) else None;
        dumpOn := true;
        return;
      }
      R.SetPos(0);
      ok := CheckString(R, DUMP_END);
      if ok {
        end := if dumpOn then None else Some(Corrupted);
        dumpOn := false;
        return;
      }
      var magic := ReadFooter(R);
      return Some(if magic.Some? then Closed(magic.value) else Corrupted);
    }

    /** The loop of `load_file`. */
    method LoadRoots(R: Reader, first: bool) returns (outcome: Outcome)
      requires R.Valid() && !R.strayed
      modifies this, R
      ensures R.Valid()
      ensures (View(), outcome) == Recovery.LoadRoots(schema, first, old(View()), R.file[old(R.pos)..])
      ensures R.strayed ==>
                var root := RejectedRoot(schema, first, old(View()), R.file[old(R.pos)..]);
                outcome == Corrupted && root.Some? && MayStray(root.value)
    {
      ghost var target := Recovery.LoadRoots(schema, first, View(), R.file[R.pos..]);
      ghost var rejected := RejectedRoot(schema, first, View(), R.file[R.pos..]);
      while true
        invariant R.Valid() && !R.strayed && Recovery.LoadRoots(schema, first, View(), R.file[R.pos..]) == target
        invariant RejectedRoot(schema, first, View(), R.file[R.pos..]) == rejected
        decreases |R.file| - R.pos
      {
        var end := LoadRoot(R, first);
        if end.Some? { return end.value; }
      }
    }

    /** `load_file`, behind the file header.  Where a read strays, the source goes on with a
        length of almost 2^64, and nothing is claimed. */
    method LoadFile(R: Reader, first: bool) returns (outcome: Outcome)
      requires R.Valid() && !R.strayed
      modifies this, R
      ensures R.Valid()
      ensures !R.strayed ==> (View(), outcome) == Recovery.LoadFile(schema, first, old(View()), R.file[old(R.pos)..])
      ensures R.strayed ==> LoadMayStray(schema, first, old(View()), R.file[old(R.pos)..])
    {
      dumpOn := false;
      if first {
        var status := R.Begin();
        if !status.Success? { return Corrupted; }
        var ok := CheckString(R, DUMP_BEGIN);
        if !ok { return Corrupted; }
        dumpOn := true;
      }
      outcome := LoadRoots(R, first);
    }

    /** One turn of the loop: an outcome when the file ends here. */
    method LoadRoot(R: Reader, first: bool) returns (end: Option<Outcome>)
      requires R.Valid() && !R.strayed
      modifies this, R
      ensures R.Valid() && (end.None? ==> R.pos > old(R.pos) && !R.strayed)
      ensures Recovery.LoadRoots(schema, first, old(View()), R.file[old(R.pos)..])
           == match end
              case None => Recovery.LoadRoots(schema, first, View(), R.file[R.pos..])
              case Some(outcome) => (View(), outcome)
      ensures end.None? ==>
                RejectedRoot(schema, first, old(View()), R.file[old(R.pos)..])
                == RejectedRoot(schema, first, View(), R.file[R.pos..])
      ensures R.strayed ==>
                var root := RejectedRoot(schema, first, old(View()), R.file[old(R.pos)..]);
                end == Some(Corrupted) && root.Some? && MayStray(root.value)
    {
      var status := R.Begin();
      if status.EndOfFile? { return Some(Unfinished); }
      if status.Fail? { return Some(Corrupted); }
      assert R.Rest() == R.buffer;
      var kind := R.Next();
      match kind {
        case IsOpen =>
          var ok := LoadArrayRoot(R, first);
          end := if ok then None else Some(Corrupted);
        case IsText => end := LoadString(R);
        case _ => end := Some(Corrupted);
      }
    }
  }
}
