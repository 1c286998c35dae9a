/** Exactly which bytes loading accepts, and what they do.

    The loading functions follow the code: they apply what they read while they read it, and
    fail wherever something does not fit.  Here the same is said without them: what bytes say,
    as syntax alone; whether that fits a database; and its effect.  A file is accepted if and
    only if it says something that fits. */
module Accepting {
  import opened StorageFormat
  import opened Roots
  import opened Readers
  import opened DataRecords
  import opened Recovery

  // ----- operations

  /** What an array of a transaction may say.  A modification whose node is missing may hold
      anything behind the attribute's number. */
  datatype Said = Meant(op: Op) | Ignored(id: nat, attr: nat)

  ghost predicate SaysValue(s: seq<byte>, v: Value, rest: seq<byte>) {
    match v
    case UInt(n) => ReadNumberAt(s) == Some((n, rest))
    case Chars(x) => ReadText(s) == Some((x, rest))
  }

  /** The bytes begin with these numbers. */
  ghost predicate SaysNumbers(s: seq<byte>, ns: seq<nat>, rest: seq<byte>)
    decreases |ns|
  {
    if ns == [] then s == rest
    else ReadNumberAt(s).Some? && ReadNumberAt(s).value.0 == ns[0] && SaysNumbers(ReadNumberAt(s).value.1, ns[1..], rest)
  }

  ghost predicate SaysModify(s: seq<byte>, id: nat, attr: nat, v: Value, rest: seq<byte>) {
    exists s1 :: SaysNumbers(s, [MODIFIED, id, attr], s1) && SaysValue(s1, v, rest)
  }

  ghost predicate SaysIgnored(s: seq<byte>, id: nat, attr: nat, rest: seq<byte>) {
    exists s1 :: SaysNumbers(s, [MODIFIED, id, attr], s1) && Skip(s1, 0) == Some(rest)
  }

  ghost predicate Says(s: seq<byte>, said: Said, rest: seq<byte>) {
    match said
    case Meant(Create(ty, id)) => SaysNumbers(s, [CREATED, ty, id], rest)
    case Meant(Delete(id)) => SaysNumbers(s, [DELETED, id], rest)
    case Meant(Modify(id, attr, v)) => SaysModify(s, id, attr, v, rest)
    case Ignored(id, attr) => SaysIgnored(s, id, attr, rest)
  }

  predicate FitsSaid(schema: Schema, db: Db, said: Said) {
    match said
    case Meant(Modify(id, _, _)) => id in db.nodes && FitsDb(schema, db, said.op)
    case Meant(op) => FitsDb(schema, db, op)
    case Ignored(id, _) => id !in db.nodes
  }

  function Take1(schema: Schema, db: Db, said: Said): Db {
    if said.Meant? then Apply(schema, db, said.op) else db
  }

  /** Arrays up to the end of the enclosing one. */
  ghost predicate SaysAll(s: seq<byte>, saids: seq<Said>, rest: seq<byte>)
    decreases |saids|
  {
    if saids == [] then s == rest && KindOf(s).IsClose?
    else
      && KindOf(s).IsOpen?
      && exists s1 :: Says(s[1..], saids[0], s1) && KindOf(s1).IsClose? && SaysAll(s1[1..], saids[1..], rest)
  }

  predicate AllFit(schema: Schema, db: Db, saids: seq<Said>)
    decreases saids
  {
    saids == [] || (FitsSaid(schema, db, saids[0]) && AllFit(schema, Take1(schema, db, saids[0]), saids[1..]))
  }

  function TakeAll(schema: Schema, db: Db, saids: seq<Said>): Db
    decreases saids
  {
    if saids == [] then db else TakeAll(schema, Take1(schema, db, saids[0]), saids[1..])
  }

  /** Nodes have the attributes that their types give them. */
  ghost predicate Shaped(schema: Schema, db: Db) {
    forall id :: id in db.nodes ==> db.nodes[id].ty < |schema| && |db.nodes[id].attrs| == |schema[db.nodes[id].ty]|
  }

  lemma NumbersThree(s: seq<byte>, a: nat, b: nat, c: nat, rest: seq<byte>)
    ensures SaysNumbers(s, [a, b, c], rest) <==>
      && ReadNumberAt(s).Some? && ReadNumberAt(s).value.0 == a
      && SaysNumbers(ReadNumberAt(s).value.1, [b, c], rest)
  {
    assert [a, b, c][1..] == [b, c];
  }

  lemma NumbersTwo(s: seq<byte>, a: nat, b: nat, rest: seq<byte>)
    ensures SaysNumbers(s, [a, b], rest) <==>
      && ReadNumberAt(s).Some? && ReadNumberAt(s).value.0 == a
      && ReadNumberAt(ReadNumberAt(s).value.1) == Some((b, rest))
  {
    assert [a, b][1..] == [b] && [b][1..] == [];
    var s1 := if ReadNumberAt(s).Some? then ReadNumberAt(s).value.1 else [];
    assert SaysNumbers(s1, [b], rest) <==>
      ReadNumberAt(s1).Some? && ReadNumberAt(s1).value.0 == b && SaysNumbers(ReadNumberAt(s1).value.1, [], rest);
    assert ReadNumberAt(s1).Some? ==> ReadNumberAt(s1).value == (ReadNumberAt(s1).value.0, ReadNumberAt(s1).value.1);
  }

  lemma ValueIff(t: AttrType, s: seq<byte>, v: Value, rest: seq<byte>)
    ensures LoadValue(t, s) == Some((v, rest)) <==> Typed(t, v) && SaysValue(s, v, rest)
  {
  }

  /** What an accepted operation says. */
  lemma OpSays(schema: Schema, db: Db, s: seq<byte>) returns (said: Said)
    requires Shaped(schema, db) && LoadOp(schema, db, s).1.Some?
    ensures Says(s, said, LoadOp(schema, db, s).1.value) && FitsSaid(schema, db, said)
    ensures LoadOp(schema, db, s).0 == Take1(schema, db, said)
  {
    var rest := LoadOp(schema, db, s).1.value;
    var (tag, s1) := ReadNumberAt(s).value;
    var (a, s2) := ReadNumberAt(s1).value;
    if tag == MODIFIED {
      var (attr, s3) := ReadNumberAt(s2).value;
      NumbersThree(s, MODIFIED, a, attr, s3);
      NumbersTwo(s1, a, attr, s3);
      if a in db.nodes {
        var t := schema[db.nodes[a].ty][attr];
        var v := LoadValue(t, s3).value.0;
        ValueIff(t, s3, v, rest);
        said := Meant(Modify(a, attr, v));
      } else {
        said := Ignored(a, attr);
      }
    } else if tag == CREATED {
      var (id, s3) := ReadNumberAt(s2).value;
      NumbersThree(s, CREATED, a, id, rest);
      NumbersTwo(s1, a, id, rest);
      said := Meant(Create(a, id));
    } else {
      NumbersTwo(s, DELETED, a, rest);
      said := Meant(Delete(a));
    }
  }

  /** Whatever says a fitting operation is accepted. */
  lemma SaidLoads(schema: Schema, db: Db, s: seq<byte>, said: Said, rest: seq<byte>)
    requires Says(s, said, rest) && FitsSaid(schema, db, said)
    ensures LoadOp(schema, db, s) == (Take1(schema, db, said), Some(rest))
  {
    match said
    case Meant(Create(ty, id)) =>
      NumbersThree(s, CREATED, ty, id, rest);
      NumbersTwo(ReadNumberAt(s).value.1, ty, id, rest);
    case Meant(Delete(id)) => NumbersTwo(s, DELETED, id, rest);
    case Meant(Modify(id, attr, v)) =>
      var s1 :| SaysNumbers(s, [MODIFIED, id, attr], s1) && SaysValue(s1, v, rest);
      NumbersThree(s, MODIFIED, id, attr, s1);
      NumbersTwo(ReadNumberAt(s).value.1, id, attr, s1);
      ValueIff(schema[db.nodes[id].ty][attr], s1, v, rest);
    case Ignored(id, attr) =>
      var s1 :| SaysNumbers(s, [MODIFIED, id, attr], s1) && Skip(s1, 0) == Some(rest);
      NumbersThree(s, MODIFIED, id, attr, s1);
      NumbersTwo(ReadNumberAt(s).value.1, id, attr, s1);
  }

  lemma ShapedTake(schema: Schema, db: Db, said: Said)
    requires Shaped(schema, db) && FitsSaid(schema, db, said)
    ensures Shaped(schema, Take1(schema, db, said))
  {
  }

  lemma {:induction false} ArraysSay(schema: Schema, db: Db, s: seq<byte>) returns (saids: seq<Said>)
    requires Shaped(schema, db) && LoadArrays(schema, false, db, s).1.Some?
    ensures SaysAll(s, saids, LoadArrays(schema, false, db, s).1.value) && AllFit(schema, db, saids)
    ensures LoadArrays(schema, false, db, s).0 == TakeAll(schema, db, saids)
    ensures KindOf(s).IsOpen? ==> saids != []
    decreases |s|
  {
    if KindOf(s).IsClose? {
      saids := [];
    } else {
      var said := OpSays(schema, db, s[1..]);
      var (db', r) := LoadOp(schema, db, s[1..]);
      ShapedTake(schema, db, said);
      var more := ArraysSay(schema, db', r.value[1..]);
      saids := [said] + more;
      assert saids[1..] == more;
    }
  }

  lemma {:induction false} SaidArrays(schema: Schema, db: Db, s: seq<byte>, saids: seq<Said>, rest: seq<byte>)
    requires SaysAll(s, saids, rest) && AllFit(schema, db, saids)
    ensures LoadArrays(schema, false, db, s) == (TakeAll(schema, db, saids), Some(rest))
    decreases |saids|
  {
    if saids != [] {
      var s1 :| Says(s[1..], saids[0], s1) && KindOf(s1).IsClose? && SaysAll(s1[1..], saids[1..], rest);
      SaidLoads(schema, db, s[1..], saids[0], s1);
      SaidArrays(schema, Take1(schema, db, saids[0]), s1[1..], saids[1..], rest);
    }
  }

  /** The operations of a record are read exactly when the bytes say operations that fit. */
  lemma OperationsIff(schema: Schema, db: Db, s: seq<byte>, db': Db, rest: seq<byte>)
    requires Shaped(schema, db)
    ensures LoadArrays(schema, false, db, s) == (db', Some(rest)) <==>
      exists saids :: SaysAll(s, saids, rest) && AllFit(schema, db, saids) && db' == TakeAll(schema, db, saids)
  {
    if LoadArrays(schema, false, db, s) == (db', Some(rest)) {
      var saids := ArraysSay(schema, db, s);
    }
    if saids :| SaysAll(s, saids, rest) && AllFit(schema, db, saids) && db' == TakeAll(schema, db, saids) {
      SaidArrays(schema, db, s, saids, rest);
    }
  }

  // ----- dumped nodes

  datatype Dumped = Dumped(ty: nat, id: nat, values: seq<Value>)

  ghost predicate SaysValues(s: seq<byte>, vs: seq<Value>, rest: seq<byte>)
    decreases |vs|
  {
    if vs == [] then s == rest else exists s1 :: SaysValue(s, vs[0], s1) && SaysValues(s1, vs[1..], rest)
  }

  ghost predicate SaysNode(s: seq<byte>, d: Dumped, rest: seq<byte>) {
    exists s1 :: SaysNumbers(s, [d.ty, d.id], s1) && SaysValues(s1, d.values, rest)
  }

  ghost predicate SaysNodes(s: seq<byte>, ds: seq<Dumped>, rest: seq<byte>)
    decreases |ds|
  {
    if ds == [] then s == rest && KindOf(s).IsClose?
    else
      && KindOf(s).IsOpen?
      && exists s1 :: SaysNode(s[1..], ds[0], s1) && KindOf(s1).IsClose? && SaysNodes(s1[1..], ds[1..], rest)
  }

  predicate AllTyped(types: seq<AttrType>, vs: seq<Value>) {
    |vs| == |types| && forall i :: 0 <= i < |vs| ==> Typed(types[i], vs[i])
  }

  /** A dumped node must be new. */
  predicate FitsNode(schema: Schema, db: Db, d: Dumped) {
    d.id !in db.nodes && d.ty < |schema| && AllTyped(schema[d.ty], d.values)
  }

  predicate AllNew(schema: Schema, db: Db, ds: seq<Dumped>)
    decreases ds
  {
    ds == [] || (FitsNode(schema, db, ds[0]) && AllNew(schema, AddNode(db, ds[0].id, NodeRec(ds[0].ty, ds[0].values)), ds[1..]))
  }

  function AddAll(db: Db, ds: seq<Dumped>): Db
    decreases ds
  {
    if ds == [] then db else AddAll(AddNode(db, ds[0].id, NodeRec(ds[0].ty, ds[0].values)), ds[1..])
  }

  lemma {:induction false} AttrsSay(types: seq<AttrType>, attrs: seq<Value>, i: nat, s: seq<byte>)
    requires |attrs| == |types| && i <= |types| && LoadAttrs(types, attrs, i, s).1.Some?
    ensures var vs := LoadAttrs(types, attrs, i, s).0;
      |vs| == |types| && vs[..i] == attrs[..i] && AllTyped(types[i..], vs[i..])
      && SaysValues(s, vs[i..], LoadAttrs(types, attrs, i, s).1.value)
    decreases |types| - i
  {
    if i < |types| {
      var (v, rest) := LoadValue(types[i], s).value;
      ValueIff(types[i], s, v, rest);
      AttrsSay(types, attrs[i := v], i + 1, rest);
      var vs := LoadAttrs(types, attrs, i, s).0;
      assert vs[..i + 1] == attrs[i := v][..i + 1];
      assert vs[..i] == vs[..i + 1][..i] && vs[i] == vs[..i + 1][i];
      assert vs[i..][1..] == vs[i + 1..] && vs[i..][0] == v;
      TypedFrom(types, vs, i);
    }
  }

  lemma TypedFrom(types: seq<AttrType>, vs: seq<Value>, i: nat)
    requires |vs| == |types| && i < |types| && Typed(types[i], vs[i]) && AllTyped(types[i + 1..], vs[i + 1..])
    ensures AllTyped(types[i..], vs[i..])
  {
    forall j | 0 <= j < |vs[i..]| ensures Typed(types[i..][j], vs[i..][j]) {
      if j > 0 {
        assert Typed(types[i + 1..][j - 1], vs[i + 1..][j - 1]);
      }
    }
  }

  lemma {:induction false} SaidAttrs(types: seq<AttrType>, attrs: seq<Value>, i: nat, s: seq<byte>, vs: seq<Value>,
                                     rest: seq<byte>)
    requires |attrs| == |types| == |vs| && i <= |types| && AllTyped(types, vs) && vs[..i] == attrs[..i]
    requires SaysValues(s, vs[i..], rest)
    ensures LoadAttrs(types, attrs, i, s) == (vs, Some(rest))
    decreases |types| - i
  {
    if i == |types| {
      assert attrs == attrs[..i] && vs == vs[..i];
    } else {
      var s1 :| SaysValue(s, vs[i..][0], s1) && SaysValues(s1, vs[i..][1..], rest);
      ValueIff(types[i], s, vs[i], s1);
      assert vs[i..][1..] == vs[i + 1..];
      assert vs[..i + 1] == vs[..i] + [vs[i]] == attrs[i := vs[i]][..i + 1];
      SaidAttrs(types, attrs[i := vs[i]], i + 1, s1, vs, rest);
    }
  }

  lemma NodeSays(schema: Schema, db: Db, s: seq<byte>) returns (d: Dumped)
    requires LoadNode(schema, db, s).1.Some?
    ensures SaysNode(s, d, LoadNode(schema, db, s).1.value) && FitsNode(schema, db, d)
    ensures LoadNode(schema, db, s).0 == AddNode(db, d.id, NodeRec(d.ty, d.values))
  {
    var (ty, id, rest) := LoadPrepare(schema, db, s).value;
    NumbersTwo(s, ty, id, rest);
    var (attrs, end) := LoadAttrs(schema[ty], InitAttrs(schema[ty]), 0, rest);
    AttrsSay(schema[ty], InitAttrs(schema[ty]), 0, rest);
    assert attrs[0..] == attrs && schema[ty][0..] == schema[ty];
    d := Dumped(ty, id, attrs);
  }

  lemma SaidNode(schema: Schema, db: Db, s: seq<byte>, d: Dumped, rest: seq<byte>)
    requires SaysNode(s, d, rest) && FitsNode(schema, db, d)
    ensures LoadNode(schema, db, s) == (AddNode(db, d.id, NodeRec(d.ty, d.values)), Some(rest))
  {
    var s1 :| SaysNumbers(s, [d.ty, d.id], s1) && SaysValues(s1, d.values, rest);
    NumbersTwo(s, d.ty, d.id, s1);
    assert d.values[0..] == d.values;
    SaidAttrs(schema[d.ty], InitAttrs(schema[d.ty]), 0, s1, d.values, rest);
  }

  lemma {:induction false} NodesSay(schema: Schema, db: Db, s: seq<byte>) returns (ds: seq<Dumped>)
    requires LoadArrays(schema, true, db, s).1.Some?
    ensures SaysNodes(s, ds, LoadArrays(schema, true, db, s).1.value) && AllNew(schema, db, ds)
    ensures LoadArrays(schema, true, db, s).0 == AddAll(db, ds)
    decreases |s|
  {
    if KindOf(s).IsClose? {
      ds := [];
    } else {
      var d := NodeSays(schema, db, s[1..]);
      var (db', r) := LoadNode(schema, db, s[1..]);
      var more := NodesSay(schema, db', r.value[1..]);
      ds := [d] + more;
      assert ds[1..] == more;
    }
  }

  lemma {:induction false} SaidNodes(schema: Schema, db: Db, s: seq<byte>, ds: seq<Dumped>, rest: seq<byte>)
    requires SaysNodes(s, ds, rest) && AllNew(schema, db, ds)
    ensures LoadArrays(schema, true, db, s) == (AddAll(db, ds), Some(rest))
    decreases |ds|
  {
    if ds != [] {
      var s1 :| SaysNode(s[1..], ds[0], s1) && KindOf(s1).IsClose? && SaysNodes(s1[1..], ds[1..], rest);
      SaidNode(schema, db, s[1..], ds[0], s1);
      SaidNodes(schema, AddNode(db, ds[0].id, NodeRec(ds[0].ty, ds[0].values)), s1[1..], ds[1..], rest);
    }
  }

  // ----- root elements

  datatype RootSaid =
    | Starts                        // the marker in front of a dump
    | Stops                         // and the one behind it
    | Transaction(saids: seq<Said>)
    | Dump(nodes: seq<Dumped>)
    | Unread                        // a dump record of a later file, with anything in it

  /** The array ends, and its checksum or a dot is behind it. */
  predicate EndsWell(buffer: seq<byte>, rest: seq<byte>) {
    0 < |rest| <= |buffer| && KindOf(rest).IsClose? && Finishes(buffer[..|buffer| - |rest| + 1], rest[1..], true)
  }

  /** A dump record begins with the number 0. */
  ghost predicate SaysZero(buffer: seq<byte>, s: seq<byte>) {
    KindOf(buffer).IsOpen? && KindOf(buffer[1..]).IsText? && ReadNumberAt(buffer[1..]) == Some((0, s))
  }

  ghost predicate SaysRoot(buffer: seq<byte>, root: RootSaid) {
    match root
    case Starts => KindOf(buffer).IsText? && StringRoot(buffer) == Some(DUMP_BEGIN)
    case Stops => KindOf(buffer).IsText? && StringRoot(buffer) == Some(DUMP_END)
    case Transaction(saids) =>
      KindOf(buffer).IsOpen? && saids != [] && exists rest :: SaysAll(buffer[1..], saids, rest) && EndsWell(buffer, rest)
    case Dump(nodes) => exists s, rest :: SaysZero(buffer, s) && SaysNodes(s, nodes, rest) && EndsWell(buffer, rest)
    case Unread => exists s, rest :: SaysZero(buffer, s) && Skip(s, 0) == Some(rest) && EndsWell(buffer, rest)
  }

  predicate FitsRoot(schema: Schema, first: bool, db: Db, root: RootSaid) {
    match root
    case Starts => !db.dumpOn
    case Stops => db.dumpOn
    case Transaction(saids) => AllFit(schema, db, saids)
    case Dump(nodes) => first && db.dumpOn && AllNew(schema, db, nodes)
    case Unread => !first && db.dumpOn
  }

  function TakeRoot(schema: Schema, db: Db, root: RootSaid): Db {
    match root
    case Starts => db.(dumpOn := true)
    case Stops => db.(dumpOn := false)
    case Transaction(saids) => TakeAll(schema, db, saids)
    case Dump(nodes) => AddAll(db, nodes)
    case Unread => db
  }

  /** One round of the loop accepts the root element. */
  predicate Accepts(schema: Schema, first: bool, db: Db, buffer: seq<byte>, db': Db) {
    match KindOf(buffer)
    case IsOpen => LoadArrayRoot(schema, first, db, buffer) == (db', true)
    case IsText =>
      || (StringRoot(buffer) == Some(DUMP_BEGIN) && !db.dumpOn && db' == db.(dumpOn := true))
      || (StringRoot(buffer) == Some(DUMP_END) && db.dumpOn && db' == db.(dumpOn := false))
    case _ => false
  }

  /** The pieces of an accepted root array. */
  lemma RootParts(schema: Schema, first: bool, db: Db, buffer: seq<byte>) returns (rest: seq<byte>)
    requires KindOf(buffer).IsOpen? && LoadArrayRoot(schema, first, db, buffer).1
    ensures LoadRecord(schema, first, db, buffer[1..]) == (LoadArrayRoot(schema, first, db, buffer).0, Some(rest))
    ensures EndsWell(buffer, rest)
  {
    rest := LoadRecord(schema, first, db, buffer[1..]).1.value;
  }

  lemma TransactionSays(schema: Schema, first: bool, db: Db, buffer: seq<byte>, rest: seq<byte>) returns (root: RootSaid)
    requires Shaped(schema, db) && KindOf(buffer).IsOpen? && KindOf(buffer[1..]).IsOpen?
    requires LoadRecord(schema, first, db, buffer[1..]).1 == Some(rest) && EndsWell(buffer, rest)
    ensures SaysRoot(buffer, root) && FitsRoot(schema, first, db, root)
    ensures LoadRecord(schema, first, db, buffer[1..]).0 == TakeRoot(schema, db, root)
  {
    var saids := ArraysSay(schema, db, buffer[1..]);
    root := Transaction(saids);
  }

  lemma DumpSays(schema: Schema, first: bool, db: Db, buffer: seq<byte>, rest: seq<byte>) returns (root: RootSaid)
    requires KindOf(buffer).IsOpen? && KindOf(buffer[1..]).IsText?
    requires LoadRecord(schema, first, db, buffer[1..]).1 == Some(rest) && EndsWell(buffer, rest)
    ensures SaysRoot(buffer, root) && FitsRoot(schema, first, db, root)
    ensures LoadRecord(schema, first, db, buffer[1..]).0 == TakeRoot(schema, db, root)
  {
    var s1 := ReadNumberAt(buffer[1..]).value.1;
    assert SaysZero(buffer, s1);
    if first {
      var nodes := NodesSay(schema, db, s1);
      root := Dump(nodes);
    } else {
      root := Unread;
    }
  }

  lemma OpenRootSays(schema: Schema, first: bool, db: Db, buffer: seq<byte>) returns (root: RootSaid)
    requires Shaped(schema, db) && KindOf(buffer).IsOpen? && LoadArrayRoot(schema, first, db, buffer).1
    ensures SaysRoot(buffer, root) && FitsRoot(schema, first, db, root)
    ensures LoadArrayRoot(schema, first, db, buffer).0 == TakeRoot(schema, db, root)
  {
    var rest := RootParts(schema, first, db, buffer);
    if KindOf(buffer[1..]).IsOpen? {
      root := TransactionSays(schema, first, db, buffer, rest);
    } else {
      root := DumpSays(schema, first, db, buffer, rest);
    }
  }

  lemma {:induction false} LongerAll(s: seq<byte>, saids: seq<Said>, rest: seq<byte>)
    requires SaysAll(s, saids, rest) && saids != []
    ensures KindOf(s).IsOpen? && s != []
  {
  }

  lemma EndedRoot(schema: Schema, first: bool, db: Db, buffer: seq<byte>, db': Db, rest: seq<byte>)
    requires KindOf(buffer).IsOpen? && LoadRecord(schema, first, db, buffer[1..]) == (db', Some(rest)) && EndsWell(buffer, rest)
    ensures LoadArrayRoot(schema, first, db, buffer) == (db', true)
  {
  }

  lemma SaidTransaction(schema: Schema, first: bool, db: Db, buffer: seq<byte>, saids: seq<Said>)
    requires SaysRoot(buffer, Transaction(saids)) && AllFit(schema, db, saids)
    ensures KindOf(buffer).IsOpen? && LoadArrayRoot(schema, first, db, buffer) == (TakeAll(schema, db, saids), true)
  {
    var rest :| SaysAll(buffer[1..], saids, rest) && EndsWell(buffer, rest);
    LongerAll(buffer[1..], saids, rest);
    SaidArrays(schema, db, buffer[1..], saids, rest);
    EndedRoot(schema, first, db, buffer, TakeAll(schema, db, saids), rest);
  }

  lemma SaidDump(schema: Schema, db: Db, buffer: seq<byte>, nodes: seq<Dumped>)
    requires SaysRoot(buffer, Dump(nodes)) && db.dumpOn && AllNew(schema, db, nodes)
    ensures KindOf(buffer).IsOpen? && LoadArrayRoot(schema, true, db, buffer) == (AddAll(db, nodes), true)
  {
    var s, rest :| SaysZero(buffer, s) && SaysNodes(s, nodes, rest) && EndsWell(buffer, rest);
    SaidNodes(schema, db, s, nodes, rest);
    EndedRoot(schema, true, db, buffer, AddAll(db, nodes), rest);
  }

  lemma SaidUnread(schema: Schema, db: Db, buffer: seq<byte>)
    requires SaysRoot(buffer, Unread) && db.dumpOn
    ensures KindOf(buffer).IsOpen? && LoadArrayRoot(schema, false, db, buffer) == (db, true)
  {
    var s, rest :| SaysZero(buffer, s) && Skip(s, 0) == Some(rest) && EndsWell(buffer, rest);
    EndedRoot(schema, false, db, buffer, db, rest);
  }

  lemma SaidOpenRoot(schema: Schema, first: bool, db: Db, buffer: seq<byte>, root: RootSaid)
    requires SaysRoot(buffer, root) && FitsRoot(schema, first, db, root) && !root.Starts? && !root.Stops?
    ensures KindOf(buffer).IsOpen? && LoadArrayRoot(schema, first, db, buffer) == (TakeRoot(schema, db, root), true)
  {
    match root
    case Transaction(saids) => SaidTransaction(schema, first, db, buffer, saids);
    case Dump(nodes) => SaidDump(schema, db, buffer, nodes);
    case Unread => SaidUnread(schema, db, buffer);
  }

  /** A root element is accepted exactly when it says something that fits. */
  lemma RootIff(schema: Schema, first: bool, db: Db, buffer: seq<byte>, db': Db)
    requires Shaped(schema, db)
    ensures Accepts(schema, first, db, buffer, db') <==>
      exists root :: SaysRoot(buffer, root) && FitsRoot(schema, first, db, root) && db' == TakeRoot(schema, db, root)
  {
    if Accepts(schema, first, db, buffer, db') {
      if KindOf(buffer).IsOpen? {
        var root := OpenRootSays(schema, first, db, buffer);
      } else if StringRoot(buffer) == Some(DUMP_BEGIN) {
        assert SaysRoot(buffer, Starts) && FitsRoot(schema, first, db, Starts);
      } else {
        assert SaysRoot(buffer, Stops) && FitsRoot(schema, first, db, Stops);
      }
    }
    if root :| SaysRoot(buffer, root) && FitsRoot(schema, first, db, root) && db' == TakeRoot(schema, db, root) {
      if !root.Starts? && !root.Stops? {
        SaidOpenRoot(schema, first, db, buffer, root);
      }
    }
  }

  lemma {:induction false} ShapedAll(schema: Schema, db: Db, saids: seq<Said>)
    requires Shaped(schema, db) && AllFit(schema, db, saids)
    ensures Shaped(schema, TakeAll(schema, db, saids))
    decreases saids
  {
    if saids != [] {
      ShapedTake(schema, db, saids[0]);
      ShapedAll(schema, Take1(schema, db, saids[0]), saids[1..]);
    }
  }

  lemma {:induction false} ShapedAdd(schema: Schema, db: Db, ds: seq<Dumped>)
    requires Shaped(schema, db) && AllNew(schema, db, ds)
    ensures Shaped(schema, AddAll(db, ds))
    decreases ds
  {
    if ds != [] {
      ShapedAdd(schema, AddNode(db, ds[0].id, NodeRec(ds[0].ty, ds[0].values)), ds[1..]);
    }
  }

  lemma ShapedRoot(schema: Schema, first: bool, db: Db, root: RootSaid)
    requires Shaped(schema, db) && FitsRoot(schema, first, db, root)
    ensures Shaped(schema, TakeRoot(schema, db, root))
  {
    match root
    case Transaction(saids) => ShapedAll(schema, db, saids);
    case Dump(nodes) => ShapedAdd(schema, db, nodes);
    case _ =>
  }

  // ----- files

  /** The file is these root elements and then `rest`. */
  ghost predicate SaysFile(file: seq<byte>, roots: seq<RootSaid>, rest: seq<byte>)
    decreases |roots|
  {
    if roots == [] then file == rest
    else
      var (status, buffer, more) := ReadRoot(file);
      status.Success? && SaysRoot(buffer, roots[0]) && SaysFile(more, roots[1..], rest)
  }

  predicate RootsFit(schema: Schema, first: bool, db: Db, roots: seq<RootSaid>)
    decreases roots
  {
    roots == [] ||
    (FitsRoot(schema, first, db, roots[0]) && RootsFit(schema, first, TakeRoot(schema, db, roots[0]), roots[1..]))
  }

  function TakeRoots(schema: Schema, db: Db, roots: seq<RootSaid>): Db
    decreases roots
  {
    if roots == [] then db else TakeRoots(schema, TakeRoot(schema, db, roots[0]), roots[1..])
  }

  /** How an accepted file ends: with its last root element, or with the footer. */
  predicate FileEnds(rest: seq<byte>, outcome: Outcome) {
    match outcome
    case Unfinished => rest == []
    case Closed(magic) =>
      var (status, buffer, more) := ReadRoot(rest);
      status.Success? && KindOf(buffer).IsText? && StringRoot(buffer) == Some(END_OF_FILE) && MagicRoot(more) == Some(magic)
    case Corrupted => false
  }

  ghost predicate Told(schema: Schema, first: bool, db: Db, file: seq<byte>, db': Db, outcome: Outcome, roots: seq<RootSaid>) {
    && (exists rest :: SaysFile(file, roots, rest) && FileEnds(rest, outcome))
    && RootsFit(schema, first, db, roots) && db' == TakeRoots(schema, db, roots)
  }

  lemma LoopStep(schema: Schema, first: bool, db: Db, file: seq<byte>)
    ensures var (status, buffer, rest) := ReadRoot(file);
      var (db', outcome) := LoadRoots(schema, first, db, file);
      && (status.EndOfFile? ==> outcome.Unfinished? && db' == db)
      && (status.Fail? ==> outcome.Corrupted?)
      && (status.Success? && !outcome.Corrupted? ==>
            FileEnds(file, outcome) || exists mid ::
              Accepts(schema, first, db, buffer, mid) && LoadRoots(schema, first, mid, rest) == (db', outcome))
      && (status.Success? && outcome.Closed? && FileEnds(file, outcome) ==> db' == db)
  {
    var (status, buffer, rest) := ReadRoot(file);
    if status.Success? && KindOf(buffer).IsText? && StringRoot(buffer).Some? {
      assert DUMP_BEGIN != DUMP_END && DUMP_BEGIN != END_OF_FILE && DUMP_END != END_OF_FILE;
      if StringRoot(buffer).value == DUMP_BEGIN && !db.dumpOn {
        assert Accepts(schema, first, db, buffer, db.(dumpOn := true));
      } else if StringRoot(buffer).value == DUMP_END && db.dumpOn {
        assert Accepts(schema, first, db, buffer, db.(dumpOn := false));
      }
    } else if status.Success? && KindOf(buffer).IsOpen? {
      var (mid, ok) := LoadArrayRoot(schema, first, db, buffer);
      assert ok ==> Accepts(schema, first, db, buffer, mid);
    }
  }

  lemma ToldMore(schema: Schema, first: bool, db: Db, file: seq<byte>, root: RootSaid, mid: Db, more: seq<RootSaid>,
                 db': Db, outcome: Outcome)
    requires ReadRoot(file).0.Success? && SaysRoot(ReadRoot(file).1, root) && FitsRoot(schema, first, db, root)
    requires mid == TakeRoot(schema, db, root) && Told(schema, first, mid, ReadRoot(file).2, db', outcome, more)
    ensures Told(schema, first, db, file, db', outcome, [root] + more)
  {
    var roots := [root] + more;
    assert roots[1..] == more;
    var end :| SaysFile(ReadRoot(file).2, more, end) && FileEnds(end, outcome);
    assert SaysFile(file, roots, end);
  }

  lemma {:induction false} FileSays(schema: Schema, first: bool, db: Db, file: seq<byte>) returns (roots: seq<RootSaid>)
    requires Shaped(schema, db) && !LoadRoots(schema, first, db, file).1.Corrupted?
    ensures var (db', outcome) := LoadRoots(schema, first, db, file); Told(schema, first, db, file, db', outcome, roots)
    decreases |file|
  {
    var (db', outcome) := LoadRoots(schema, first, db, file);
    var (status, buffer, rest) := ReadRoot(file);
    LoopStep(schema, first, db, file);
    if status.EndOfFile? {
      EndIsEmpty(file);
      roots := [];
      assert SaysFile(file, [], file);
    } else if FileEnds(file, outcome) {
      roots := [];
      assert SaysFile(file, [], file);
    } else {
      var mid :| Accepts(schema, first, db, buffer, mid) && LoadRoots(schema, first, mid, rest) == (db', outcome);
      RootIff(schema, first, db, buffer, mid);
      var root :| SaysRoot(buffer, root) && FitsRoot(schema, first, db, root) && mid == TakeRoot(schema, db, root);
      ShapedRoot(schema, first, db, root);
      var more := FileSays(schema, first, mid, rest);
      roots := [root] + more;
      ToldMore(schema, first, db, file, root, mid, more, db', outcome);
    }
  }

  lemma EndIsEmpty(file: seq<byte>)
    requires ReadRoot(file).0.EndOfFile?
    ensures file == []
  {
  }

  lemma {:induction false} SaidFile(schema: Schema, first: bool, db: Db, file: seq<byte>, roots: seq<RootSaid>, rest: seq<byte>,
                                    outcome: Outcome)
    requires Shaped(schema, db) && SaysFile(file, roots, rest) && FileEnds(rest, outcome) && RootsFit(schema, first, db, roots)
    ensures LoadRoots(schema, first, db, file) == (TakeRoots(schema, db, roots), outcome)
    decreases |roots|
  {
    if roots == [] {
      assert outcome.Unfinished? ==> ReadRoot(file).0.EndOfFile?;
      assert END_OF_FILE != DUMP_BEGIN && END_OF_FILE != DUMP_END;
    } else {
      var (_, buffer, more) := ReadRoot(file);
      var mid := TakeRoot(schema, db, roots[0]);
      ShapedRoot(schema, first, db, roots[0]);
      RootIff(schema, first, db, buffer, mid);
      AcceptedGoesOn(schema, first, db, file, mid);
      SaidFile(schema, first, mid, more, roots[1..], rest, outcome);
    }
  }

  lemma AcceptedGoesOn(schema: Schema, first: bool, db: Db, file: seq<byte>, mid: Db)
    requires ReadRoot(file).0.Success? && Accepts(schema, first, db, ReadRoot(file).1, mid)
    ensures LoadRoots(schema, first, db, file) == LoadRoots(schema, first, mid, ReadRoot(file).2)
  {
    assert DUMP_BEGIN != DUMP_END;
  }

  /** The loop of `load_file` accepts a file exactly when it is a sequence of root elements that say
      what fits, each where it stands: dump markers in turn, dump records between them and of new
      nodes, transactions of operations that fit; and it ends there, or with a footer. */
  lemma AcceptedIff(schema: Schema, first: bool, db: Db, file: seq<byte>, db': Db, outcome: Outcome)
    requires Shaped(schema, db) && !outcome.Corrupted?
    ensures LoadRoots(schema, first, db, file) == (db', outcome)
      <==> exists roots :: Told(schema, first, db, file, db', outcome, roots)
  {
    if LoadRoots(schema, first, db, file) == (db', outcome) {
      var roots := FileSays(schema, first, db, file);
    }
    if roots :| Told(schema, first, db, file, db', outcome, roots) {
      var rest :| SaysFile(file, roots, rest) && FileEnds(rest, outcome);
      SaidFile(schema, first, db, file, roots, rest, outcome);
    }
  }

  /** And a first file must in addition begin with a dump. */
  lemma FirstAcceptedIff(schema: Schema, db: Db, file: seq<byte>, db': Db, outcome: Outcome)
    requires Shaped(schema, db) && !outcome.Corrupted?
    ensures LoadFile(schema, true, db, file) == (db', outcome)
      <==> exists roots: seq<RootSaid> ::
             roots != [] && roots[0].Starts? && Told(schema, true, db.(dumpOn := false), file, db', outcome, roots)
  {
    var off := db.(dumpOn := false);
    AcceptedIff(schema, true, off, file, db', outcome);
    var (status, buffer, rest) := ReadRoot(file);
    if LoadFile(schema, true, db, file) == (db', outcome) {
      TextRoot(buffer);
      assert Accepts(schema, true, off, buffer, off.(dumpOn := true));
      AcceptedGoesOn(schema, true, off, file, off.(dumpOn := true));
      var roots :| Told(schema, true, off, file, db', outcome, roots);
      BeginsWith(schema, off, file, db', outcome, roots);
    }
    if roots: seq<RootSaid> :| roots != [] && roots[0].Starts? && Told(schema, true, off, file, db', outcome, roots) {
      assert Accepts(schema, true, off, buffer, off.(dumpOn := true));
      AcceptedGoesOn(schema, true, off, file, off.(dumpOn := true));
    }
  }

  lemma TextRoot(buffer: seq<byte>)
    requires StringRoot(buffer).Some?
    ensures KindOf(buffer).IsText?
  {
  }

  lemma BeginsWith(schema: Schema, db: Db, file: seq<byte>, db': Db, outcome: Outcome, roots: seq<RootSaid>)
    requires Told(schema, true, db, file, db', outcome, roots)
    requires ReadRoot(file).0.Success? && StringRoot(ReadRoot(file).1) == Some(DUMP_BEGIN)
    ensures roots != [] && roots[0].Starts?
  {
    var rest :| SaysFile(file, roots, rest) && FileEnds(rest, outcome);
    TextRoot(ReadRoot(file).1);
    assert DUMP_BEGIN != DUMP_END && DUMP_BEGIN != END_OF_FILE;
  }
}
