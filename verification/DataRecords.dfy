/** The records of a data file: what the commit path and the dump write, and what loading
    one of them does. */
module DataRecords {
  import opened StorageFormat
  import opened Roots
  import opened Readers
  import opened Writers

  datatype AttrType = UIntAttr | StringAttr

  /** An attribute value; the null string is stored as the empty one. */
  datatype Value = UInt(n: nat) | Chars(s: seq<byte>)

  type Schema = seq<seq<AttrType>>

  datatype NodeRec = NodeRec(ty: nat, attrs: seq<Value>)

  /** A slab node that has an id but is not in the node dictionary.  Its attributes were never
      initialised. */
  datatype Stray = Stray(ty: nat, id: nat)

  /** What loading changes: the node dictionary, the id counter, the dump flag, and the slab
      nodes left behind by records of nodes that exist. */
  datatype Db = Db(nodes: map<nat, NodeRec>, counter: nat, dumpOn: bool, strays: seq<Stray>)

  /** Before any file is loaded.  The first id to be given out is 2. */
  const NO_DATA: Db := Db(map[], 1, false, [])

  /** A node operation of a transaction. */
  datatype Op = Modify(id: nat, attr: nat, value: Value) | Create(ty: nat, newId: nat) | Delete(oldId: nat)

  const CREATED := 0
  const MODIFIED := 1
  const DELETED := 2

  function InitValue(t: AttrType): Value {
    match t case UIntAttr => UInt(0) case StringAttr => Chars([])
  }

  function InitAttrs(types: seq<AttrType>): (vs: seq<Value>)
    ensures |vs| == |types|
  {
    seq(|types|, i requires 0 <= i < |types| => InitValue(types[i]))
  }

  // ----- what an operation means

  predicate Typed(t: AttrType, v: Value) {
    match t case UIntAttr => v.UInt? case StringAttr => v.Chars?
  }

  function SetAttr(db: Db, id: nat, attr: nat, v: Value): Db
    requires id in db.nodes && attr < |db.nodes[id].attrs|
  {
    db.(nodes := db.nodes[id := db.nodes[id].(attrs := db.nodes[id].attrs[attr := v])])
  }

  function AddNode(db: Db, id: nat, node: NodeRec): Db {
    db.(nodes := db.nodes[id := node], counter := if id > db.counter then id else db.counter)
  }

  function AddStray(db: Db, ty: nat, id: nat): Db {
    db.(strays := db.strays + [Stray(ty, id)])
  }

  /** Modifying or deleting a missing node does nothing, and creating an existing one leaves
      nothing but a stray slab node. */
  function Apply(schema: Schema, db: Db, op: Op): Db {
    match op
    case Modify(id, attr, v) =>
      if id in db.nodes && attr < |db.nodes[id].attrs| then SetAttr(db, id, attr, v) else db
    case Create(ty, id) =>
      if ty >= |schema| then db
      else if id in db.nodes then AddStray(db, ty, id)
      else AddNode(db, id, NodeRec(ty, InitAttrs(schema[ty])))
    case Delete(id) => db.(nodes := db.nodes - {id})
  }

  function ApplyAll(schema: Schema, db: Db, ops: seq<Op>): Db
    decreases ops
  {
    if ops == [] then db else ApplyAll(schema, Apply(schema, db, ops[0]), ops[1..])
  }

  /** The operation fits the schema and the nodes it finds. */
  predicate FitsDb(schema: Schema, db: Db, op: Op) {
    match op
    case Modify(id, attr, v) =>
      id in db.nodes ==>
        && db.nodes[id].ty < |schema| && |db.nodes[id].attrs| == |schema[db.nodes[id].ty]|
        && attr < |db.nodes[id].attrs| && Typed(schema[db.nodes[id].ty][attr], v)
    case Create(ty, _) => ty < |schema|
    case Delete(_) => true
  }

  predicate AllFitDb(schema: Schema, db: Db, ops: seq<Op>)
    decreases ops
  {
    ops == [] || (FitsDb(schema, db, ops[0]) && AllFitDb(schema, Apply(schema, db, ops[0]), ops[1..]))
  }

  predicate ValueSized(v: Value) {
    match v case UInt(n) => n < TWO_64 case Chars(s) => |s| + STRING < TWO_64
  }

  predicate OpSized(op: Op) {
    match op
    case Modify(id, attr, v) => id < TWO_64 && attr < TWO_64 && ValueSized(v)
    case Create(ty, id) => ty < TWO_64 && id < TWO_64
    case Delete(id) => id < TWO_64
  }

  // ----- writing

  function NumberToken(n: nat): Token {
    Text(NumberBytes(n))
  }

  function ValueToken(v: Value): Token {
    match v case UInt(n) => NumberToken(n) case Chars(s) => Text(s)
  }

  /** `write_node_alloc`, `write_node_delete` and `write_node_modify`. */
  function OpTokens(op: Op): seq<Token> {
    match op
    case Create(ty, id) => [Open, NumberToken(CREATED), NumberToken(ty), NumberToken(id), Close]
    case Delete(id) => [Open, NumberToken(DELETED), NumberToken(id), Close]
    case Modify(id, attr, v) => [Open, NumberToken(MODIFIED), NumberToken(id), NumberToken(attr), ValueToken(v), Close]
  }

  function OpsTokens(ops: seq<Op>): seq<Token> {
    if ops == [] then [] else OpTokens(ops[0]) + OpsTokens(ops[1..])
  }

  /** The body of a transaction's record. */
  function TransactionBody(ops: seq<Op>): seq<byte> {
    Spell([Open] + OpsTokens(ops) + [Close])
  }

  // ----- loading: the effect so far, and what is left to read, or a failure

  function LoadValue(t: AttrType, s: seq<byte>): (r: Option<(Value, seq<byte>)>)
    ensures r.Some? ==> |r.value.1| <= |s|
  {
    match t
    case UIntAttr => (match ReadNumberAt(s) case None => None case Some((n, rest)) => Some((UInt(n), rest)))
    case StringAttr => (match ReadText(s) case None => None case Some((x, rest)) => Some((Chars(x), rest)))
  }

  /** The new value of an attribute of a node that exists. */
  function LoadAttribute(schema: Schema, db: Db, id: nat, attr: nat, s: seq<byte>): (r: (Db, Option<seq<byte>>))
    requires id in db.nodes
    ensures r.1.Some? ==> |r.1.value| <= |s|
  {
    var node := db.nodes[id];
    if node.ty >= |schema| || attr >= |schema[node.ty]| || attr >= |node.attrs| then (db, None)
    else
      match LoadValue(schema[node.ty][attr], s)
      case None => (db, None)
      case Some((v, rest)) => (SetAttr(db, id, attr, v), Some(rest))
  }

  /** `read_node_modify`. */
  function LoadModify(schema: Schema, db: Db, s: seq<byte>): (r: (Db, Option<seq<byte>>))
    ensures r.1.Some? ==> |r.1.value| <= |s|
  {
    match ReadNumberAt(s)
    case None => (db, None)
    case Some((id, s1)) =>
      match ReadNumberAt(s1)
      case None => (db, None)
      case Some((attr, s2)) =>
        if id !in db.nodes then (db, Skip(s2, 0)) else LoadAttribute(schema, db, id, attr, s2)
  }

  /** `read_node_prepare`: the type and id of a new node, and whether it exists already. */
  function LoadPrepare(schema: Schema, db: Db, s: seq<byte>): (r: Option<(nat, nat, seq<byte>)>)
    ensures r.Some? ==> |r.value.2| <= |s| && r.value.0 < |schema|
  {
    match ReadNumberAt(s)
    case None => None
    case Some((ty, s1)) =>
      if ty >= |schema| then None
      else
        match ReadNumberAt(s1)
        case None => None
        case Some((id, rest)) => Some((ty, id, rest))
  }

  /** `read_node_create`: of a node that exists, only the slab node stays behind. */
  function LoadCreate(schema: Schema, db: Db, s: seq<byte>): (r: (Db, Option<seq<byte>>))
    ensures r.1.Some? ==> |r.1.value| <= |s|
  {
    match LoadPrepare(schema, db, s)
    case None => (db, None)
    case Some((ty, id, rest)) =>
      (if id in db.nodes then AddStray(db, ty, id) else AddNode(db, id, NodeRec(ty, InitAttrs(schema[ty]))), Some(rest))
  }

  /** `read_node_delete`. */
  function LoadDelete(db: Db, s: seq<byte>): (r: (Db, Option<seq<byte>>))
    ensures r.1.Some? ==> |r.1.value| <= |s|
  {
    match ReadNumberAt(s)
    case None => (db, None)
    case Some((id, rest)) => (db.(nodes := db.nodes - {id}), Some(rest))
  }

  /** The inside of an operation's array. */
  function LoadOp(schema: Schema, db: Db, s: seq<byte>): (r: (Db, Option<seq<byte>>))
    ensures r.1.Some? ==> |r.1.value| <= |s|
  {
    match ReadNumberAt(s)
    case None => (db, None)
    case Some((tag, rest)) =>
      if tag == MODIFIED then LoadModify(schema, db, rest)
      else if tag == CREATED then LoadCreate(schema, db, rest)
      else if tag == DELETED then LoadDelete(db, rest)
      else (db, None)
  }

  /** The attributes of a dumped node, one after the other. */
  function LoadAttrs(types: seq<AttrType>, attrs: seq<Value>, i: nat, s: seq<byte>): (r: (seq<Value>, Option<seq<byte>>))
    requires |attrs| == |types| && i <= |types|
    ensures r.1.Some? ==> |r.1.value| <= |s|
    decreases |types| - i
  {
    if i == |types| then (attrs, Some(s))
    else
      match LoadValue(types[i], s)
      case None => (attrs, None)
      case Some((v, rest)) => LoadAttrs(types, attrs[i := v], i + 1, rest)
  }

  /** `read_node_load`: fails for a node that exists. */
  function LoadNode(schema: Schema, db: Db, s: seq<byte>): (r: (Db, Option<seq<byte>>))
    ensures r.1.Some? ==> |r.1.value| <= |s|
  {
    match LoadPrepare(schema, db, s)
    case None => (db, None)
    case Some((ty, id, rest)) =>
      if id in db.nodes then (AddStray(db, ty, id), None)
      else
        var (attrs, end) := LoadAttrs(schema[ty], InitAttrs(schema[ty]), 0, rest);
        (AddNode(db, id, NodeRec(ty, attrs)), end)
  }

  /** Arrays up to the end of the enclosing one: operations, or dumped nodes. */
  function LoadArrays(schema: Schema, dump: bool, db: Db, s: seq<byte>): (r: (Db, Option<seq<byte>>))
    ensures r.1.Some? ==> |r.1.value| <= |s|
    decreases |s|
  {
    if KindOf(s).IsClose? then (db, Some(s))
    else if !KindOf(s).IsOpen? then (db, None)
    else
      var (db', r) := if dump then LoadNode(schema, db, s[1..]) else LoadOp(schema, db, s[1..]);
      match r
      case None => (db', None)
      case Some(s1) =>
        if !KindOf(s1).IsClose? then (db', None)
        else LoadArrays(schema, dump, db', s1[1..])
  }

  /** The inside of a root array: a transaction or a dump record. */
  function LoadRecord(schema: Schema, first: bool, db: Db, s: seq<byte>): (r: (Db, Option<seq<byte>>))
    ensures r.1.Some? ==> |r.1.value| <= |s|
  {
    match KindOf(s)
    case IsOpen => LoadArrays(schema, false, db, s)
    case IsText =>
      (match ReadNumberAt(s)
       case None => (db, None)
       case Some((n, rest)) =>
         if n != 0 || !db.dumpOn then (db, None)
         else if first then LoadArrays(schema, true, db, rest)
         else (db, Skip(rest, 0)))
    case _ => (db, None)
  }

  /** A root array: its effect, and whether it ended soundly. */
  function LoadArrayRoot(schema: Schema, first: bool, db: Db, buffer: seq<byte>): (Db, bool)
    requires KindOf(buffer).IsOpen?
  {
    var (db', r) := LoadRecord(schema, first, db, buffer[1..]);
    match r
    case None => (db', false)
    case Some(s) =>
      if !KindOf(s).IsClose? then (db', false)
      else (db', Finishes(buffer[..|buffer| - |s| + 1], s[1..], true))
  }

  // ----- reading back what was written

  lemma NumberRead(n: nat, rest: seq<byte>)
    requires n < TWO_64
    ensures ReadNumberAt(TokenBytes(NumberToken(n)) + rest) == Some((n, rest))
    ensures KindOf(TokenBytes(NumberToken(n)) + rest).IsText?
  {
    var s := NumberBytes(n);
    NumberBytesShort(n);
    NumberBytesMean(n);
    ShortCode(s);
    var all := [|s| + STRING] + s + rest;
    assert all[1..1 + |s|] == s;
    assert all[1 + |s|..] == rest;
  }

  lemma ValueRead(t: AttrType, v: Value, rest: seq<byte>)
    requires Typed(t, v) && ValueSized(v)
    ensures LoadValue(t, TokenBytes(ValueToken(v)) + rest) == Some((v, rest))
  {
    match v
    case UInt(n) => NumberRead(n, rest);
    case Chars(s) =>
      TextRoundTrip(s, Code(|s| + STRING), rest);
      Assoc(Code(|s| + STRING), s, rest);
  }

  lemma NumberFits(n: nat)
    requires n < TWO_64
    ensures Fits(NumberToken(n))
  {
    NumberBytesShort(n);
  }

  lemma ValueFits(v: Value)
    requires ValueSized(v)
    ensures Fits(ValueToken(v))
  {
    if v.UInt? {
      NumberFits(v.n);
    }
  }

  lemma SpellCons(t: Token, ts: seq<Token>, rest: seq<byte>)
    ensures Spell([t] + ts) + rest == TokenBytes(t) + (Spell(ts) + rest)
  {
    SpellStep(t, ts);
    Assoc(TokenBytes(t), Spell(ts), rest);
  }

  lemma CloseKind(rest: seq<byte>)
    ensures KindOf(TokenBytes(Close) + rest).IsClose? && (TokenBytes(Close) + rest)[1..] == rest
  {
  }

  lemma OpenKind(rest: seq<byte>)
    ensures KindOf(TokenBytes(Open) + rest).IsOpen? && (TokenBytes(Open) + rest)[1..] == rest
  {
  }

  /** A value is skipped when its node is missing. */
  lemma ValueSkipped(v: Value, rest: seq<byte>)
    requires ValueSized(v) && KindOf(rest).IsClose?
    ensures Skip(TokenBytes(ValueToken(v)) + rest, 0) == Some(rest)
  {
    ValueFits(v);
    SkipToken(ValueToken(v), rest, 0);
    SkipKinds(rest, 0);
  }

  lemma ModifyRead(schema: Schema, db: Db, id: nat, attr: nat, v: Value, s: seq<byte>, s1: seq<byte>, s2: seq<byte>, rest: seq<byte>)
    requires FitsDb(schema, db, Modify(id, attr, v)) && OpSized(Modify(id, attr, v)) && KindOf(rest).IsClose?
    requires s2 == TokenBytes(ValueToken(v)) + rest
    requires s1 == TokenBytes(NumberToken(attr)) + s2 && s == TokenBytes(NumberToken(id)) + s1
    ensures LoadModify(schema, db, s) == (Apply(schema, db, Modify(id, attr, v)), Some(rest))
  {
    NumberRead(id, s1);
    NumberRead(attr, s2);
    if id in db.nodes {
      ValueRead(schema[db.nodes[id].ty][attr], v, rest);
    } else {
      ValueSkipped(v, rest);
    }
  }

  lemma CreateRead(schema: Schema, db: Db, ty: nat, id: nat, s: seq<byte>, s1: seq<byte>, rest: seq<byte>)
    requires FitsDb(schema, db, Create(ty, id)) && OpSized(Create(ty, id))
    requires s1 == TokenBytes(NumberToken(id)) + rest && s == TokenBytes(NumberToken(ty)) + s1
    ensures LoadCreate(schema, db, s) == (Apply(schema, db, Create(ty, id)), Some(rest))
  {
    NumberRead(ty, s1);
    NumberRead(id, rest);
  }

  /** The tokens of an operation behind its opening and its tag. */
  function Arguments(op: Op): seq<Token> {
    match op
    case Create(ty, id) => [NumberToken(ty), NumberToken(id)]
    case Delete(id) => [NumberToken(id)]
    case Modify(id, attr, v) => [NumberToken(id), NumberToken(attr), ValueToken(v)]
  }

  function Tag(op: Op): nat {
    match op case Create(_, _) => CREATED case Delete(_) => DELETED case Modify(_, _, _) => MODIFIED
  }

  lemma SpellThree(a: Token, b: Token, c: Token, rest: seq<byte>)
    ensures Spell([a, b, c]) + rest == TokenBytes(a) + (TokenBytes(b) + (TokenBytes(c) + rest))
  {
    assert [a, b, c] == [a] + [b, c];
    SpellCons(a, [b, c], rest);
    SpellTwo(b, c, rest);
  }

  lemma SpellTwo(a: Token, b: Token, rest: seq<byte>)
    ensures Spell([a, b]) + rest == TokenBytes(a) + (TokenBytes(b) + rest)
  {
    assert [a, b] == [a] + [b];
    SpellCons(a, [b], rest);
    SpellToken(b, rest);
  }

  /** The arguments are read and the operation takes effect. */
  lemma ArgumentsRead(schema: Schema, db: Db, op: Op, rest: seq<byte>)
    requires FitsDb(schema, db, op) && OpSized(op) && KindOf(rest).IsClose?
    ensures var s := Spell(Arguments(op)) + rest;
      match op
      case Modify(_, _, _) => LoadModify(schema, db, s) == (Apply(schema, db, op), Some(rest))
      case Create(_, _) => LoadCreate(schema, db, s) == (Apply(schema, db, op), Some(rest))
      case Delete(_) => LoadDelete(db, s) == (Apply(schema, db, op), Some(rest))
  {
    match op
    case Modify(id, attr, v) =>
      SpellThree(NumberToken(id), NumberToken(attr), ValueToken(v), rest);
      var s2 := TokenBytes(ValueToken(v)) + rest;
      var s1 := TokenBytes(NumberToken(attr)) + s2;
      ModifyRead(schema, db, id, attr, v, TokenBytes(NumberToken(id)) + s1, s1, s2, rest);
    case Create(ty, id) =>
      SpellTwo(NumberToken(ty), NumberToken(id), rest);
      var s1 := TokenBytes(NumberToken(id)) + rest;
      CreateRead(schema, db, ty, id, TokenBytes(NumberToken(ty)) + s1, s1, rest);
    case Delete(id) =>
      SpellToken(NumberToken(id), rest);
      NumberRead(id, rest);
  }

  lemma OpRead(schema: Schema, db: Db, op: Op, s: seq<byte>, rest: seq<byte>)
    requires FitsDb(schema, db, op) && OpSized(op) && KindOf(rest).IsClose?
    requires s == TokenBytes(NumberToken(Tag(op))) + (Spell(Arguments(op)) + rest)
    ensures LoadOp(schema, db, s) == (Apply(schema, db, op), Some(rest))
  {
    NumberRead(Tag(op), Spell(Arguments(op)) + rest);
    ArgumentsRead(schema, db, op, rest);
  }

  lemma OpSpelled(op: Op, rest: seq<byte>)
    ensures Spell(OpTokens(op)) + rest
         == TokenBytes(Open) + (TokenBytes(NumberToken(Tag(op))) + (Spell(Arguments(op)) + (TokenBytes(Close) + rest)))
  {
    var args := Arguments(op);
    assert OpTokens(op) == [Open] + ([NumberToken(Tag(op))] + (args + [Close]));
    SpellCons(Open, [NumberToken(Tag(op))] + (args + [Close]), rest);
    SpellCons(NumberToken(Tag(op)), args + [Close], rest);
    SpellParts(args, [Close], rest);
    SpellToken(Close, rest);
  }

  /** One step of loading a transaction. */
  lemma ArraysStep(schema: Schema, db: Db, op: Op, rest: seq<byte>)
    requires FitsDb(schema, db, op) && OpSized(op)
    ensures LoadArrays(schema, false, db, Spell(OpTokens(op)) + rest)
         == LoadArrays(schema, false, Apply(schema, db, op), rest)
  {
    var inside := TokenBytes(NumberToken(Tag(op))) + (Spell(Arguments(op)) + (TokenBytes(Close) + rest));
    OpSpelled(op, rest);
    OpenKind(inside);
    CloseKind(rest);
    OpRead(schema, db, op, inside, TokenBytes(Close) + rest);
  }

  lemma OpsStep(schema: Schema, db: Db, op: Op, s: seq<byte>, rest: seq<byte>, result: (Db, Option<seq<byte>>))
    requires FitsDb(schema, db, op) && OpSized(op)
    requires s == Spell(OpTokens(op)) + rest && LoadArrays(schema, false, Apply(schema, db, op), rest) == result
    ensures LoadArrays(schema, false, db, s) == result
  {
    ArraysStep(schema, db, op, rest);
  }

  /** Loading the operations of a transaction applies them in order. */
  lemma {:induction false} OpsRead(schema: Schema, db: Db, ops: seq<Op>, rest: seq<byte>)
    requires AllFitDb(schema, db, ops) && (forall op :: op in ops ==> OpSized(op)) && KindOf(rest).IsClose?
    ensures LoadArrays(schema, false, db, Spell(OpsTokens(ops)) + rest) == (ApplyAll(schema, db, ops), Some(rest))
    decreases ops
  {
    if ops == [] {
      NoOps(schema, db, rest);
    } else {
      var more := Spell(OpsTokens(ops[1..])) + rest;
      SpellParts(OpTokens(ops[0]), OpsTokens(ops[1..]), rest);
      OpsRead(schema, Apply(schema, db, ops[0]), ops[1..], rest);
      OpsStep(schema, db, ops[0], Spell(OpsTokens(ops)) + rest, more, (ApplyAll(schema, db, ops), Some(rest)));
    }
  }

  lemma NoOps(schema: Schema, db: Db, rest: seq<byte>)
    requires KindOf(rest).IsClose?
    ensures LoadArrays(schema, false, db, Spell(OpsTokens([])) + rest) == (db, Some(rest))
  {
    assert Spell([]) + rest == rest;
  }

  lemma OpsKind(ops: seq<Op>, rest: seq<byte>)
    ensures ops != [] ==> KindOf(Spell(OpsTokens(ops)) + rest).IsOpen?
    ensures ops == [] ==> Spell(OpsTokens(ops)) + rest == rest
  {
    if ops != [] {
      SpellParts(OpTokens(ops[0]), OpsTokens(ops[1..]), rest);
      OpSpelled(ops[0], Spell(OpsTokens(ops[1..])) + rest);
    } else {
      assert Spell([]) + rest == rest;
    }
  }

  lemma BodySpelled(ops: seq<Op>, rest: seq<byte>)
    ensures TransactionBody(ops) + rest
         == TokenBytes(Open) + (Spell(OpsTokens(ops)) + (TokenBytes(Close) + rest))
  {
    assert [Open] + OpsTokens(ops) + [Close] == [Open] + (OpsTokens(ops) + [Close]);
    SpellCons(Open, OpsTokens(ops) + [Close], rest);
    SpellParts(OpsTokens(ops), [Close], rest);
    SpellToken(Close, rest);
  }

  lemma EndCut(body: seq<byte>, tail: seq<byte>, buffer: seq<byte>, s: seq<byte>)
    requires buffer == body + tail && s == [ARRAY_END] + tail
    ensures buffer[..|buffer| - |s| + 1] == body && s[1..] == tail
  {
  }

  /** A transaction's operations are applied whatever is behind them; the record is accepted
      exactly when it holds one and ends with a dot and the right CRC. */
  lemma TransactionApplied(schema: Schema, first: bool, db: Db, ops: seq<Op>, tail: seq<byte>)
    requires AllFitDb(schema, db, ops) && forall op :: op in ops ==> OpSized(op)
    ensures var buffer := TransactionBody(ops) + tail;
      && KindOf(buffer).IsOpen?
      && LoadArrayRoot(schema, first, db, buffer) ==
           (ApplyAll(schema, db, ops), ops != [] && Finishes(TransactionBody(ops), tail, true))
  {
    var body := TransactionBody(ops);
    var close := TokenBytes(Close) + tail;
    BodySpelled(ops, tail);
    OpenKind(Spell(OpsTokens(ops)) + close);
    OpsKind(ops, close);
    CloseKind(tail);
    if ops != [] {
      OpsRead(schema, db, ops, close);
      EndCut(body, tail, body + tail, close);
    }
  }

  /** A transaction's record is accepted, and its operations applied, exactly when it holds one. */
  lemma TransactionRead(schema: Schema, first: bool, db: Db, ops: seq<Op>)
    requires AllFitDb(schema, db, ops) && forall op :: op in ops ==> OpSized(op)
    ensures var buffer := TransactionBody(ops) + Tail(TransactionBody(ops), true);
      && KindOf(buffer).IsOpen?
      && LoadArrayRoot(schema, first, db, buffer) == (ApplyAll(schema, db, ops), ops != [])
  {
    TransactionApplied(schema, first, db, ops, Tail(TransactionBody(ops), true));
    TailFinishes(TransactionBody(ops), true);
  }
}
