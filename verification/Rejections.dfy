/** What rejected records leave.

    Loading applies the operations of a record one by one as it reads them, and checks the end
    of the record only then.  A record that is rejected leaves what it did so far. */
module Rejections {
  import opened StorageFormat
  import opened Roots
  import opened Readers
  import opened DataRecords
  import opened Recovery

  // ----- any bytes

  lemma OpLeft(schema: Schema, db: Db, s: seq<byte>) returns (ops: seq<Op>)
    ensures |ops| <= 1 && LoadOp(schema, db, s).0 == ApplyAll(schema, db, ops)
  {
    ops := [];
    match ReadNumberAt(s)
    case None =>
    case Some((tag, rest)) =>
      if tag == MODIFIED {
        ops := ModifyLeft(schema, db, rest);
      } else if tag == CREATED {
        match LoadPrepare(schema, db, rest)
        case None =>
        case Some((ty, id, _)) =>
          ops := [Create(ty, id)];
          assert ops[1..] == [];
      } else if tag == DELETED {
        match ReadNumberAt(rest)
        case None =>
        case Some((id, _)) =>
          ops := [Delete(id)];
          assert ops[1..] == [];
      }
  }

  lemma ModifyLeft(schema: Schema, db: Db, s: seq<byte>) returns (ops: seq<Op>)
    ensures |ops| <= 1 && LoadModify(schema, db, s).0 == ApplyAll(schema, db, ops)
  {
    ops := [];
    match ReadNumberAt(s)
    case None =>
    case Some((id, s1)) =>
      match ReadNumberAt(s1)
      case None =>
      case Some((attr, s2)) =>
        if id in db.nodes && LoadAttribute(schema, db, id, attr, s2).1.Some? {
          var node := db.nodes[id];
          ops := [Modify(id, attr, LoadValue(schema[node.ty][attr], s2).value.0)];
          assert ops[1..] == [];
        }
  }

  lemma {:induction false} ApplyBoth(schema: Schema, db: Db, s: seq<Op>, t: seq<Op>)
    ensures ApplyAll(schema, db, s + t) == ApplyAll(schema, ApplyAll(schema, db, s), t)
    decreases s
  {
    if s == [] {
      assert s + t == t;
    } else {
      assert (s + t)[1..] == s[1..] + t;
      ApplyBoth(schema, Apply(schema, db, s[0]), s[1..], t);
    }
  }

  lemma {:induction false} ArraysLeft(schema: Schema, db: Db, s: seq<byte>) returns (ops: seq<Op>)
    ensures LoadArrays(schema, false, db, s).0 == ApplyAll(schema, db, ops)
    decreases |s|
  {
    ops := [];
    if KindOf(s).IsOpen? {
      ops := OpLeft(schema, db, s[1..]);
      var (db', r) := LoadOp(schema, db, s[1..]);
      if r.Some? && KindOf(r.value).IsClose? {
        var more := ArraysLeft(schema, db', r.value[1..]);
        ApplyBoth(schema, db, ops, more);
        ops := ops + more;
      }
    }
  }

  /** Whatever the bytes of a transaction's record, flipped ones included: loading it leaves what
      some operations leave, those it could read before it failed, and never a part of one. */
  lemma WholeOperations(schema: Schema, first: bool, db: Db, buffer: seq<byte>) returns (ops: seq<Op>)
    requires KindOf(buffer).IsOpen? && !KindOf(buffer[1..]).IsText?
    ensures LoadArrayRoot(schema, first, db, buffer).0 == ApplyAll(schema, db, ops)
  {
    if KindOf(buffer[1..]).IsOpen? {
      ops := ArraysLeft(schema, db, buffer[1..]);
    } else {
      ops := [];
    }
  }

  // ----- transactions that were written, with any end

  /** A transaction, and the bytes behind its body. */
  datatype Ended = Ended(ops: seq<Op>, tail: seq<byte>)
  {
    function Content(): seq<byte> {
      TransactionBody(ops) + tail
    }

    /** The record is accepted. */
    predicate Accepted() {
      ops != [] && Finishes(TransactionBody(ops), tail, true)
    }
  }

  function LogOf(records: seq<Ended>): seq<byte> {
    if records == [] then [] else Sealed(records[0].Content()) + LogOf(records[1..])
  }

  function OpsOf(records: seq<Ended>): (txs: seq<seq<Op>>)
    ensures |txs| == |records|
  {
    if records == [] then [] else [records[0].ops] + OpsOf(records[1..])
  }

  /** Records that fit in 64-bit lengths and operations that fit the schema where they run. */
  predicate Fitting(schema: Schema, db: Db, records: seq<Ended>)
    decreases records
  {
    records == [] ||
    (&& |records[0].Content()| < TWO_64 && (forall op :: op in records[0].ops ==> OpSized(op))
     && AllFitDb(schema, db, records[0].ops)
     && Fitting(schema, ApplyAll(schema, db, records[0].ops), records[1..]))
  }

  /** The length of the longest front in which all are `ok`. */
  function FrontOf<T>(ok: T -> bool, s: seq<T>): (j: nat)
    ensures j <= |s|
  {
    if s == [] || !ok(s[0]) then 0 else 1 + FrontOf(ok, s[1..])
  }

  lemma {:induction false} FrontIs<T>(ok: T -> bool, s: seq<T>)
    ensures forall i :: 0 <= i < FrontOf(ok, s) ==> ok(s[i])
    ensures FrontOf(ok, s) < |s| ==> !ok(s[FrontOf(ok, s)])
  {
    if s != [] && ok(s[0]) {
      FrontIs(ok, s[1..]);
      forall i | 0 <= i < FrontOf(ok, s) ensures ok(s[i]) {
        assert i > 0 ==> s[i] == s[1..][i - 1];
      }
    }
  }

  predicate IsAccepted(r: Ended) {
    r.Accepted()
  }

  /** The records in front of the first one that is not accepted. */
  function Good(records: seq<Ended>): (j: nat)
    ensures j <= |records|
  {
    FrontOf(IsAccepted, records)
  }

  /** What is applied: the accepted records and the one behind them. */
  function Reached(records: seq<Ended>): (j: nat)
    ensures j <= |records|
  {
    if Good(records) < |records| then Good(records) + 1 else |records|
  }

  lemma RecordLoaded(schema: Schema, first: bool, db: Db, r: Ended, rest: seq<byte>)
    requires |r.Content()| < TWO_64 && (forall op :: op in r.ops ==> OpSized(op)) && AllFitDb(schema, db, r.ops)
    ensures LoadRoots(schema, first, db, Sealed(r.Content()) + rest)
         == if r.Accepted() then LoadRoots(schema, first, ApplyAll(schema, db, r.ops), rest)
            else (ApplyAll(schema, db, r.ops), Corrupted)
  {
    HeaderRead(r.Content(), rest);
    TransactionApplied(schema, first, db, r.ops, r.tail);
  }

  lemma ReachedStep(r: Ended, rest: seq<Ended>)
    ensures Good([r] + rest) == if r.Accepted() then 1 + Good(rest) else 0
    ensures var txs := OpsOf([r] + rest)[..Reached([r] + rest)];
      txs != [] && txs[0] == r.ops && txs[1..] == if r.Accepted() then OpsOf(rest)[..Reached(rest)] else []
  {
    assert ([r] + rest)[1..] == rest && IsAccepted(r) == r.Accepted();
    assert OpsOf([r] + rest) == [r.ops] + OpsOf(rest);
  }

  lemma {:induction false} AppliedThrough(schema: Schema, first: bool, db: Db, records: seq<Ended>)
    requires Fitting(schema, db, records)
    ensures LoadRoots(schema, first, db, LogOf(records))
         == (ApplyTxs(schema, db, OpsOf(records)[..Reached(records)]),
             if Good(records) == |records| then Unfinished else Corrupted)
    decreases records
  {
    if records == [] {
      NoFile(schema, first, db);
      assert OpsOf(records)[..0] == [];
    } else {
      var r, rest := records[0], records[1..];
      assert records == [r] + rest;
      ReachedStep(r, rest);
      RecordLoaded(schema, first, db, r, LogOf(rest));
      if r.Accepted() {
        AppliedThrough(schema, first, ApplyAll(schema, db, r.ops), rest);
      }
    }
  }

  /** Loading a log of transactions, each with any bytes behind its body, applies all of them up
      to the first that is not accepted, and that one, too. */
  lemma RejectedIsApplied(schema: Schema, first: bool, db: Db, records: seq<Ended>)
    requires Fitting(schema, db, records)
    ensures LoadRoots(schema, first, db, LogOf(records))
         == (ApplyTxs(schema, db, OpsOf(records)[..Reached(records)]),
             if Good(records) == |records| then Unfinished else Corrupted)
    ensures forall i :: 0 <= i < Good(records) ==> records[i].Accepted()
    ensures Good(records) < |records| ==> !records[Good(records)].Accepted() && Reached(records) == Good(records) + 1
  {
    AppliedThrough(schema, first, db, records);
    FrontIs(IsAccepted, records);
    assert forall i :: 0 <= i < |records| ==> IsAccepted(records[i]) == records[i].Accepted();
  }

  lemma {:induction false} ApplyOneMore(schema: Schema, db: Db, txs: seq<seq<Op>>, ops: seq<Op>)
    ensures ApplyTxs(schema, db, txs + [ops]) == ApplyAll(schema, ApplyTxs(schema, db, txs), ops)
    decreases txs
  {
    if txs == [] {
      assert txs + [ops] == [ops] && [ops][1..] == [];
    } else {
      assert (txs + [ops])[1..] == txs[1..] + [ops];
      ApplyOneMore(schema, ApplyAll(schema, db, txs[0]), txs[1..], ops);
    }
  }

  lemma {:induction false} OpsAt(records: seq<Ended>, j: nat)
    requires j < |records|
    ensures OpsOf(records)[j] == records[j].ops
  {
    if j > 0 {
      OpsAt(records[1..], j - 1);
    }
  }

  lemma OpsTo(records: seq<Ended>, j: nat)
    requires j < |records|
    ensures OpsOf(records)[..j + 1] == OpsOf(records)[..j] + [records[j].ops]
  {
    OpsAt(records, j);
    TakeOne(OpsOf(records), j);
  }

  lemma TakeOne<T>(s: seq<T>, j: nat)
    requires j < |s|
    ensures s[..j + 1] == s[..j] + [s[j]]
  {
  }

  /** So the accepted records are all that is recovered if and only if the operations of the
      first rejected one change nothing there. */
  lemma PrefixIff(schema: Schema, first: bool, db: Db, records: seq<Ended>)
    requires Fitting(schema, db, records) && Good(records) < |records|
    ensures var recovered := ApplyTxs(schema, db, OpsOf(records)[..Good(records)]);
      LoadRoots(schema, first, db, LogOf(records)).0 == recovered
      <==> ApplyAll(schema, recovered, records[Good(records)].ops) == recovered
  {
    RejectedIsApplied(schema, first, db, records);
    OpsTo(records, Good(records));
    ApplyOneMore(schema, db, OpsOf(records)[..Good(records)], records[Good(records)].ops);
  }

  // ----- a record with a wrong CRC that changes a node

  const COUNTERS: Schema := [[UIntAttr]]
  const BORN: seq<Op> := [Create(0, 1)]
  const SET: seq<Op> := [Modify(1, 0, UInt(7))]

  function Holding(n: nat): Db {
    Db(map[1 := NodeRec(0, [UInt(n)])], 1, false, [])
  }

  /** All but one byte as it was. */
  function Flip(t: seq<byte>): (tail: seq<byte>)
    requires |t| == 6
    ensures |tail| == 6 && tail[1] != t[1]
  {
    t[1 := if t[1] == 0 then 1 else 0]
  }

  /** The right end but for one byte of the CRC. */
  function Flipped(body: seq<byte>): seq<byte> {
    Flip(Tail(body, true))
  }

  lemma FlippedRejected(ops: seq<Op>)
    ensures !Ended(ops, Flipped(TransactionBody(ops))).Accepted()
  {
  }

  lemma CounterOps()
    ensures ApplyAll(COUNTERS, NO_DATA, BORN) == Holding(0)
    ensures ApplyAll(COUNTERS, Holding(0), SET) == Holding(7)
    ensures AllFitDb(COUNTERS, NO_DATA, BORN) && AllFitDb(COUNTERS, Holding(0), SET)
  {
    assert BORN[1..] == [] && SET[1..] == [];
    assert InitAttrs(COUNTERS[0]) == [UInt(0)] && [UInt(0)][0 := UInt(7)] == [UInt(7)];
  }

  lemma SmallRecord(op: Op)
    requires op == BORN[0] || op == SET[0]
    ensures |TransactionBody([op])| + 6 < TWO_64 && OpSized(op)
  {
    assert OpsTokens([op]) == OpTokens(op) + OpsTokens([]);
    assert [Open] + OpsTokens([op]) + [Close] == [Open] + (OpTokens(op) + [Close]);
    assert |[Open] + (OpTokens(op) + [Close])| <= 10;
    TokensSmall([Open] + (OpTokens(op) + [Close]));
  }

  lemma {:induction false} TokensSmall(ts: seq<Token>)
    requires forall t :: t in ts ==> |TokenBytes(t)| <= 20
    ensures |Spell(ts)| <= 20 * |ts|
  {
    if ts != [] {
      TokensSmall(ts[1..]);
      SpellStep(ts[0], ts[1..]);
      assert ts == [ts[0]] + ts[1..];
    }
  }

  /** A node is created, and a second record sets its attribute but has a wrong CRC.  Loading
      calls the file corrupted, and has set the attribute. */
  lemma WrongCrcApplies()
    ensures exists records ::
      && |records| == 2 && Good(records) == 1
      && LoadFile(COUNTERS, true, NO_DATA, Marker(DUMP_BEGIN) + (Marker(DUMP_END) + LogOf(records)))
         == (Holding(7), Corrupted)
      && ApplyTxs(COUNTERS, NO_DATA, OpsOf(records)[..1]) == Holding(0)
  {
    var empty := NO_DATA;
    var born, set' := TransactionBody(BORN), TransactionBody(SET);
    var records := [Ended(BORN, Tail(born, true)), Ended(SET, Flipped(set'))];
    SmallRecord(BORN[0]);
    SmallRecord(SET[0]);
    CounterOps();
    TailFinishes(born, true);
    FlippedRejected(SET);
    TwoRecords(empty, records[0], records[1]);
    EmptyDump(COUNTERS, empty, LogOf(records));
    RejectedIsApplied(COUNTERS, true, empty, records);
  }

  lemma OneEnded(schema: Schema, db: Db, r: Ended)
    requires |r.Content()| < TWO_64 && (forall op :: op in r.ops ==> OpSized(op)) && AllFitDb(schema, db, r.ops)
    ensures Fitting(schema, db, [r]) && OpsOf([r]) == [r.ops] && Good([r]) == if r.Accepted() then 1 else 0
    ensures ApplyTxs(schema, db, [r.ops]) == ApplyAll(schema, db, r.ops)
  {
    assert [r][1..] == [] && [r.ops][1..] == [];
  }

  lemma TwoRecords(db: Db, a: Ended, b: Ended)
    requires |a.Content()| < TWO_64 && (forall op :: op in a.ops ==> OpSized(op)) && AllFitDb(COUNTERS, db, a.ops)
    requires |b.Content()| < TWO_64 && (forall op :: op in b.ops ==> OpSized(op))
    requires AllFitDb(COUNTERS, ApplyAll(COUNTERS, db, a.ops), b.ops) && a.Accepted() && !b.Accepted()
    ensures Fitting(COUNTERS, db, [a, b]) && Good([a, b]) == 1 && Reached([a, b]) == 2
    ensures ApplyTxs(COUNTERS, db, OpsOf([a, b])[..1]) == ApplyAll(COUNTERS, db, a.ops)
    ensures ApplyTxs(COUNTERS, db, OpsOf([a, b])[..2]) == ApplyAll(COUNTERS, ApplyAll(COUNTERS, db, a.ops), b.ops)
  {
    OneEnded(COUNTERS, db, a);
    OneEnded(COUNTERS, ApplyAll(COUNTERS, db, a.ops), b);
    assert [a, b][1..] == [b] && OpsOf([a, b]) == [a.ops] + [b.ops];
    ApplyOneMore(COUNTERS, db, [a.ops], b.ops);
    assert ([a.ops] + [b.ops])[..1] == [a.ops] && ([a.ops] + [b.ops])[..2] == [a.ops] + [b.ops];
  }
}
