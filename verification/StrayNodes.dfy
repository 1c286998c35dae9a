/** What slab nodes that loading leaves behind do to the next dump.

    Loading a file skips the creation of a node that exists, as a dump record may have brought
    it, but by then a slab node has its id.  The next dump meets that slab node as well. */
module StrayNodes {
  import opened StorageFormat
  import opened DataRecords
  import opened FuzzyDump

  // ----- when a file can be loaded

  /** Whether a node stands behind some operations. */
  function StandsBehind(before: bool, ops: seq<Op>, n: nat): bool {
    if ops == [] then before
    else
      var front := StandsBehind(before, ops[..|ops| - 1], n);
      match ops[|ops| - 1]
      case Create(_, id) => id == n || front
      case Delete(id) => id != n && front
      case Modify(_, _, _) => front
  }

  /** Whether the records of a file dump or create a node and do not delete it afterwards. */
  function Stands(file: seq<FileRec>, n: nat): bool {
    if file == [] then false
    else
      var front := Stands(file[..|file| - 1], n);
      match file[|file| - 1]
      case DumpOf(id, _) => id == n || front
      case TxOf(ops) => StandsBehind(front, ops, n)
  }

  predicate KnownTypes(schema: Schema, ops: seq<Op>) {
    forall i :: 0 <= i < |ops| && ops[i].Create? ==> ops[i].ty < |schema|
  }

  predicate FileKnown(schema: Schema, file: seq<FileRec>) {
    forall x :: 0 <= x < |file| && file[x].TxOf? ==> KnownTypes(schema, file[x].ops)
  }

  lemma {:induction false} StandsOps(schema: Schema, o: Option<NodeRec>, ops: seq<Op>, n: nat)
    requires KnownTypes(schema, ops)
    ensures State(schema, n, o, ops).Some? <==> StandsBehind(o.Some?, ops, n)
  {
    if ops != [] {
      StandsOps(schema, o, ops[..|ops| - 1], n);
      LastStep(schema, n, o, Unborn, ops);
    }
  }

  lemma {:induction false} StandsAt(schema: Schema, file: seq<FileRec>, n: nat)
    requires FileKnown(schema, file) && LoadNew(schema, file).Some?
    ensures n in LoadNew(schema, file).value.nodes <==> Stands(file, n)
  {
    if file != [] {
      var front, last := file[..|file| - 1], file[|file| - 1];
      StandsAt(schema, front, n);
      if last.TxOf? {
        var db := LoadNew(schema, front).value;
        ApplyAllAt(schema, db, last.ops, n);
        StandsOps(schema, At(db, n), last.ops, n);
      }
    }
  }

  /** No dump record meets its node. */
  predicate NoneStands(file: seq<FileRec>) {
    forall x :: 0 <= x < |file| && file[x].DumpOf? ==> !Stands(file[..x], file[x].id)
  }

  lemma NoneStandsFront(file: seq<FileRec>)
    requires file != []
    ensures var front, last := file[..|file| - 1], file[|file| - 1];
      NoneStands(file) <==> NoneStands(front) && (last.DumpOf? ==> !Stands(front, last.id))
  {
    var front := file[..|file| - 1];
    assert forall x :: 0 <= x < |front| ==> file[..x] == front[..x] && file[x] == front[x];
    if NoneStands(file) {
      forall x | 0 <= x < |front| && front[x].DumpOf? ensures !Stands(front[..x], front[x].id) {
        assert file[x].DumpOf?;
      }
    }
  }

  /** Any file can be loaded exactly when none of its dump records is of a node that records in
      front of it dumped or created and did not delete since. */
  lemma {:induction false} LoadableExactly(schema: Schema, file: seq<FileRec>)
    requires FileKnown(schema, file)
    ensures LoadNew(schema, file).Some? <==> NoneStands(file)
  {
    if file != [] {
      var front, last := file[..|file| - 1], file[|file| - 1];
      NoneStandsFront(file);
      LoadableExactly(schema, front);
      if last.DumpOf? && LoadNew(schema, front).Some? {
        StandsAt(schema, front, last.id);
      }
    }
  }

  // ----- the next dump

  /** A dump that `NewFileSuffices` is about. */
  ghost predicate Complete(s: Sys) {
    s.finished && AllSeenWritten(s) && DumpsFirst(s.file)
  }

  /** The new file alone gives the nodes of all files. */
  ghost predicate Suffices(schema: Schema, s: Sys) {
    && LoadNew(schema, s.file).Some?
    && LoadNew(schema, s.file).value.nodes == LoadAfter(schema, s.base, s.file).nodes
  }

  lemma Extend(schema: Schema, run: seq<Sys>, steps: seq<Step>, step: Step)
    requires Run(schema, run, steps) && Enabled(schema, run[|steps|], step)
    ensures Run(schema, run + [Do(schema, run[|steps|], step)], steps + [step])
  {
    var run', steps' := run + [Do(schema, run[|steps|], step)], steps + [step];
    forall i | 0 <= i < |steps'| ensures Stepped(schema, run', steps', i) {
      if i < |steps| {
        assert Stepped(schema, run, steps, i);
      }
    }
  }

  /** A dump in which nothing commits, with so many records. */
  ghost predicate Quiet(schema: Schema, base: Db, s: Sys, size: nat) {
    && s.base == base && s.txs == [] && s.written == 0 && |s.file| == |s.seen| == size
    && forall x :: 0 <= x < |s.file| ==> s.file[x].DumpOf? && s.seen[x] == 0
  }

  lemma QuietNode(schema: Schema, base: Db, s: Sys, n: nat, size: nat)
    requires Quiet(schema, base, s, size) && !s.finished && n in base.nodes && n !in s.dumped
    ensures Enabled(schema, s, DumpNode(n, 0))
    ensures var s' := Do(schema, s, DumpNode(n, 0));
      Quiet(schema, base, s', size + 1) && !s'.finished && s'.dumped == s.dumped + {n} && s'.visited == s.visited
  {
    assert s.txs[..0] == [] && Ops([]) == [];
    assert ContentAfter(schema, s, n, 0) == At(base, n);
  }

  /** Such a dump of all nodes. */
  lemma DumpNodes(schema: Schema, base: Db) returns (run: seq<Sys>, steps: seq<Step>)
    ensures Run(schema, run, steps) && run[0].base == base
    ensures var s := run[|steps|];
      Quiet(schema, base, s, |base.nodes|) && !s.finished && s.dumped == base.nodes.Keys && s.visited == {}
  {
    var s := Sys(base, [], 0, [], [], {}, {}, false);
    run, steps := [s], [];
    while s.dumped != base.nodes.Keys
      invariant Run(schema, run, steps) && run[0].base == base && run[|steps|] == s
      invariant Quiet(schema, base, s, |s.dumped|) && !s.finished && s.dumped <= base.nodes.Keys && s.visited == {}
      decreases base.nodes.Keys - s.dumped
    {
      var n :| n in base.nodes && n !in s.dumped;
      QuietNode(schema, base, s, n, |s.dumped|);
      Extend(schema, run, steps, DumpNode(n, 0));
      s := Do(schema, s, DumpNode(n, 0));
      run, steps := run + [s], steps + [DumpNode(n, 0)];
    }
    assert |base.nodes| == |base.nodes.Keys|;
  }

  lemma QuietStray(schema: Schema, base: Db, s: Sys, k: nat, size: nat)
    requires Quiet(schema, base, s, size) && !s.finished && k < |base.strays| && k !in s.visited
    ensures Enabled(schema, s, DumpStray(k, []))
    ensures var s' := Do(schema, s, DumpStray(k, []));
      Quiet(schema, base, s', size + 1) && !s'.finished && s'.dumped == s.dumped && s'.visited == s.visited + {k}
  {
  }

  /** A whole dump in which nothing commits: a record of each node and of each stray. */
  lemma QuietDump(schema: Schema, base: Db) returns (run: seq<Sys>, steps: seq<Step>)
    ensures Run(schema, run, steps) && run[0].base == base
    ensures Quiet(schema, base, run[|steps|], |base.nodes| + |base.strays|) && run[|steps|].finished
  {
    run, steps := DumpNodes(schema, base);
    var s := run[|steps|];
    var k := 0;
    while k < |base.strays|
      invariant Run(schema, run, steps) && run[0].base == base && run[|steps|] == s && k <= |base.strays|
      invariant Quiet(schema, base, s, |base.nodes| + k) && !s.finished && s.dumped == base.nodes.Keys
      invariant forall j :: j in s.visited <==> 0 <= j < k
    {
      QuietStray(schema, base, s, k, |base.nodes| + k);
      Extend(schema, run, steps, DumpStray(k, []));
      s := Do(schema, s, DumpStray(k, []));
      run, steps := run + [s], steps + [DumpStray(k, [])];
      k := k + 1;
    }
    Extend(schema, run, steps, Step.Finish);
    s := Do(schema, s, Step.Finish);
    run, steps := run + [s], steps + [Step.Finish];
  }

  /** Dump records that can be loaded give one node each, and nothing behind older files. */
  lemma {:induction false} DumpsCount(schema: Schema, base: Db, file: seq<FileRec>)
    requires forall x :: 0 <= x < |file| ==> file[x].DumpOf?
    ensures LoadNew(schema, file).Some? ==> |LoadNew(schema, file).value.nodes| == |file|
    ensures LoadAfter(schema, base, file) == base && TxsOf(file) == []
  {
    if file != [] {
      var front, last := file[..|file| - 1], file[|file| - 1];
      DumpsCount(schema, base, front);
      if LoadNew(schema, file).Some? {
        var db := LoadNew(schema, front).value;
        assert LoadNew(schema, file).value.nodes.Keys == db.nodes.Keys + {last.id};
        assert |db.nodes.Keys| == |db.nodes| && |LoadNew(schema, file).value.nodes.Keys| == |LoadNew(schema, file).value.nodes|;
      }
    }
  }

  lemma QuietComplete(schema: Schema, base: Db, s: Sys, size: nat)
    requires Quiet(schema, base, s, size) && s.finished
    ensures Complete(s)
  {
    forall x | 0 <= x < |s.file| && s.file[x].DumpOf? ensures !Creates(Ops(TxsOf(s.file[..x])), s.file[x].id) {
      DumpsCount(schema, base, s.file[..x]);
    }
  }

  /** Every complete dump suffices, whatever commits meanwhile, if and only if the process was
      loaded without strays. */
  lemma SufficesIff(schema: Schema, base: Db)
    ensures (forall run: seq<Sys>, steps: seq<Step>, i: nat ::
               Run(schema, run, steps) && i < |run| && run[0].base == base && Complete(run[i]) ==>
                 Suffices(schema, run[i]))
            <==> base.strays == []
  {
    if base.strays == [] {
      forall run: seq<Sys>, steps: seq<Step>, i: nat | Run(schema, run, steps) && i < |run| && run[0].base == base && Complete(run[i])
        ensures Suffices(schema, run[i])
      {
        NewFileSuffices(schema, run, steps, i);
      }
    } else {
      var run, steps := QuietDump(schema, base);
      var s := run[|steps|];
      QuietComplete(schema, base, s, |base.nodes| + |base.strays|);
      DumpsCount(schema, base, s.file);
      assert !Suffices(schema, s);
    }
  }

  // ----- when loading leaves strays

  /** No dumped node is created by the file's transactions. */
  predicate NoneCreated(file: seq<FileRec>) {
    forall x :: 0 <= x < |file| && file[x].DumpOf? ==> !Creates(Ops(TxsOf(file)), file[x].id)
  }

  /** Where an operation creates a node that exists. */
  predicate Skips(schema: Schema, db: Db, ops: seq<Op>, i: nat) {
    i < |ops| && ops[i].Create? && ops[i].newId in ApplyAll(schema, db, ops[..i]).nodes
  }

  lemma {:induction false} ApplyLast(schema: Schema, db: Db, ops: seq<Op>, op: Op)
    ensures ApplyAll(schema, db, ops + [op]) == Apply(schema, ApplyAll(schema, db, ops), op)
    decreases ops
  {
    if ops == [] {
      assert [op] == [] + [op] && [op][1..] == [];
    } else {
      ApplyLast(schema, Apply(schema, db, ops[0]), ops[1..], op);
      assert (ops + [op])[0] == ops[0] && (ops + [op])[1..] == ops[1..] + [op];
    }
  }

  /** Operations leave a stray for each creation of a node that exists, and none otherwise. */
  lemma {:induction false} StraysOf(schema: Schema, db: Db, ops: seq<Op>)
    requires KnownTypes(schema, ops)
    ensures db.strays <= ApplyAll(schema, db, ops).strays
    ensures ApplyAll(schema, db, ops).strays == db.strays <==> forall i :: !Skips(schema, db, ops, i)
  {
    if ops != [] {
      var n := |ops| - 1;
      var front := ops[..n];
      assert front + [ops[n]] == ops;
      StraysOf(schema, db, front);
      ApplyLast(schema, db, front, ops[n]);
      forall i | 0 <= i < n ensures Skips(schema, db, ops, i) <==> Skips(schema, db, front, i) {
        assert ops[..i] == front[..i];
      }
      assert Skips(schema, db, ops, n) <==> ops[n].Create? && ops[n].newId in ApplyAll(schema, db, front).nodes;
    }
  }

  /** A node that is created has no history. */
  lemma UnbornBefore(schema: Schema, n: nat, o: Option<NodeRec>, past: seq<Op>, op: Op)
    requires op.Create? && op.newId == n && !Life(schema, n, Start(o), past + [op]).Wrong?
    ensures !Creates(past, n) && !Deletes(past, n) && op.ty < |schema|
  {
    assert (past + [op])[..|past|] == past;
    LastStep(schema, n, o, Start(o), past + [op]);
    SoundPart(schema, n, Start(o), past, [op]);
    Phases(schema, n, o, past);
  }

  lemma {:induction false} StaysThere(schema: Schema, n: nat, o: Option<NodeRec>, ops: seq<Op>)
    requires o.Some? && !Deletes(ops, n)
    ensures State(schema, n, o, ops).Some?
  {
    if ops != [] {
      FrontPart(ops, n);
      StaysThere(schema, n, o, ops[..|ops| - 1]);
      LastStep(schema, n, o, Alive, ops);
    }
  }

  lemma DeletesBehind(a: seq<Op>, b: seq<Op>, n: nat)
    requires Deletes(b, n)
    ensures Deletes(a + b, n)
  {
    var i :| 0 <= i < |b| && b[i] == Delete(n);
    assert (a + b)[|a| + i] == Delete(n);
  }

  /** Past and future of the transaction that record `y` holds. */
  lemma Histories(s: Sys, y: nat, w: nat)
    requires s.written <= |s.txs| && TxsOf(s.file) == s.txs[..s.written]
    requires y < |s.file| && s.file[y].TxOf? && w == |TxsOf(s.file[..y])|
    ensures w < |s.txs| && TxsOf(s.file[..y]) == s.txs[..w] && s.txs[w] == s.file[y].ops
    ensures TxsOf(s.file[..y + 1]) == s.txs[..w] + [s.txs[w]]
    ensures Ops(s.txs[..w + 1]) == Ops(s.txs[..w]) + s.txs[w]
  {
    TxsBefore(s, y);
    TxsBefore(s, y + 1);
    assert s.file[..y + 1][..y] == s.file[..y];
    assert s.txs[..w + 1] == s.txs[..w] + [s.txs[w]];
    assert (s.txs[..w] + [s.txs[w]])[..w] == s.txs[..w];
  }

  /** The creation at position `i` of a transaction comes upon nothing but a dumped node. */
  lemma CreationMeets(schema: Schema, n: nat, o: Option<NodeRec>, past: seq<Op>, ops: seq<Op>, i: nat)
    requires i < |ops| && ops[i].Create? && ops[i].newId == n
    requires !Life(schema, n, Start(o), past + ops).Wrong?
    ensures !Creates(past + ops[..i], n) && !Deletes(past + ops[..i], n) && ops[i].ty < |schema|
  {
    assert past + ops == past + ops[..i] + [ops[i]] + ops[i + 1..];
    SoundPart(schema, n, Start(o), past + ops[..i] + [ops[i]], ops[i + 1..]);
    UnbornBefore(schema, n, o, past + ops[..i], ops[i]);
  }

  lemma OpsOfParts(file: seq<FileRec>, x: nat)
    requires x <= |file|
    ensures Ops(TxsOf(file)) == Ops(TxsOf(file[..x])) + Ops(TxsOf(file[x..]))
  {
    assert file == file[..x] + file[x..];
    OpsOfSum(file[..x], file[x..]);
  }

  lemma OpsOfSum(a: seq<FileRec>, b: seq<FileRec>)
    ensures Ops(TxsOf(a + b)) == Ops(TxsOf(a)) + Ops(TxsOf(b))
  {
    TxsConcat(a, b);
    OpsConcat(TxsOf(a), TxsOf(b));
  }

  lemma DeletesInside(early: seq<Op>, since: seq<Op>, part: seq<Op>, n: nat)
    requires !Deletes(early + since + part, n)
    ensures !Deletes(since + part, n)
  {
    if Deletes(since + part, n) {
      DeletesBehind(early, since + part, n);
      Assoc(early, since, part);
    }
  }

  lemma DumpedStands(schema: Schema, n: nat, file: seq<FileRec>, x: nat, part: seq<Op>)
    requires LoadNew(schema, file).Some? && x < |file| && file[x].DumpOf? && file[x].id == n
    requires !DumpedIn(file[x + 1..], n) && !Deletes(Ops(TxsOf(file)) + part, n)
    ensures n in ApplyAll(schema, LoadNew(schema, file).value, part).nodes
  {
    var c, since := file[x].node, Ops(TxsOf(file[x + 1..]));
    OpsOfParts(file, x + 1);
    DeletesInside(Ops(TxsOf(file[..x + 1])), since, part, n);
    LoadedDumped(schema, file, x, n);
    ApplyAllAt(schema, LoadNew(schema, file).value, part, n);
    Joined(schema, n, Some(c), Alive, since, part);
    StaysThere(schema, n, Some(c), since + part);
  }

  lemma UndumpedIsNot(schema: Schema, n: nat, file: seq<FileRec>, part: seq<Op>)
    requires LoadNew(schema, file).Some? && !DumpedIn(file, n) && !Creates(Ops(TxsOf(file)) + part, n)
    ensures n !in ApplyAll(schema, LoadNew(schema, file).value, part).nodes
  {
    LoadedUndumped(schema, file, n);
    ApplyAllAt(schema, LoadNew(schema, file).value, part, n);
    Joined(schema, n, None, Unborn, Ops(TxsOf(file)), part);
    NoBirth(schema, n, Ops(TxsOf(file)) + part);
  }

  /** The node a creation would give stands already exactly when it was dumped. */
  lemma SkipsIff(schema: Schema, s: Sys, y: nat, front: seq<FileRec>, ops: seq<Op>, i: nat)
    requires Inv(schema, s) && y < |s.file| && front == s.file[..y] && s.file[y] == TxOf(ops)
    requires i < |ops| && ops[i].Create? && LoadNew(schema, front).Some?
    ensures Skips(schema, LoadNew(schema, front).value, ops, i) <==> DumpedIn(front, ops[i].newId)
    ensures ops[i].ty < |schema|
  {
    var n, w := ops[i].newId, |TxsOf(front)|;
    Histories(s, y, w);
    LegalPart(schema, s, w + 1, n);
    CreationMeets(schema, n, At(s.base, n), Ops(s.txs[..w]), ops, i);
    if DumpedIn(front, n) {
      var x :| 0 <= x < |front| && front[x].DumpOf? && front[x].id == n;
      OnlyDumpFront(schema, s, x, y);
      DumpedStands(schema, n, front, x, ops[..i]);
    } else {
      UndumpedIsNot(schema, n, front, ops[..i]);
    }
  }

  lemma OnlyDumpFront(schema: Schema, s: Sys, x: nat, y: nat)
    requires Inv(schema, s) && x < y <= |s.file| && s.file[x].DumpOf?
    ensures !DumpedIn(s.file[..y][x + 1..], s.file[x].id)
  {
    OnlyDump(schema, s, x);
    var after := s.file[..y][x + 1..];
    forall z | 0 <= z < |after| && after[z].DumpOf? ensures after[z].id != s.file[x].id {
      assert after[z] == s.file[x + 1..][z];
    }
  }

  lemma CreatesPart(past: seq<Op>, ops: seq<Op>, n: nat)
    ensures Creates(past + ops, n) <==> Creates(past, n) || exists i :: 0 <= i < |ops| && ops[i].Create? && ops[i].newId == n
  {
    if Creates(past, n) {
      var i :| 0 <= i < |past| && past[i].Create? && past[i].newId == n;
      assert (past + ops)[i] == past[i];
    }
    if i :| 0 <= i < |ops| && ops[i].Create? && ops[i].newId == n {
      assert (past + ops)[|past| + i] == ops[i];
    }
  }

  lemma StraysStep(schema: Schema, db: Db, front: seq<FileRec>, ops: seq<Op>)
    requires KnownTypes(schema, ops) && TxsOf(front + [TxOf(ops)]) == TxsOf(front) + [ops]
    requires forall i :: 0 <= i < |ops| && ops[i].Create? ==>
               (Skips(schema, db, ops, i) <==> DumpedIn(front, ops[i].newId))
    requires db.strays == [] <==> NoneCreated(front)
    ensures ApplyAll(schema, db, ops).strays == [] <==> NoneCreated(front + [TxOf(ops)])
  {
    StraysOf(schema, db, ops);
    CreatedMore(front, ops);
  }

  lemma TxMore(front: seq<FileRec>, ops: seq<Op>)
    ensures TxsOf(front + [TxOf(ops)]) == TxsOf(front) + [ops]
  {
    assert (front + [TxOf(ops)])[..|front|] == front;
  }

  /** One transaction more in the file. */
  lemma StraysTx(schema: Schema, s: Sys, y: nat, front: seq<FileRec>, ops: seq<Op>)
    requires Inv(schema, s) && y < |s.file| && front == s.file[..y] && s.file[y] == TxOf(ops)
    requires LoadNew(schema, front).Some? && (LoadNew(schema, front).value.strays == [] <==> NoneCreated(front))
    ensures ApplyAll(schema, LoadNew(schema, front).value, ops).strays == [] <==> NoneCreated(front + [TxOf(ops)])
  {
    var db := LoadNew(schema, front).value;
    forall i | 0 <= i < |ops| && ops[i].Create?
      ensures ops[i].ty < |schema| && (Skips(schema, db, ops, i) <==> DumpedIn(front, ops[i].newId))
    {
      SkipsIff(schema, s, y, front, ops, i);
    }
    TxMore(front, ops);
    StraysStep(schema, db, front, ops);
  }

  lemma CreatedMore(front: seq<FileRec>, ops: seq<Op>)
    requires TxsOf(front + [TxOf(ops)]) == TxsOf(front) + [ops]
    ensures NoneCreated(front + [TxOf(ops)]) <==>
            NoneCreated(front) && forall i :: 0 <= i < |ops| && ops[i].Create? ==> !DumpedIn(front, ops[i].newId)
  {
    var file := front + [TxOf(ops)];
    OpsConcat(TxsOf(front), [ops]);
    assert Ops([ops]) == ops by {
      assert [ops][..0] == [] && Ops([]) == [] && [] + ops == ops;
    }
    forall n: nat
      ensures Creates(Ops(TxsOf(file)), n) <==>
              Creates(Ops(TxsOf(front)), n) || exists i :: 0 <= i < |ops| && ops[i].Create? && ops[i].newId == n
    {
      CreatesPart(Ops(TxsOf(front)), ops, n);
    }
    assert forall x :: 0 <= x < |front| ==> file[x] == front[x];
  }

  /** A dump record more, in a file that can be loaded. */
  lemma StraysDump(front: seq<FileRec>, rec: FileRec)
    requires rec.DumpOf? && !Creates(Ops(TxsOf(front)), rec.id)
    ensures NoneCreated(front + [rec]) <==> NoneCreated(front)
  {
    var file := front + [rec];
    assert file[..|front|] == front;
    assert forall x :: 0 <= x < |front| ==> file[x] == front[x];
  }

  lemma {:induction false} StraysPrefix(schema: Schema, s: Sys, y: nat, file: seq<FileRec>)
    requires Inv(schema, s) && y <= |s.file| && file == s.file[..y] && LoadNew(schema, file).Some?
    ensures LoadNew(schema, file).value.strays == [] <==> NoneCreated(file)
  {
    if y > 0 {
      var front, rec := s.file[..y - 1], s.file[y - 1];
      LastOf(s.file, y);
      assert file[..|file| - 1] == front;
      StraysPrefix(schema, s, y - 1, front);
      if rec.TxOf? {
        StraysTx(schema, s, y - 1, front, rec.ops);
      } else {
        FoundBehind(schema, s, y - 1, front, rec);
        StraysDump(front, rec);
      }
    }
  }

  /** Loading a new file leaves no strays if and only if none of the dumped nodes is created by
      the transactions of the file. */
  lemma StraysIff(schema: Schema, run: seq<Sys>, steps: seq<Step>, i: nat)
    requires Run(schema, run, steps) && i < |run| && run[0].base.strays == [] && LoadNew(schema, run[i].file).Some?
    ensures LoadNew(schema, run[i].file).value.strays == [] <==> NoneCreated(run[i].file)
  {
    RunInv(schema, run, steps, i);
    assert run[i].file[..|run[i].file|] == run[i].file;
    StraysPrefix(schema, run[i], |run[i].file|, run[i].file);
  }

  // ----- two dumps, one after the other

  const TYPES: Schema := [[]]
  const BORN: seq<Op> := [Create(0, 2)]
  const NODE := NodeRec(0, [])

  lemma OneTx(ops: seq<Op>)
    ensures Ops([ops]) == ops
  {
    assert [ops][..0] == [] && Ops([]) == [] && [] + ops == ops;
  }

  lemma BornAlone(n: nat)
    ensures Life(TYPES, n, Unborn, BORN) == if n == 2 then Alive else Unborn
    ensures Kept(TYPES, n, None, BORN) == if n == 2 then Some(NODE) else None
  {
    LastStep(TYPES, n, None, Unborn, BORN);
    assert BORN[..0] == [] && InitAttrs([]) == [];
  }

  /** A process with an empty database in which one node was created. */
  const ONE_NODE := Sys(Db(map[], 1, false, []), [BORN], 0, [], [], {}, {}, false)

  lemma OneCommit() returns (run: seq<Sys>, steps: seq<Step>)
    ensures Run(TYPES, run, steps) && |steps| == 1 && run[0].base == ONE_NODE.base && run[1] == ONE_NODE
  {
    var s := ONE_NODE.(txs := []);
    run, steps := [s], [];
    OneTx(BORN);
    forall n: nat ensures !Life(TYPES, n, Start(At(s.base, n)), Ops([] + [BORN])).Wrong? {
      BornAlone(n);
      assert [] + [BORN] == [BORN];
    }
    Extend(TYPES, run, steps, Step.Commit(BORN));
    run, steps := run + [ONE_NODE], steps + [Step.Commit(BORN)];
  }

  /** The dump may show the node. */
  lemma CreatedContent(s: Sys)
    requires s.base == ONE_NODE.base && s.txs == [BORN]
    ensures ContentAfter(TYPES, s, 2, 1) == Some(NODE)
    ensures s.written == 0 ==> !Gone(s, 2)
    ensures s.written == 1 ==> !Gone(s, 2)
  {
    BornAlone(2);
    OneTx(BORN);
    assert s.txs[..1] == [BORN] && s.txs[..0] == [] && Ops([]) == [];
  }

  /** A node is created; the dump shows it before its creation is written. */
  lemma FirstDump() returns (run: seq<Sys>, steps: seq<Step>)
    ensures Run(TYPES, run, steps) && run[0].base == Db(map[], 1, false, []) && Complete(run[|steps|])
    ensures run[|steps|].file == [DumpOf(2, NODE), TxOf(BORN)]
  {
    run, steps := OneCommit();
    var s := ONE_NODE;
    CreatedContent(s);
    Extend(TYPES, run, steps, DumpNode(2, 1));
    s := Do(TYPES, s, DumpNode(2, 1));
    run, steps := run + [s], steps + [DumpNode(2, 1)];
    Extend(TYPES, run, steps, Step.Finish);
    s := Do(TYPES, s, Step.Finish);
    run, steps := run + [s], steps + [Step.Finish];
    Extend(TYPES, run, steps, WriteTx);
    s := Do(TYPES, s, WriteTx);
    run, steps := run + [s], steps + [WriteTx];
    assert s.file == [DumpOf(2, NODE), TxOf(BORN)];
    assert s.file[..0] == [] && TxsOf([]) == [];
    assert Complete(s);
  }

  // ----- a creation in front of its node's dump record

  lemma LateDump() returns (run: seq<Sys>, steps: seq<Step>)
    ensures Run(TYPES, run, steps) && run[0].base == ONE_NODE.base
    ensures var s := run[|steps|]; s.finished && s.written == 1 && s.seen == [0, 1] && s.file == [TxOf(BORN), DumpOf(2, NODE)]
  {
    run, steps := OneCommit();
    var s := ONE_NODE;
    Extend(TYPES, run, steps, WriteTx);
    s := Do(TYPES, s, WriteTx);
    run, steps := run + [s], steps + [WriteTx];
    CreatedContent(s);
    Extend(TYPES, run, steps, DumpNode(2, 1));
    s := Do(TYPES, s, DumpNode(2, 1));
    run, steps := run + [s], steps + [DumpNode(2, 1)];
    assert s.file == [TxOf(BORN), DumpOf(2, NODE)] && s.seen == [0, 1];
    Extend(TYPES, run, steps, Step.Finish);
    s := Do(TYPES, s, Step.Finish);
    run, steps := run + [s], steps + [Step.Finish];
  }

  lemma LateFile()
    ensures LoadNew(TYPES, [TxOf(BORN), DumpOf(2, NODE)]) == None && !DumpsFirst([TxOf(BORN), DumpOf(2, NODE)])
  {
    var file := [TxOf(BORN), DumpOf(2, NODE)];
    assert file[..1] == [TxOf(BORN)] && file[..1][..0] == [] && BORN[1..] == [];
    OneTx(BORN);
    assert TxsOf(file[..1]) == [] + [BORN] == [BORN];
    assert BORN[0].Create? && BORN[0].newId == 2 && Creates(BORN, 2);
    assert file[1].DumpOf?;
  }

  /** From an empty database: a node is created and its creation written; then the dump shows
      the node.  The dump is finished, all it shows is in the file, and the file cannot be
      loaded. */
  lemma CreationFirstFails()
    ensures exists s ::
      && ReachedFrom(TYPES, Db(map[], 1, false, []), s)
      && s.finished && AllSeenWritten(s) && !DumpsFirst(s.file) && LoadNew(TYPES, s.file) == None
  {
    var run, steps := LateDump();
    LateFile();
    assert AllSeenWritten(run[|steps|]);
    assert ReachedFrom(TYPES, ONE_NODE.base, run[|steps|]);
  }

  ghost predicate ReachedFrom(schema: Schema, base: Db, s: Sys) {
    exists run: seq<Sys>, steps: seq<Step> :: Run(schema, run, steps) && run[0].base == base && run[|steps|] == s
  }

  /** What a process has that was started from that file. */
  lemma FirstLoaded()
    ensures LoadNew(TYPES, [DumpOf(2, NODE), TxOf(BORN)]) == Some(Db(map[2 := NODE], 2, true, [Stray(0, 2)]))
  {
    var file := [DumpOf(2, NODE), TxOf(BORN)];
    assert file[..1] == [DumpOf(2, NODE)] && file[..1][..0] == [];
    var db := Db(map[2 := NODE], 2, true, []);
    assert LoadNew(TYPES, file[..1]) == Some(db);
    assert BORN[1..] == [] && [] + [Stray(0, 2)] == [Stray(0, 2)];
    assert ApplyAll(TYPES, db, BORN) == Apply(TYPES, db, BORN[0]);
  }

  /** The next dump of that process. */
  lemma SecondDump(base: Db) returns (run: seq<Sys>, steps: seq<Step>)
    requires base == Db(map[2 := NODE], 2, true, [Stray(0, 2)])
    ensures Run(TYPES, run, steps) && run[0].base == base && Complete(run[|steps|])
    ensures run[|steps|].file == [DumpOf(2, NODE), DumpOf(2, NODE)]
  {
    var s := Sys(base, [], 0, [], [], {}, {}, false);
    run, steps := [s], [];
    QuietNode(TYPES, base, s, 2, 0);
    assert s.txs[..0] == [] && Ops([]) == [];
    Extend(TYPES, run, steps, DumpNode(2, 0));
    s := Do(TYPES, s, DumpNode(2, 0));
    run, steps := run + [s], steps + [DumpNode(2, 0)];
    QuietStray(TYPES, base, s, 0, 1);
    Extend(TYPES, run, steps, DumpStray(0, []));
    s := Do(TYPES, s, DumpStray(0, []));
    run, steps := run + [s], steps + [DumpStray(0, [])];
    Extend(TYPES, run, steps, Step.Finish);
    s := Do(TYPES, s, Step.Finish);
    run, steps := run + [s], steps + [Step.Finish];
    QuietComplete(TYPES, base, s, 2);
  }

  lemma DumpedTwice()
    ensures LoadNew(TYPES, [DumpOf(2, NODE), DumpOf(2, NODE)]) == None
  {
    var file := [DumpOf(2, NODE), DumpOf(2, NODE)];
    assert file[..1] == [DumpOf(2, NODE)] && file[..1][..0] == [];
  }

  /** A complete dump of a process that was loaded from the given file. */
  ghost predicate DumpOfLoaded(schema: Schema, loaded: Option<Db>, s: Sys) {
    Complete(s) && loaded == Some(s.base) && exists run, steps :: Run(schema, run, steps) && run[|steps|] == s
  }

  lemma {:induction false} BaseStays(schema: Schema, run: seq<Sys>, steps: seq<Step>, i: nat)
    requires Run(schema, run, steps) && i < |run|
    ensures run[i].base == run[0].base
  {
    if i > 0 {
      BaseStays(schema, run, steps, i - 1);
      assert Stepped(schema, run, steps, i - 1);
    }
  }

  /** A first dump that suffices, and a second one, of a process started from its file, that
      cannot be loaded, although no creation is in front of a dump record. */
  lemma SecondDumpFails()
    ensures exists s, s' ::
      && DumpOfLoaded(TYPES, Some(Db(map[], 1, false, [])), s) && Suffices(TYPES, s)
      && DumpOfLoaded(TYPES, LoadNew(TYPES, s.file), s') && LoadNew(TYPES, s'.file) == None
  {
    var run, steps := FirstDump();
    NewFileSuffices(TYPES, run, steps, |steps|);
    BaseStays(TYPES, run, steps, |steps|);
    FirstLoaded();
    var base := Db(map[2 := NODE], 2, true, [Stray(0, 2)]);
    var run', steps' := SecondDump(base);
    BaseStays(TYPES, run', steps', |steps'|);
    DumpedTwice();
    assert DumpOfLoaded(TYPES, Some(run[0].base), run[|steps|]);
    assert DumpOfLoaded(TYPES, Some(base), run'[|steps'|]);
  }
}
