/** What a sequence of node operations leaves of a node whose creation is the first of them. */
module Images {
  import opened StorageFormat
  import opened DataRecords
  import opened FuzzyDump

  function IdOf(op: Op): nat {
    match op
    case Modify(id, _, _) => id
    case Create(_, id) => id
    case Delete(id) => id
  }

  predicate Concerns(ops: seq<Op>, n: nat) {
    exists i :: 0 <= i < |ops| && IdOf(ops[i]) == n
  }

  predicate CreatedFirst(schema: Schema, ops: seq<Op>, n: nat) {
    forall j :: 0 <= j < |ops| && ops[j].Create? && ops[j].newId == n ==> ops[j].ty < |schema| && !Concerns(ops[..j], n)
  }

  /** What the last operation to set an attribute stored. */
  function Latest(ops: seq<Op>, n: nat, a: nat): Option<Value> {
    if ops == [] then None
    else
      var op := ops[|ops| - 1];
      if op.Modify? && op.id == n && op.attr == a then Some(op.value) else Latest(ops[..|ops| - 1], n, a)
  }

  /** A node of type `ty` shows these operations: each attribute its last value, or the initial one. */
  ghost predicate Shows(schema: Schema, x: NodeRec, ops: seq<Op>, n: nat) {
    && x.ty < |schema| && |x.attrs| == |schema[x.ty]| && Op.Create(x.ty, n) in ops
    && forall a :: 0 <= a < |x.attrs| ==>
         x.attrs[a] == match Latest(ops, n, a) case None => InitValue(schema[x.ty][a]) case Some(v) => v
  }

  lemma FirstFront(schema: Schema, ops: seq<Op>, n: nat)
    requires ops != [] && CreatedFirst(schema, ops, n)
    ensures CreatedFirst(schema, ops[..|ops| - 1], n)
  {
    var front := ops[..|ops| - 1];
    forall j | 0 <= j < |front| && front[j].Create? && front[j].newId == n
      ensures front[j].ty < |schema| && !Concerns(front[..j], n)
    {
      assert ops[j] == front[j] && front[..j] == ops[..j];
    }
  }

  lemma {:induction false} NothingLatest(ops: seq<Op>, n: nat, a: nat)
    requires !Concerns(ops, n)
    ensures Latest(ops, n, a) == None && !Creates(ops, n) && !Deletes(ops, n)
  {
    if ops != [] {
      var front := ops[..|ops| - 1];
      assert IdOf(ops[|ops| - 1]) != n;
      forall i | 0 <= i < |front| ensures IdOf(front[i]) != n {
        assert front[i] == ops[i];
      }
      NothingLatest(front, n, a);
      FrontPart(ops, n);
    }
  }

  lemma ShowsStep(schema: Schema, n: nat, x: NodeRec, front: seq<Op>, op: Op)
    requires Shows(schema, x, front, n) && op != Delete(n) && !(op.Create? && op.newId == n)
    ensures var y := Effect(schema, n, Some(x), op);
      y.Some? && Shows(schema, y.value, front + [op], n)
  {
    assert (front + [op])[..|front|] == front;
  }

  lemma ShowsNew(schema: Schema, n: nat, ty: nat, front: seq<Op>)
    requires ty < |schema| && !Concerns(front, n)
    ensures Shows(schema, NodeRec(ty, InitAttrs(schema[ty])), front + [Create(ty, n)], n)
  {
    var ops := front + [Create(ty, n)];
    assert ops[..|front|] == front;
    forall a: nat ensures Latest(ops, n, a) == None {
      NothingLatest(front, n, a);
    }
  }

  /** The node is there when it was created and not deleted, and it shows what was set. */
  lemma {:induction false} Image(schema: Schema, n: nat, ops: seq<Op>)
    requires CreatedFirst(schema, ops, n)
    ensures State(schema, n, None, ops).Some? <==> Creates(ops, n) && !Deletes(ops, n)
    ensures State(schema, n, None, ops).Some? ==> Shows(schema, State(schema, n, None, ops).value, ops, n)
  {
    if ops != [] {
      var front, op := ops[..|ops| - 1], ops[|ops| - 1];
      assert ops == front + [op];
      FirstFront(schema, ops, n);
      Image(schema, n, front);
      FrontPart(ops, n);
      LastStep(schema, n, None, Unborn, ops);
      if op.Create? && op.newId == n {
        NothingLatest(front, n, 0);
        ShowsNew(schema, n, op.ty, front);
      } else if op != Delete(n) && State(schema, n, None, front).Some? {
        ShowsStep(schema, n, State(schema, n, None, front).value, front, op);
      }
    }
  }

  /** The content outlives the deletion. */
  lemma {:induction false} ContentImage(schema: Schema, n: nat, ops: seq<Op>)
    requires CreatedFirst(schema, ops, n)
    ensures Kept(schema, n, None, ops).Some? <==> Creates(ops, n)
    ensures Kept(schema, n, None, ops).Some? ==> Shows(schema, Kept(schema, n, None, ops).value, ops, n)
  {
    if ops != [] {
      var front, op := ops[..|ops| - 1], ops[|ops| - 1];
      assert ops == front + [op];
      FirstFront(schema, ops, n);
      ContentImage(schema, n, front);
      FrontPart(ops, n);
      LastStep(schema, n, None, Unborn, ops);
      if op.Create? && op.newId == n {
        NothingLatest(front, n, 0);
        ShowsNew(schema, n, op.ty, front);
      } else if Kept(schema, n, None, front).Some? {
        if op == Delete(n) {
          assert ops[..|front|] == front;
        } else {
          ShowsStep(schema, n, Kept(schema, n, None, front).value, front, op);
        }
      }
    }
  }

  // ----- two sequences, one behind the other

  lemma ConcernsJoined(s: seq<Op>, t: seq<Op>, n: nat)
    ensures Concerns(s + t, n) <==> Concerns(s, n) || Concerns(t, n)
  {
    if Concerns(s, n) {
      var i :| 0 <= i < |s| && IdOf(s[i]) == n;
      assert (s + t)[i] == s[i];
    }
    if Concerns(t, n) {
      var i :| 0 <= i < |t| && IdOf(t[i]) == n;
      assert (s + t)[|s| + i] == t[i];
    }
  }

  lemma CreatedJoined(schema: Schema, s: seq<Op>, t: seq<Op>, n: nat)
    requires CreatedFirst(schema, s, n) && CreatedFirst(schema, t, n)
    requires Creates(t, n) ==> !Concerns(s, n)
    ensures CreatedFirst(schema, s + t, n)
  {
    forall j | 0 <= j < |s + t| && (s + t)[j].Create? && (s + t)[j].newId == n
      ensures (s + t)[j].ty < |schema| && !Concerns((s + t)[..j], n)
    {
      if j < |s| {
        assert (s + t)[..j] == s[..j];
      } else {
        assert t[j - |s|].Create? && t[j - |s|].newId == n;
        assert (s + t)[..j] == s + t[..j - |s|];
        ConcernsJoined(s, t[..j - |s|], n);
      }
    }
  }

  lemma {:induction false} LatestJoined(s: seq<Op>, t: seq<Op>, n: nat, a: nat)
    ensures Latest(s + t, n, a) == if Latest(t, n, a).Some? then Latest(t, n, a) else Latest(s, n, a)
  {
    if t == [] {
      assert s + t == s;
    } else {
      assert (s + t)[..|s + t| - 1] == s + t[..|t| - 1];
      LatestJoined(s, t[..|t| - 1], n, a);
    }
  }

  lemma {:induction false} LivesJoined(s: seq<Op>, t: seq<Op>, n: nat)
    ensures Creates(s + t, n) <==> Creates(s, n) || Creates(t, n)
    ensures Deletes(s + t, n) <==> Deletes(s, n) || Deletes(t, n)
  {
    if t == [] {
      assert s + t == s;
    } else {
      assert (s + t)[..|s + t| - 1] == s + t[..|t| - 1];
      FrontPart(s + t, n);
      FrontPart(t, n);
      LivesJoined(s, t[..|t| - 1], n);
    }
  }
}
