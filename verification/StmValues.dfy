/** How committed values react to appending to the history and to deciding a record. */
module StmValues {
  import opened StmModel
  import opened StmInvariant

  lemma ApplyPush(log: seq<LogItem>, item: LogItem, loc: Loc, before: int)
    ensures ApplyAt(log + [item], loc, before)
         == if item.Wrote? && item.loc == loc then item.newVal else ApplyAt(log, loc, before)
  {
    assert DropLast(log + [item]) == log;
  }

  lemma {:induction false} ApplyUntouched(log: seq<LogItem>, loc: Loc, before: int)
    requires !Touches(log, loc.obj)
    ensures ApplyAt(log, loc, before) == before
  {
    if log != [] {
      assert Last(log).Obj() != loc.obj;
      forall i | 0 <= i < |DropLast(log)| ensures DropLast(log)[i].Obj() != loc.obj {
        assert log[i].Obj() != loc.obj;
      }
      ApplyUntouched(DropLast(log), loc, before);
    }
  }

  lemma {:induction false} ApplyAgain(log: seq<LogItem>, loc: Loc, before: int)
    ensures ApplyAt(log, loc, ApplyAt(log, loc, before)) == ApplyAt(log, loc, before)
  {
    if log != [] {
      ApplyAgain(DropLast(log), loc, before);
    }
  }

  lemma {:induction false} ValueSkip(init: Memory, hist: seq<Rec>, i: nat, j: nat, loc: Loc)
    requires i <= j <= |hist|
    requires forall k :: i <= k < j && hist[k].status.Committed? ==> !Touches(hist[k].log, loc.obj)
    ensures ValueAt(init, hist, i, loc) == ValueAt(init, hist, j, loc)
  {
    if i < j {
      ValueSkip(init, hist, i, j - 1, loc);
      if hist[j - 1].status.Committed? {
        ApplyUntouched(hist[j - 1].log, loc, ValueAt(init, hist, j - 1, loc));
      }
    }
  }

  lemma {:induction false} ValueAppend(init: Memory, hist: seq<Rec>, r: Rec, k: nat, loc: Loc)
    requires k <= |hist|
    ensures ValueAt(init, hist + [r], k, loc) == ValueAt(init, hist, k, loc)
  {
    if k > 0 {
      ValueAppend(init, hist, r, k - 1, loc);
    }
  }

  /** Deciding record `i` leaves every value below `i`, and every object it does not touch. */
  lemma {:induction false} ValueDecide(init: Memory, hist: seq<Rec>, i: nat, status: Status, k: nat, loc: Loc)
    requires i < |hist| && hist[i].status.Pending? && k <= |hist|
    requires k <= i || status.Rejected? || !Touches(hist[i].log, loc.obj)
    ensures ValueAt(init, SetStatus(hist, i, status), k, loc) == ValueAt(init, hist, k, loc)
  {
    if k > 0 {
      ValueDecide(init, hist, i, status, k - 1, loc);
      if k - 1 == i && !status.Rejected? {
        ApplyUntouched(hist[i].log, loc, ValueAt(init, hist, k - 1, loc));
      }
    }
  }

  /** Committing the newest writer of an object applies its log to the committed value. */
  lemma ValueCommit(init: Memory, hist: seq<Rec>, i: nat, loc: Loc)
    requires i < |hist| && hist[i].status.Pending?
    requires forall k :: i < k < |hist| && hist[k].status.Committed? ==> !Touches(hist[k].log, loc.obj)
    ensures ValueAt(init, SetStatus(hist, i, Committed), |hist|, loc)
         == ApplyAt(hist[i].log, loc, ValueAt(init, hist, |hist|, loc))
  {
    var hist' := SetStatus(hist, i, Committed);
    ValueSkip(init, hist', i + 1, |hist|, loc);
    ValueSkip(init, hist, i + 1, |hist|, loc);
    ValueDecide(init, hist, i, Committed, i, loc);
  }
}
