/** What a commit record holds, said by the steps of its transaction.

    The theorems about the step system speak of records: the values that were read and the
    items that were logged.  Here a record is compared with what its handle did.  Reads and
    writes are gathered in one frame per open transaction; a nested commit joins a frame with
    the one around it, and a nested abort drops one. */
module Bodies {
  import opened StmModel
  import opened StmInvariant
  import opened StmShape
  import opened Progress

  datatype Got = Got(loc: Loc, val: int)

  datatype Act = Stored(loc: Loc, val: int) | Marked(obj: nat, note: Note)

  datatype Frame = Frame(got: seq<Got>, acts: seq<Act>)

  const EMPTY := Frame([], [])

  function Join(f: Frame, g: Frame): Frame {
    Frame(f.got + g.got, f.acts + g.acts)
  }

  /** More happens in the innermost transaction. */
  function Grow(frames: seq<Frame>, f: Frame): seq<Frame> {
    if frames == [] then [] else DropLast(frames) + [Join(Last(frames), f)]
  }

  function Flat(frames: seq<Frame>): Frame {
    if frames == [] then EMPTY else Join(Flat(DropLast(frames)), Last(frames))
  }

  /** What a step of the handle adds.  A read gets the value that is in memory. */
  ghost function Follow(frames: seq<Frame>, s: State, step: Step): seq<Frame> {
    match step
    case Begin(_) => [EMPTY]
    case NestedBegin(_) => frames + [EMPTY]
    case NestedCommit(_) => if |frames| < 2 then frames else Grow(DropLast(frames), Last(frames))
    case NestedAbort(_) => if |frames| < 2 then frames else DropLast(frames)
    case Load(_, loc) => Grow(frames, Frame([Got(loc, s.mem[loc])], []))
    case WriteStep(_, loc, val) => Grow(frames, Frame([], [Stored(loc, val)]))
    case Annotate(_, o, note) => Grow(frames, Frame([], [Marked(o, note)]))
    case _ => frames
  }

  /** What handle `h` has done, since it last began, in the first `n` steps. */
  ghost function Done(run: seq<State>, steps: seq<Step>, h: nat, n: nat): seq<Frame>
    requires |run| == |steps| + 1 && n <= |steps|
  {
    if n == 0 then []
    else
      var frames := Done(run, steps, h, n - 1);
      if HandleStep(steps[n - 1]) && steps[n - 1].h == h then Follow(frames, run[n - 1], steps[n - 1]) else frames
  }

  // ----- the same, by what the handle holds

  function Gots(evs: seq<ReadEv>): seq<Got> {
    seq(|evs|, i requires 0 <= i < |evs| => Got(evs[i].loc, evs[i].val))
  }

  function ActOf(item: LogItem): Act {
    match item case Wrote(loc, _, val) => Stored(loc, val) case Noted(o, note) => Marked(o, note)
  }

  function Acts(log: seq<LogItem>): seq<Act> {
    seq(|log|, i requires 0 <= i < |log| => ActOf(log[i]))
  }

  /** A bookmark counts what came before its transaction. */
  predicate MarkOk(marks: seq<Mark>, frames: seq<Frame>, i: nat) {
    i < |marks| && i < |frames|
    && marks[i] == Mark(|Flat(frames[..i + 1]).got|, |Flat(frames[..i + 1]).acts|)
  }

  /** The transaction is not being rolled back as a whole, and not decided. */
  predicate Going(pc: Pc) {
    pc.Running? || pc.Loaded? || pc.Locking? || pc.Failed? || pc.UndoNested?
  }

  ghost predicate LogTells(hd: Handle, acts: seq<Act>) {
    acts <= Acts(hd.log) && (!hd.pc.UndoNested? ==> acts == Acts(hd.log))
  }

  ghost predicate Tells(hd: Handle, frames: seq<Frame>) {
    && |frames| == |hd.marks| + (if hd.pc.UndoNested? then 0 else 1) && frames != []
    && (forall i :: 0 <= i < |hd.marks| ==> MarkOk(hd.marks, frames, i))
    && Gots(hd.readSet) == Flat(frames).got
    && LogTells(hd, Flat(frames).acts)
  }

  lemma FlatGrow(frames: seq<Frame>, f: Frame)
    requires frames != []
    ensures Flat(Grow(frames, f)) == Join(Flat(frames), f)
  {
    assert DropLast(Grow(frames, f)) == DropLast(frames);
    JoinAssoc(Flat(DropLast(frames)), Last(frames), f);
  }

  lemma JoinAssoc(f: Frame, g: Frame, k: Frame)
    ensures Join(Join(f, g), k) == Join(f, Join(g, k))
  {
    assert (f.got + g.got) + k.got == f.got + (g.got + k.got);
    assert (f.acts + g.acts) + k.acts == f.acts + (g.acts + k.acts);
  }

  lemma JoinEmpty(f: Frame)
    ensures Join(f, EMPTY) == f && Join(EMPTY, f) == f
  {
    assert f.got + [] == f.got && f.acts + [] == f.acts && [] + f.got == f.got && [] + f.acts == f.acts;
  }

  lemma MarksStay(marks: seq<Mark>, frames: seq<Frame>, frames': seq<Frame>, n: nat)
    requires n <= |marks| && n <= |frames| && frames[..n] <= frames'
    requires forall i :: 0 <= i < n ==> MarkOk(marks, frames, i)
    ensures forall i :: 0 <= i < n ==> MarkOk(marks[..n], frames', i)
  {
    forall i | 0 <= i < n ensures MarkOk(marks[..n], frames', i) {
      assert MarkOk(marks, frames, i);
      assert frames'[..i + 1] == frames[..n][..i + 1] == frames[..i + 1];
    }
  }

  /** Something is read, written or noted. */
  lemma TellsMore(hd: Handle, hd': Handle, frames: seq<Frame>, f: Frame)
    requires Tells(hd, frames) && !hd.pc.UndoNested? && !hd'.pc.UndoNested? && hd'.marks == hd.marks
    requires Gots(hd'.readSet) == Gots(hd.readSet) + f.got && Acts(hd'.log) == Acts(hd.log) + f.acts
    ensures Tells(hd', Grow(frames, f))
  {
    FlatGrow(frames, f);
    var n := |hd.marks|;
    assert hd.marks[..n] == hd.marks;
    MarksStay(hd.marks, frames, Grow(frames, f), n);
  }

  lemma TellsLoad(s: State, h: nat, loc: Loc, frames: seq<Frame>)
    requires Enabled(s, Load(h, loc)) && Tells(s.handles[h], frames)
    ensures Tells(DoHandle(s, Load(h, loc)), Follow(frames, s, Load(h, loc)))
  {
    var hd, hd' := s.handles[h], DoHandle(s, Load(h, loc));
    assert Gots(hd'.readSet) == Gots(hd.readSet) + [Got(loc, s.mem[loc])];
    TellsMore(hd, hd', frames, Frame([Got(loc, s.mem[loc])], []));
  }

  lemma TellsAct(hd: Handle, hd': Handle, frames: seq<Frame>, item: LogItem)
    requires Tells(hd, frames) && hd.pc.Running? && hd' == hd.(log := hd.log + [item])
    ensures Tells(hd', Grow(frames, Frame([], [ActOf(item)])))
  {
    assert Acts(hd'.log) == Acts(hd.log) + [ActOf(item)];
    TellsMore(hd, hd', frames, Frame([], [ActOf(item)]));
  }

  lemma TellsWrite(s: State, h: nat, loc: Loc, val: int, frames: seq<Frame>)
    requires Enabled(s, WriteStep(h, loc, val)) && Tells(s.handles[h], frames)
    ensures Tells(DoHandle(s, WriteStep(h, loc, val)), Follow(frames, s, WriteStep(h, loc, val)))
  {
    TellsAct(s.handles[h], DoHandle(s, WriteStep(h, loc, val)), frames, Wrote(loc, s.mem[loc], val));
  }

  lemma TellsAnnotate(s: State, h: nat, o: nat, note: Note, frames: seq<Frame>)
    requires Enabled(s, Annotate(h, o, note)) && Tells(s.handles[h], frames)
    ensures Tells(DoHandle(s, Annotate(h, o, note)), Follow(frames, s, Annotate(h, o, note)))
  {
    TellsAct(s.handles[h], DoHandle(s, Annotate(h, o, note)), frames, Noted(o, note));
  }

  /** Tests of locks leave everything as it is. */
  lemma TellsTest(s: State, step: Step, frames: seq<Frame>)
    requires Enabled(s, step) && (step.Check? || step.ReadLock? || step.Cas?) && Tells(s.handles[step.h], frames)
    ensures Tells(DoHandle(s, step), Follow(frames, s, step))
  {
  }

  lemma TellsNestedBegin(s: State, h: nat, frames: seq<Frame>)
    requires Enabled(s, NestedBegin(h)) && Tells(s.handles[h], frames)
    ensures Tells(DoHandle(s, NestedBegin(h)), frames + [EMPTY])
  {
    var hd, hd' := s.handles[h], DoHandle(s, NestedBegin(h));
    var frames' := frames + [EMPTY];
    assert DropLast(frames') == frames;
    JoinEmpty(Flat(frames));
    var n := |hd.marks|;
    assert frames'[..n + 1] == frames && |Gots(hd.readSet)| == |hd.readSet| && |Acts(hd.log)| == |hd.log|;
    forall i | 0 <= i < |hd'.marks| ensures MarkOk(hd'.marks, frames', i) {
      if i < n {
        assert MarkOk(hd.marks, frames, i);
        assert frames'[..i + 1] == frames[..i + 1];
      }
    }
  }

  lemma TellsNestedCommit(s: State, h: nat, frames: seq<Frame>)
    requires Enabled(s, NestedCommit(h)) && Tells(s.handles[h], frames)
    ensures Tells(DoHandle(s, NestedCommit(h)), Grow(DropLast(frames), Last(frames)))
  {
    var hd := s.handles[h];
    FlatGrow(DropLast(frames), Last(frames));
    var n := |hd.marks| - 1;
    MarksStay(hd.marks, frames, Grow(DropLast(frames), Last(frames)), n);
  }

  lemma FlatLonger(frames: seq<Frame>)
    requires frames != []
    ensures Flat(DropLast(frames)).got <= Flat(frames).got && Flat(DropLast(frames)).acts <= Flat(frames).acts
  {
  }

  lemma TellsNestedAbort(s: State, h: nat, frames: seq<Frame>)
    requires Enabled(s, NestedAbort(h)) && Tells(s.handles[h], frames)
    ensures Tells(DoHandle(s, NestedAbort(h)), DropLast(frames))
  {
    var hd, hd' := s.handles[h], DoHandle(s, NestedAbort(h));
    var n, m := |hd.marks|, |hd.marks| - 1;
    assert MarkOk(hd.marks, frames, m);
    assert frames[..m + 1] == DropLast(frames);
    FlatLonger(frames);
    assert |Gots(hd.readSet)| == |hd.readSet|;
    assert Gots(hd'.readSet) == Gots(hd.readSet)[..Last(hd.marks).readSet];
    assert hd.marks[..n] == hd.marks;
    MarksStay(hd.marks, frames, DropLast(frames), n);
  }

  lemma TellsUndo(s: State, step: Step, frames: seq<Frame>)
    requires Enabled(s, step) && (step.UndoNestedItem? || step.NestedAborted?) && Tells(s.handles[step.h], frames)
    ensures Tells(DoHandle(s, step), frames)
  {
    var hd, hd' := s.handles[step.h], DoHandle(s, step);
    var m := |hd.marks| - 1;
    assert MarkOk(hd.marks, frames, m);
    assert frames[..m + 1] == frames && |Acts(hd.log)| == |hd.log|;
    if step.UndoNestedItem? {
      assert Acts(hd'.log) == DropLast(Acts(hd.log));
    } else {
      MarksStay(hd.marks, frames, frames, m);
    }
  }

  ghost predicate ToldBefore(s: State, step: Step, frames: seq<Frame>) {
    HandleStep(step) && step.h < |s.handles| && Tells(s.handles[step.h], frames)
  }

  ghost predicate ToldAfter(s: State, step: Step, frames: seq<Frame>)
    requires Enabled(s, step) && HandleStep(step)
  {
    Tells(DoHandle(s, step), Follow(frames, s, step))
  }

  lemma TellsNests(s: State, step: Step, frames: seq<Frame>)
    requires Nests(step) && Enabled(s, step) && ToldBefore(s, step, frames)
    ensures ToldAfter(s, step, frames)
  {
    match step
    case NestedBegin(h) => TellsNestedBegin(s, h, frames);
    case NestedCommit(h) => TellsNestedCommit(s, h, frames);
    case NestedAbort(h) => TellsNestedAbort(s, h, frames);
    case UndoNestedItem(_) => TellsUndo(s, step, frames);
    case NestedAborted(_) => TellsUndo(s, step, frames);
  }

  lemma TellsAccess(s: State, step: Step, frames: seq<Frame>)
    requires Accesses(step) && Enabled(s, step) && ToldBefore(s, step, frames)
    ensures ToldAfter(s, step, frames)
  {
    match step
    case Load(h, loc) => TellsLoad(s, h, loc, frames);
    case WriteStep(h, loc, val) => TellsWrite(s, h, loc, val, frames);
    case Annotate(h, o, note) => TellsAnnotate(s, h, o, note, frames);
    case _ => TellsTest(s, step, frames);
  }

  lemma TellsStep(s: State, step: Step, frames: seq<Frame>)
    requires Enabled(s, step) && HandleStep(step) && (Going(s.handles[step.h].pc) ==> Tells(s.handles[step.h], frames))
    requires Going(DoHandle(s, step).pc)
    ensures ToldAfter(s, step, frames)
  {
    if Nests(step) {
      TellsNests(s, step, frames);
    } else if Accesses(step) {
      TellsAccess(s, step, frames);
    } else {
      JoinEmpty(EMPTY);
    }
  }

  lemma StepTells(run: seq<State>, steps: seq<Step>, h: nat, n: nat, m: nat)
    requires Steps(run, steps) && n < |steps| && m == n + 1
    requires h < |run[n].handles| && (Going(run[n].handles[h].pc) ==> Tells(run[n].handles[h], Done(run, steps, h, n)))
    ensures h < |run[m].handles| && (Going(run[m].handles[h].pc) ==> Tells(run[m].handles[h], Done(run, steps, h, m)))
  {
    assert Stepped(run, steps, n);
    HandlesSame(run[n], steps[n]);
    if HandleStep(steps[n]) && steps[n].h == h && Going(run[m].handles[h].pc) {
      assert run[m].handles[h] == DoHandle(run[n], steps[n]);
      TellsStep(run[n], steps[n], Done(run, steps, h, n));
    }
  }

  /** The handle holds what it has done. */
  lemma {:induction false} HoldsDone(run: seq<State>, steps: seq<Step>, h: nat, n: nat)
    requires Steps(run, steps) && n < |run| && h < |run[0].handles|
    ensures h < |run[n].handles| && (Going(run[n].handles[h].pc) ==> Tells(run[n].handles[h], Done(run, steps, h, n)))
  {
    if n > 0 {
      HoldsDone(run, steps, h, n - 1);
      StepTells(run, steps, h, n - 1, n);
    }
  }

  // ----- records

  predicate Commits(step: Step) {
    step.CommitStamp? || step.CommitReadOnly?
  }

  lemma {:induction false} SameHandles(run: seq<State>, steps: seq<Step>, n: nat)
    requires Steps(run, steps) && n < |run|
    ensures |run[n].handles| == |run[0].handles|
  {
    if n > 0 {
      SameHandles(run, steps, n - 1);
      assert Stepped(run, steps, n - 1);
      HandlesSame(run[n - 1], steps[n - 1]);
    }
  }

  /** The record says what its owner did, all of it, in the order it was done. */
  ghost predicate SaysBody(rec: Rec, h: nat, start: nat, body: Frame) {
    rec.owner == h && rec.start == start && Gots(rec.readSet) == body.got && Acts(rec.log) == body.acts
  }

  /** No record changes but for its status. */
  ghost predicate RecordsStay(hist: seq<Rec>, hist': seq<Rec>) {
    && |hist| <= |hist'|
    && forall i :: 0 <= i < |hist| ==> hist'[i] == hist[i].(status := hist'[i].status)
  }

  lemma StepRecords(s: State, step: Step)
    requires Enabled(s, step)
    ensures RecordsStay(s.hist, Do(s, step).hist)
  {
  }

  lemma {:induction false} RecordsLater(run: seq<State>, steps: seq<Step>, n: nat, m: nat)
    requires Steps(run, steps) && n <= m < |run|
    ensures RecordsStay(run[n].hist, run[m].hist)
    decreases m
  {
    if n < m {
      RecordsLater(run, steps, n, m - 1);
      assert Stepped(run, steps, m - 1);
      StepRecords(run[m - 1], steps[m - 1]);
    }
  }

  lemma CommitAppends(s: State, step: Step, frames: seq<Frame>)
    requires Enabled(s, step) && Commits(step) && Tells(s.handles[step.h], frames)
    ensures |frames| == 1 && |Do(s, step).hist| == |s.hist| + 1
    ensures SaysBody(Do(s, step).hist[|s.hist|], step.h, s.handles[step.h].start, frames[0])
  {
    var hd := s.handles[step.h];
    assert hd.marks == [];
    assert DropLast(frames) == [] && Last(frames) == frames[0];
    JoinEmpty(frames[0]);
    assert Flat(frames) == Join(Flat(DropLast(frames)), Last(frames)) == frames[0];
    assert Acts(hd.log) == frames[0].acts && Gots(hd.readSet) == frames[0].got;
    if step.CommitReadOnly? {
      assert hd.log == [];
    }
  }

  ghost predicate SameButStatus(hist: seq<Rec>, hist': seq<Rec>, i: nat) {
    i < |hist| && i < |hist'| && hist'[i] == hist[i].(status := hist'[i].status)
  }

  lemma RecordAt(run: seq<State>, steps: seq<Step>, c: nat, d: nat, n: nat)
    requires Steps(run, steps) && c < n < |run| && d == c + 1 && |run[d].hist| == |run[c].hist| + 1
    ensures SameButStatus(run[d].hist, run[n].hist, |run[c].hist|)
  {
    RecordsLater(run, steps, d, n);
  }

  lemma CommitNow(run: seq<State>, steps: seq<Step>, c: nat, d: nat, h: nat)
    requires Steps(run, steps) && c < |steps| && d == c + 1 && Commits(steps[c]) && steps[c].h == h
    ensures h < |run[c].handles| && !run[c].handles[h].pc.Idle? && |Done(run, steps, h, c)| == 1
    ensures |run[d].hist| == |run[c].hist| + 1
    ensures SaysBody(run[d].hist[|run[c].hist|], h, run[c].handles[h].start, Done(run, steps, h, c)[0])
  {
    assert Stepped(run, steps, c);
    SameHandles(run, steps, c);
    HoldsDone(run, steps, h, c);
    CommitAppends(run[c], steps[c], Done(run, steps, h, c));
  }

  /** A commit appends the record of all that its handle did since the begin at step `b`. */
  lemma CommitRecords(run: seq<State>, steps: seq<Step>, c: nat, h: nat, n: nat) returns (b: nat)
    requires Steps(run, steps) && c < n < |run| && Commits(steps[c]) && steps[c].h == h
    ensures BegunAt(run, steps, h, b, c) && |Done(run, steps, h, c)| == 1
    ensures |run[c].hist| < |run[n].hist|
    ensures SaysBody(run[n].hist[|run[c].hist|], h, run[b].time, Done(run, steps, h, c)[0])
  {
    CommitNow(run, steps, c, c + 1, h);
    b := BeginOf(run, steps, h, c);
    RecordAt(run, steps, c, c + 1, n);
  }

  lemma DecidesPending(s: State, h: nat)
    requires Inv(s) && Enabled(s, Decide(h))
    ensures s.hist[s.handles[h].cur].status.Pending?
  {
    assert Tied(s, h);
  }

  /** A rejected record stays rejected, and a new one comes from a commit. */
  lemma NotRejectedBefore(s: State, step: Step, i: nat)
    requires Enabled(s, step) && i < |Do(s, step).hist| && !Do(s, step).hist[i].status.Rejected?
    requires step.Decide? ==> s.hist[s.handles[step.h].cur].status.Pending?
    ensures if i < |s.hist| then !s.hist[i].status.Rejected? else Commits(step) && i == |s.hist|
  {
  }

  lemma NotRejectedAt(run: seq<State>, steps: seq<Step>, n: nat, m: nat, i: nat)
    requires Steps(run, steps) && n < |steps| && m == n + 1 && i < |run[m].hist| && !run[m].hist[i].status.Rejected?
    ensures if i < |run[n].hist| then !run[n].hist[i].status.Rejected? else Commits(steps[n]) && i == |run[n].hist|
  {
    assert Stepped(run, steps, n);
    AllHold(run, steps, n);
    if steps[n].Decide? {
      DecidesPending(run[n], steps[n].h);
    }
    NotRejectedBefore(run[n], steps[n], i);
  }

  /** And every record that is not rejected came from such a commit. */
  lemma {:induction false} RecordFrom(run: seq<State>, steps: seq<Step>, n: nat, i: nat) returns (c: nat)
    requires Steps(run, steps) && n < |run| && i < |run[n].hist| && !run[n].hist[i].status.Rejected?
    ensures c < n && Commits(steps[c]) && |run[c].hist| == i
  {
    assert n > 0;
    NotRejectedAt(run, steps, n - 1, n, i);
    if i == |run[n - 1].hist| {
      c := n - 1;
    } else {
      c := RecordFrom(run, steps, n - 1, i);
    }
  }

  /** Every committed transaction, and every reader, is recorded with exactly what it did: all
      reads and writes since its begin that are not inside an aborted nested transaction. */
  lemma RecordIsBody(run: seq<State>, steps: seq<Step>, n: nat, i: nat) returns (c: nat, b: nat)
    requires Steps(run, steps) && n < |run| && i < |run[n].hist| && !run[n].hist[i].status.Rejected?
    ensures c < n && Commits(steps[c]) && BegunAt(run, steps, steps[c].h, b, c)
    ensures |Done(run, steps, steps[c].h, c)| == 1
    ensures SaysBody(run[n].hist[i], steps[c].h, run[b].time, Done(run, steps, steps[c].h, c)[0])
  {
    c := RecordFrom(run, steps, n, i);
    b := CommitRecords(run, steps, c, steps[c].h, n);
  }
}
