/** Creations come first.

    What the committed history says about a node begins with its creation: no record in front
    of the creator's, and no item in front of the creation, touches the node.  Ids are never
    given twice. */
module Births {
  import opened StmModel
  import opened StmInvariant
  import opened StmShape
  import opened StmSteps
  import opened StmRecords

  /** Ids come from a counter that every creation increments. */
  ghost predicate FreshId(r: RState, step: Step) {
    step.Annotate? && step.note.NodeAlloc? ==>
      step.note.id > 0 && forall o: nat :: Cell(r.birth, o) != step.note.id
  }

  /** A run of a process that started with an empty database. */
  ghost predicate NewDatabase(run: seq<RState>, steps: seq<Step>) {
    && RRun(run, steps)
    && (forall o: nat :: Cell(run[0].birth, o) == 0)
    && forall i :: 0 <= i < |steps| ==> FreshAt(run, steps, i)
  }

  ghost predicate FreshAt(run: seq<RState>, steps: seq<Step>, i: nat)
    requires i < |steps| && |run| == |steps| + 1
  {
    FreshId(run[i], steps[i])
  }

  // ----- the invariant

  ghost predicate BirthsOk(r: RState) {
    && (forall o: nat :: Cell(r.birth, o) >= 0)
    && forall o: nat, u: nat :: Cell(r.birth, o) == Cell(r.birth, u) != 0 ==> o == u
  }

  /** Nothing touches the node in front of item `x` of record `i`. */
  ghost predicate FirstTouch(hist: seq<Rec>, i: nat, x: nat, o: nat)
    requires i < |hist| && x <= |hist[i].log|
  {
    !Touches(hist[i].log[..x], o) && forall j :: 0 <= j < i ==> !Touches(hist[j].log, o)
  }

  ghost predicate CreatesFirst(hist: seq<Rec>) {
    forall i, x, o: nat :: 0 <= i < |hist| && 0 <= x < |hist[i].log| && IsCreation(hist[i].log[x], o) ==>
      FirstTouch(hist, i, x, o)
  }

  /** A transaction that can still commit. */
  predicate Open(pc: Pc) {
    pc.Running? || pc.Loaded? || pc.Locking? || pc.Failed? || pc.UndoNested?
  }

  ghost predicate Unknown(hist: seq<Rec>, o: nat) {
    forall j :: 0 <= j < |hist| ==> !Touches(hist[j].log, o)
  }

  /** Nobody has committed or tried to commit anything on a node that is being created. */
  ghost predicate CreatesNew(s: State) {
    forall h: nat, x: nat, o: nat :: Creating(s, h, x, o) && Open(s.handles[h].pc) ==> Unknown(s.hist, o)
  }

  ghost predicate Makes(log: seq<LogItem>, o: nat) {
    exists x :: 0 <= x < |log| && IsCreation(log[x], o)
  }

  ghost predicate Creating(s: State, h: nat, x: nat, o: nat) {
    h < |s.handles| && x < |s.handles[h].log| && IsCreation(s.handles[h].log[x], o)
  }

  ghost predicate CInv(r: RState) {
    BirthsOk(r) && CreatesFirst(r.stm.hist) && CreatesNew(r.stm)
  }

  // ----- what a step does, apart from the rest of the state

  /** The ids. */
  ghost predicate BirthStep(r: RState, step: Step, r': RState) {
    if step.Annotate? && step.note.NodeAlloc? then
      Cell(r.birth, step.obj) == 0 && step.obj in r.nodes && r'.birth == r.birth[step.obj := step.note.id]
    else r'.birth == r.birth
  }

  lemma BirthMoves(r: RState, step: Step, r': RState)
    requires Disciplined(r, step) && Enabled(r.stm, step) && HistoryNext(r, step, r')
    ensures BirthStep(r, step, r') && r'.nodes == r.nodes && r'.texts == r.texts
  {
  }

  ghost predicate Adds(hd: Handle, step: Step, hd': Handle, h: nat) {
    && hd'.log != [] && DropLast(hd'.log) == hd.log
    && (Last(hd'.log).Noted? ==> step == Annotate(h, Last(hd'.log).noteObj, Last(hd'.log).note))
  }

  /** How a step changes the log of its handle, if that can still commit. */
  ghost predicate LogStep(s: State, step: Step, s': State, h: nat) {
    && h < |s.handles| == |s'.handles|
    && var hd, hd' := s.handles[h], s'.handles[h];
       Open(hd'.pc) ==>
         || hd'.log == []
         || (Open(hd.pc) && hd'.log <= hd.log)
         || (Open(hd.pc) && Adds(hd, step, hd', h))
  }

  lemma OwnLogMoves(s: State, step: Step)
    requires Enabled(s, step) && HandleStep(step) && Open(DoHandle(s, step).pc)
    ensures var hd, hd' := s.handles[step.h], DoHandle(s, step);
      hd'.log == [] || (Open(hd.pc) && (hd'.log <= hd.log || step.WriteStep? || step.Annotate?))
  {
    if Nests(step) || Ends(step) {
      LogShrinks(s, step);
    }
  }

  lemma LogMoves(s: State, step: Step, h: nat)
    requires Enabled(s, step) && h < |s.handles|
    ensures LogStep(s, step, Do(s, step), h)
  {
    var hd, hd' := s.handles[h], Do(s, step).handles[h];
    if HandleStep(step) && step.h == h && Open(hd'.pc) {
      OwnLogMoves(s, step);
      if step.WriteStep? {
        assert hd'.log == hd.log + [Wrote(step.loc, s.mem[step.loc], step.val)];
      } else if step.Annotate? {
        assert hd'.log == hd.log + [Noted(step.obj, step.note)];
      }
    }
  }

  /** Records stay, and at most one is added. */
  ghost predicate HistStep(s: State, step: Step, s': State) {
    var hist, hist' := s.hist, s'.hist;
    && |hist| <= |hist'| <= |hist| + 1
    && (forall i :: 0 <= i < |hist| ==> hist'[i].log == hist[i].log)
    && (forall i :: 0 <= i < |hist| && !hist[i].status.Pending? ==> hist'[i] == hist[i])
    && s.queue <= s'.queue && s'.init == s.init
    && (|hist'| > |hist| && hist'[|hist|].log != [] ==>
          step.CommitStamp? && step.h < |s.handles| && Open(s.handles[step.h].pc) && hist'[|hist|].log == s.handles[step.h].log)
  }

  lemma OwnPending(s: State, h: nat)
    requires Inv(s) && h < |s.handles| && s.handles[h].pc.Validating?
    ensures s.handles[h].cur < |s.hist| && s.hist[s.handles[h].cur].status.Pending?
  {
    Facts(s, h);
  }

  lemma HistMoves(s: State, step: Step)
    requires Enabled(s, step)
    requires step.Validate? || step.Decide? ==> s.hist[s.handles[step.h].cur].status.Pending?
    ensures HistStep(s, step, Do(s, step))
  {
  }

  lemma HistMovesOn(s: State, step: Step)
    requires Inv(s) && Enabled(s, step)
    ensures HistStep(s, step, Do(s, step))
  {
    if step.Validate? || step.Decide? {
      OwnPending(s, step.h);
    }
    HistMoves(s, step);
  }

  /** A node that has no id yet is in no record. */
  lemma UnbornUnknown(r: RState, o: nat)
    requires Past(r) && o in r.nodes && Cell(r.birth, o) == 0
    ensures Unknown(r.stm.hist, o)
  {
    forall j | 0 <= j < |r.stm.hist| ensures !Touches(r.stm.hist[j].log, o) {
      assert HistItems(r, r.stm.hist[j].log);
    }
  }

  lemma CreatesAlone(r: RState, h: nat, x: nat, o: nat)
    requires Creations(r) && Creating(r.stm, h, x, o) && Open(r.stm.handles[h].pc)
    ensures !Touches(r.stm.handles[h].log[..x], o)
    ensures forall k :: 0 <= k < |r.stm.handles| && k != h ==> !Touches(r.stm.handles[k].log, o)
  {
    assert r.stm.handles[h].log[x].note.NodeAlloc?;
  }

  // ----- every step keeps the invariant

  lemma BirthsKept(r: RState, step: Step, r': RState)
    requires BirthsOk(r) && BirthStep(r, step, r') && FreshId(r, step)
    ensures BirthsOk(r') && forall o: nat :: Cell(r.birth, o) != 0 ==> Cell(r'.birth, o) == Cell(r.birth, o)
  {
    if step.Annotate? && step.note.NodeAlloc? {
      forall o: nat ensures Cell(r'.birth, o) == if o == step.obj then step.note.id else Cell(r.birth, o) {
      }
    }
  }

  lemma CreatesFirstKept(r: RState, step: Step, r': RState)
    requires CreatesFirst(r.stm.hist) && CreatesNew(r.stm) && Creations(r) && HistStep(r.stm, step, r'.stm)
    ensures CreatesFirst(r'.stm.hist)
  {
    var hist, hist' := r.stm.hist, r'.stm.hist;
    forall i, x, o: nat | 0 <= i < |hist'| && 0 <= x < |hist'[i].log| && IsCreation(hist'[i].log[x], o)
      ensures FirstTouch(hist', i, x, o)
    {
      if i < |hist| {
        assert FirstTouch(hist, i, x, o);
      } else {
        assert Creating(r.stm, step.h, x, o);
        CreatesAlone(r, step.h, x, o);
        assert Unknown(hist, o);
      }
    }
  }

  /** The record that a step adds does not touch a node that another handle is creating. */
  lemma UnknownKept(r: RState, step: Step, r': RState, h: nat, x: nat, o: nat)
    requires Creations(r) && HistStep(r.stm, step, r'.stm) && Unknown(r.stm.hist, o)
    requires Creating(r.stm, h, x, o) && Open(r.stm.handles[h].pc) && !(step.CommitStamp? && step.h == h)
    ensures Unknown(r'.stm.hist, o)
  {
    CreatesAlone(r, h, x, o);
  }

  /** A creation was there before, or is the step itself. */
  lemma CreatedNow(s: State, step: Step, s': State, h: nat, x: nat, o: nat)
    requires LogStep(s, step, s', h) && Creating(s', h, x, o) && Open(s'.handles[h].pc)
    ensures (Creating(s, h, x, o) && Open(s.handles[h].pc)) || (step.Annotate? && step.note.NodeAlloc? && step.obj == o)
  {
    var hd, hd' := s.handles[h], s'.handles[h];
    if Adds(hd, step, hd', h) && x < |hd.log| {
      assert DropLast(hd'.log)[x] == hd'.log[x];
    }
  }

  lemma UnbornStays(r: RState, step: Step, r': RState, o: nat)
    requires Past(r) && BirthStep(r, step, r') && HistStep(r.stm, step, r'.stm)
    requires step.Annotate? && step.note.NodeAlloc? && step.obj == o
    ensures Unknown(r'.stm.hist, o)
  {
    UnbornUnknown(r, o);
    forall j | 0 <= j < |r'.stm.hist| ensures !Touches(r'.stm.hist[j].log, o) {
      assert j < |r.stm.hist| ==> r'.stm.hist[j].log == r.stm.hist[j].log;
    }
  }

  lemma NewCreation(r: RState, step: Step, r': RState, h: nat, x: nat, o: nat)
    requires Creations(r) && Past(r) && CreatesNew(r.stm)
    requires BirthStep(r, step, r') && HistStep(r.stm, step, r'.stm)
    requires (Creating(r.stm, h, x, o) && Open(r.stm.handles[h].pc)) || (step.Annotate? && step.note.NodeAlloc? && step.obj == o)
    requires !(step.CommitStamp? && step.h == h)
    ensures Unknown(r'.stm.hist, o)
  {
    if step.Annotate? && step.note.NodeAlloc? && step.obj == o {
      UnbornStays(r, step, r', o);
    } else {
      UnknownKept(r, step, r', h, x, o);
    }
  }

  lemma StampCloses(s: State, h: nat)
    requires Enabled(s, CommitStamp(h))
    ensures h < |s.handles| && !Open(Do(s, CommitStamp(h)).handles[h].pc)
  {
  }

  lemma StepFacts(r: RState, step: Step, r': RState)
    requires Inv(r.stm) && RNext(r, step, r')
    ensures Enabled(r.stm, step) && r'.stm == Do(r.stm, step) && HistStep(r.stm, step, r'.stm)
    ensures BirthStep(r, step, r') && r'.nodes == r.nodes && r'.texts == r.texts
  {
    BirthMoves(r, step, r');
    HistMovesOn(r.stm, step);
  }

  lemma CreatesNewKept(r: RState, step: Step, r': RState)
    requires Creations(r) && Past(r) && CreatesNew(r.stm) && Enabled(r.stm, step) && r'.stm == Do(r.stm, step)
    requires BirthStep(r, step, r') && HistStep(r.stm, step, r'.stm) && |r'.stm.handles| == |r.stm.handles|
    ensures CreatesNew(r'.stm)
  {
    forall h: nat, x: nat, o: nat | Creating(r'.stm, h, x, o) && Open(r'.stm.handles[h].pc) ensures Unknown(r'.stm.hist, o) {
      LogMoves(r.stm, step, h);
      if step.CommitStamp? && step.h == h {
        StampCloses(r.stm, h);
      }
      CreatedNow(r.stm, step, r'.stm, h, x, o);
      NewCreation(r, step, r', h, x, o);
    }
  }

  lemma SameHandles(s: State, step: Step)
    requires Enabled(s, step)
    ensures |Do(s, step).handles| == |s.handles|
  {
    if HandleStep(step) {
      assert Do(s, step).handles == s.handles[step.h := DoHandle(s, step)];
    }
  }

  /** The invariant is inductive. */
  lemma CStepKept(r: RState, step: Step, r': RState)
    requires CInv(r) && Inv(r.stm) && Creations(r) && Past(r) && RNext(r, step, r') && FreshId(r, step)
    ensures CInv(r')
  {
    StepFacts(r, step, r');
    SameHandles(r.stm, step);
    BirthsKept(r, step, r');
    CreatesFirstKept(r, step, r');
    CreatesNewKept(r, step, r');
  }

  lemma Layers(r: RState)
    requires RInv(r)
    ensures Inv(r.stm) && Creations(r) && Past(r)
  {
  }

  ghost predicate CHolds(run: seq<RState>, n: nat) {
    n < |run| && CInv(run[n])
  }

  lemma StepFrom(run: seq<RState>, steps: seq<Step>, i: nat)
    requires NewDatabase(run, steps) && i < |steps|
    ensures |run| == |steps| + 1 && RStepAt(run, steps, i) && FreshId(run[i], steps[i]) && Holds(run, i)
  {
    RRunInv(run, steps, i);
    assert FreshAt(run, steps, i);
  }

  lemma CStepAt(r: RState, step: Step, r': RState)
    requires CInv(r) && RInv(r) && RNext(r, step, r') && FreshId(r, step)
    ensures CInv(r')
  {
    Layers(r);
    CStepKept(r, step, r');
  }

  lemma CRunStep(run: seq<RState>, steps: seq<Step>, n: nat, m: nat)
    requires NewDatabase(run, steps) && n < |steps| && m == n + 1 && CHolds(run, n)
    ensures CHolds(run, m)
  {
    StepFrom(run, steps, n);
    CStepAt(run[n], steps[n], run[m]);
  }

  lemma CInit(run: seq<RState>, steps: seq<Step>)
    requires NewDatabase(run, steps)
    ensures CHolds(run, 0)
  {
  }

  lemma {:induction false} CRunInv(run: seq<RState>, steps: seq<Step>, n: nat)
    requires NewDatabase(run, steps) && n < |run|
    ensures CHolds(run, n)
  {
    if n == 0 {
      CInit(run, steps);
    } else {
      CRunInv(run, steps, n - 1);
      CRunStep(run, steps, n - 1, n);
    }
  }

  // ----- what stays along a run

  /** Ids once given, decided records, all logs and the queue stay. */
  ghost predicate Stays(r: RState, r': RState) {
    && r'.nodes == r.nodes && r'.texts == r.texts
    && (forall o: nat :: Cell(r.birth, o) != 0 ==> Cell(r'.birth, o) == Cell(r.birth, o))
    && |r.stm.hist| <= |r'.stm.hist| && r.stm.queue <= r'.stm.queue && r'.stm.init == r.stm.init
    && (forall i :: 0 <= i < |r.stm.hist| ==> r'.stm.hist[i].log == r.stm.hist[i].log)
    && forall i :: 0 <= i < |r.stm.hist| && !r.stm.hist[i].status.Pending? ==> r'.stm.hist[i] == r.stm.hist[i]
  }

  lemma StaysOn(r: RState, step: Step, r': RState)
    requires BirthsOk(r) && BirthStep(r, step, r') && FreshId(r, step) && HistStep(r.stm, step, r'.stm)
    requires r'.nodes == r.nodes && r'.texts == r.texts
    ensures Stays(r, r')
  {
    BirthsKept(r, step, r');
  }

  lemma StaysMore(r: RState, r': RState, r'': RState)
    requires Stays(r, r') && Stays(r', r'')
    ensures Stays(r, r'')
  {
  }

  lemma StaysNext(r: RState, step: Step, r': RState)
    requires CInv(r) && RInv(r) && RNext(r, step, r') && FreshId(r, step)
    ensures Stays(r, r')
  {
    Layers(r);
    StepFacts(r, step, r');
    StaysOn(r, step, r');
  }

  /** From one state of a run to a later one. */
  ghost predicate StaysFrom(run: seq<RState>, a: nat, n: nat) {
    a <= n < |run| && Stays(run[a], run[n])
  }

  lemma StaysAt(run: seq<RState>, steps: seq<Step>, n: nat, m: nat)
    requires NewDatabase(run, steps) && n < |steps| && m == n + 1
    ensures StaysFrom(run, n, m)
  {
    StepFrom(run, steps, n);
    CRunInv(run, steps, n);
    StaysNext(run[n], steps[n], run[m]);
  }

  lemma StaysOneMore(run: seq<RState>, a: nat, n: nat, m: nat)
    requires StaysFrom(run, a, n) && StaysFrom(run, n, m)
    ensures StaysFrom(run, a, m)
  {
    StaysMore(run[a], run[n], run[m]);
  }

  /** What holds from each state to the next, and is transitive, holds from each to each later one. */
  lemma {:induction false} Closure(p: (nat, nat) -> bool, a: nat, n: nat)
    requires a < n
    requires forall i: nat, j: nat :: j == i + 1 && j <= n ==> p(i, j)
    requires forall i: nat, j: nat :: p(a, i) && j == i + 1 && p(i, j) ==> p(a, j)
    ensures p(a, n)
  {
    if a < n - 1 {
      Closure(p, a, n - 1);
    }
    assert p(n - 1, n);
  }

  lemma RunStays(run: seq<RState>, steps: seq<Step>, a: nat, n: nat)
    requires NewDatabase(run, steps) && a <= n < |run|
    ensures StaysFrom(run, a, n)
  {
    if a < n {
      forall i: nat, j: nat | j == i + 1 && j <= n ensures StaysFrom(run, i, j) {
        StaysAt(run, steps, i, j);
      }
      forall i: nat, j: nat | StaysFrom(run, a, i) && j == i + 1 && StaysFrom(run, i, j) ensures StaysFrom(run, a, j) {
        StaysOneMore(run, a, i, j);
      }
      Closure((i: nat, j: nat) => StaysFrom(run, i, j), a, n);
    }
  }

  lemma {:induction false} MeantStays(r: RState, r': RState, all: seq<LogItem>, log: seq<LogItem>)
    requires Stays(r, r') && forall x :: 0 <= x < |log| && log[x].Obj() in r.nodes ==> Cell(r.birth, log[x].Obj()) != 0
    requires forall x :: 0 <= x < |log| && log[x].Noted? && (log[x].note.NodeAlloc? || log[x].note.NodeDelete?) ==>
               log[x].noteObj in r.nodes
    ensures Meant(r', all, log) == Meant(r, all, log)
  {
    if log != [] {
      MeantStays(r, r', all, DropLast(log));
      assert log[|log| - 1] == Last(log);
    }
  }
}
