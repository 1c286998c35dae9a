/** Transactions fail only for a reason, and one that runs alone commits.

    The other theorems about the step system are met by one in which nothing is ever committed.
    Here: a check, a lock or a validation fails only when somebody else has the object, or when
    it was released since the transaction began; a handle that nobody disturbs never fails; and
    it can always carry its transaction to the end. */
module Progress {
  import opened StmModel
  import opened StmInvariant
  import opened StmShape
  import opened StmSteps

  /** A run with its steps. */
  ghost predicate Steps(run: seq<State>, steps: seq<Step>) {
    && |run| == |steps| + 1 && Init(run[0])
    && forall i :: 0 <= i < |steps| ==> Stepped(run, steps, i)
  }

  ghost predicate Stepped(run: seq<State>, steps: seq<Step>, i: nat)
    requires i < |steps| && |run| == |steps| + 1
  {
    Enabled(run[i], steps[i]) && run[i + 1] == Do(run[i], steps[i])
  }

  ghost predicate Holds(run: seq<State>, n: nat) {
    n < |run| && Inv(run[n])
  }

  lemma StepHolds(run: seq<State>, steps: seq<Step>, n: nat, m: nat)
    requires |run| == |steps| + 1 && n < |steps| && m == n + 1 && Stepped(run, steps, n) && Holds(run, n)
    ensures Holds(run, m)
  {
    StepKept(run[n], steps[n]);
  }

  lemma {:induction false} AllHold(run: seq<State>, steps: seq<Step>, n: nat)
    requires Steps(run, steps) && n < |run|
    ensures Holds(run, n)
  {
    if n == 0 {
      InitInv(run[0]);
    } else {
      AllHold(run, steps, n - 1);
      StepHolds(run, steps, n - 1, n);
    }
  }

  // ----- why a transaction fails

  /** Somebody else has the object. */
  ghost predicate Taken(s: State, o: nat, h: nat) {
    s.locks[o].Dumping? || (s.locks[o].Held? && s.locks[o].owner != h)
  }

  /** The object was released in some step from `b` on, before state `n`. */
  ghost predicate ReleasedSince(run: seq<State>, b: nat, n: nat, o: nat) {
    exists j :: b <= j < n && Releases(run, j, o)
  }

  ghost predicate Releases(run: seq<State>, j: nat, o: nat) {
    j + 1 < |run| && !run[j].locks[o].Free? && run[j + 1].locks[o].Free?
  }

  ghost predicate Disturbed(run: seq<State>, b: nat, n: nat, o: nat, h: nat) {
    n < |run| && (Taken(run[n], o, h) || ReleasedSince(run, b, n, o))
  }

  /** Step `b` began the transaction that `h` runs in state `n`. */
  ghost predicate BegunAt(run: seq<State>, steps: seq<Step>, h: nat, b: nat, n: nat) {
    && b < n < |run| && b < |steps| && steps[b] == Begin(h)
    && h < |run[n].handles| && run[n].handles[h].start == run[b].time
  }

  lemma StartMoves(s: State, step: Step, h: nat)
    requires Enabled(s, step) && h < |s.handles| && h < |Do(s, step).handles| && !Do(s, step).handles[h].pc.Idle?
    ensures step == Begin(h) || (!s.handles[h].pc.Idle? && Do(s, step).handles[h].start == s.handles[h].start)
    ensures step == Begin(h) ==> Do(s, step).handles[h].start == s.time
  {
    if HandleStep(step) && step.h == h {
      assert Do(s, step).handles[h] == DoHandle(s, step);
      if Nests(step) {
        StartNests(s, step);
      } else if Ends(step) {
        StartEnds(s, step);
      } else if Accesses(step) {
        StartAccesses(s, step);
      } else {
        StartLast(s, step);
      }
    }
  }

  /** A handle that is not idle keeps its start time. */
  ghost predicate KeepsStart(hd: Handle, hd': Handle) {
    !hd.pc.Idle? && hd'.start == hd.start
  }

  lemma StartNests(s: State, step: Step)
    requires Enabled(s, step) && Nests(step)
    ensures KeepsStart(s.handles[step.h], DoHandle(s, step))
  {
  }

  lemma StartEnds(s: State, step: Step)
    requires Enabled(s, step) && Ends(step)
    ensures KeepsStart(s.handles[step.h], DoHandle(s, step))
  {
  }

  lemma StartAccesses(s: State, step: Step)
    requires Enabled(s, step) && Accesses(step)
    ensures KeepsStart(s.handles[step.h], DoHandle(s, step))
  {
  }

  lemma StartLast(s: State, step: Step)
    requires Enabled(s, step) && HandleStep(step) && !Nests(step) && !Ends(step) && !Accesses(step)
    requires !DoHandle(s, step).pc.Idle?
    ensures step.Begin? || KeepsStart(s.handles[step.h], DoHandle(s, step))
    ensures step.Begin? ==> DoHandle(s, step).start == s.time
  {
  }

  lemma HandlesSame(s: State, step: Step)
    requires Enabled(s, step)
    ensures |Do(s, step).handles| == |s.handles|
  {
    if HandleStep(step) {
      assert Do(s, step).handles == s.handles[step.h := DoHandle(s, step)];
    }
  }

  lemma StepStart(run: seq<State>, steps: seq<Step>, h: nat, n: nat, m: nat)
    requires |run| == |steps| + 1 && n < |steps| && m == n + 1 && Stepped(run, steps, n)
    requires h < |run[m].handles| && !run[m].handles[h].pc.Idle?
    ensures h < |run[n].handles|
    ensures steps[n] == Begin(h) ==> run[m].handles[h].start == run[n].time
    ensures steps[n] != Begin(h) ==> !run[n].handles[h].pc.Idle? && run[m].handles[h].start == run[n].handles[h].start
  {
    HandlesSame(run[n], steps[n]);
    StartMoves(run[n], steps[n], h);
  }

  lemma BegunLater(run: seq<State>, steps: seq<Step>, h: nat, b: nat, n: nat, m: nat)
    requires |run| == |steps| + 1 && n < |steps| && m == n + 1 && BegunAt(run, steps, h, b, n)
    requires h < |run[m].handles| && run[m].handles[h].start == run[n].handles[h].start
    ensures BegunAt(run, steps, h, b, m)
  {
  }

  lemma BegunNow(run: seq<State>, steps: seq<Step>, h: nat, n: nat, m: nat)
    requires Steps(run, steps) && n < |steps| && m == n + 1 && h < |run[m].handles| && !run[m].handles[h].pc.Idle?
    ensures h < |run[n].handles|
    ensures steps[n] == Begin(h) ==> BegunAt(run, steps, h, n, m)
    ensures steps[n] != Begin(h) ==> !run[n].handles[h].pc.Idle? && run[m].handles[h].start == run[n].handles[h].start
  {
    assert Stepped(run, steps, n);
    StepStart(run, steps, h, n, m);
  }

  /** The step that began the transaction. */
  lemma {:induction false} BeginOf(run: seq<State>, steps: seq<Step>, h: nat, n: nat) returns (b: nat)
    requires Steps(run, steps) && n < |run| && h < |run[n].handles| && !run[n].handles[h].pc.Idle?
    ensures BegunAt(run, steps, h, b, n)
  {
    assert n > 0;
    BegunNow(run, steps, h, n - 1, n);
    if steps[n - 1] == Begin(h) {
      b := n - 1;
    } else {
      b := BeginOf(run, steps, h, n - 1);
      BegunLater(run, steps, h, b, n - 1, n);
    }
  }

  lemma LockMoves(s: State, step: Step, o: nat)
    requires Inv(s) && Enabled(s, step) && Do(s, step).locks[o].Free? && Do(s, step).locks[o] != s.locks[o]
    ensures !s.locks[o].Free?
  {
    if step.Release? {
      assert Tied(s, step.h) && o in s.handles[step.h].acquired;
    } else if step.DumpRelease? {
      assert o == s.dumper.obj;
    }
  }

  lemma OneRelease(run: seq<State>, steps: seq<Step>, n: nat, m: nat, o: nat)
    requires Steps(run, steps) && n < |steps| && m == n + 1
    requires run[m].locks[o].Free? && run[m].locks[o] != run[n].locks[o]
    ensures Releases(run, n, o)
  {
    AllHold(run, steps, n);
    assert Stepped(run, steps, n);
    LockMoves(run[n], steps[n], o);
  }

  /** A free lock that was not so before was released in between. */
  lemma {:induction false} ReleaseFound(run: seq<State>, steps: seq<Step>, b: nat, n: nat, o: nat)
    requires Steps(run, steps) && b <= n < |run| && run[n].locks[o].Free? && run[b].locks[o] != run[n].locks[o]
    ensures ReleasedSince(run, b, n, o)
  {
    if run[n - 1].locks[o] == run[n].locks[o] {
      ReleaseFound(run, steps, b, n - 1, o);
      var j :| b <= j < n - 1 && Releases(run, j, o);
    } else {
      OneRelease(run, steps, n - 1, n, o);
    }
  }

  lemma VersionThen(s: State, o: nat)
    requires Inv(s) && s.locks[o].Free?
    ensures s.locks[o].version <= s.time
  {
    assert LockOk(s, o);
  }

  /** A lock word that a transaction's test refuses: somebody has the object, or it was released
      since the transaction began. */
  lemma RefusedIsDisturbed(run: seq<State>, steps: seq<Step>, h: nat, b: nat, n: nat, o: nat)
    requires Steps(run, steps) && BegunAt(run, steps, h, b, n)
    requires run[n].locks[o].Free? ==> run[n].locks[o].version > run[n].handles[h].start
    requires run[n].locks[o].Held? ==> run[n].locks[o].owner != h
    ensures Disturbed(run, b, n, o, h)
  {
    if run[n].locks[o].Free? {
      AllHold(run, steps, b);
      if run[b].locks[o].Free? {
        VersionThen(run[b], o);
      }
      ReleaseFound(run, steps, b, n, o);
    }
  }

  lemma CheckRefused(s: State, h: nat)
    requires Enabled(s, Check(h)) && Do(s, Check(h)).handles[h].pc.Failed?
    ensures var o := Last(s.handles[h].readSet).loc.obj;
      && !s.handles[h].pc.Idle?
      && (s.locks[o].Free? ==> s.locks[o].version > s.handles[h].start) && (s.locks[o].Held? ==> s.locks[o].owner != h)
  {
  }

  lemma LockRefused(s: State, h: nat, o: nat)
    requires Enabled(s, ReadLock(h, o)) && Do(s, ReadLock(h, o)).handles[h].pc.Failed?
    ensures !s.handles[h].pc.Idle?
    ensures (s.locks[o].Free? ==> s.locks[o].version > s.handles[h].start) && (s.locks[o].Held? ==> s.locks[o].owner != h)
  {
  }

  /** Record `i`, an attempt to commit that was undecided, is rejected by the step. */
  ghost predicate Rejects(s: State, s': State, i: nat) {
    i < |s.hist| && s.hist[i].status.Pending? && i < |s'.hist| && s'.hist[i].status.Rejected?
  }

  /** The object of the read-set entry that is validated next. */
  ghost function NextRead(hd: Handle): nat
    requires hd.pc.Validating? && hd.pc.next < |hd.readSet|
  {
    hd.readSet[hd.pc.next].loc.obj
  }

  lemma RejectRefused(s: State, step: Step, i: nat)
    requires Enabled(s, step) && Rejects(s, Do(s, step), i)
    ensures step.Validate? && s.handles[step.h].cur == i
    ensures var h := step.h; var o := NextRead(s.handles[h]);
      (s.locks[o].Free? ==> s.locks[o].version > s.handles[h].start) && (s.locks[o].Held? ==> s.locks[o].owner != h)
  {
  }

  /** A check that fails. */
  lemma CheckFailsFor(run: seq<State>, steps: seq<Step>, n: nat, h: nat) returns (b: nat)
    requires Steps(run, steps) && n < |steps| && steps[n] == Check(h)
    requires h < |run[n + 1].handles| && run[n + 1].handles[h].pc.Failed?
    ensures h < |run[n].handles| && run[n].handles[h].readSet != []
    ensures BegunAt(run, steps, h, b, n) && Disturbed(run, b, n, Last(run[n].handles[h].readSet).loc.obj, h)
  {
    assert Stepped(run, steps, n);
    CheckRefused(run[n], h);
    b := BeginOf(run, steps, h, n);
    RefusedIsDisturbed(run, steps, h, b, n, Last(run[n].handles[h].readSet).loc.obj);
  }

  /** A lock that is refused. */
  lemma LockFailsFor(run: seq<State>, steps: seq<Step>, n: nat, h: nat, o: nat) returns (b: nat)
    requires Steps(run, steps) && n < |steps| && steps[n] == ReadLock(h, o)
    requires h < |run[n + 1].handles| && run[n + 1].handles[h].pc.Failed?
    ensures BegunAt(run, steps, h, b, n) && Disturbed(run, b, n, o, h)
  {
    assert Stepped(run, steps, n);
    LockRefused(run[n], h, o);
    b := BeginOf(run, steps, h, n);
    RefusedIsDisturbed(run, steps, h, b, n, o);
  }

  /** An attempt to commit is rejected only when, in that state, some object it read is in other
      hands, or when that object was released since the transaction began. */
  lemma RejectedFor(run: seq<State>, steps: seq<Step>, n: nat, i: nat) returns (h: nat, k: nat, b: nat)
    requires Steps(run, steps) && n < |steps| && Rejects(run[n], run[n + 1], i)
    ensures h < |run[n].handles| && run[n].handles[h].cur == i && k < |run[n].handles[h].readSet|
    ensures BegunAt(run, steps, h, b, n) && Disturbed(run, b, n, run[n].handles[h].readSet[k].loc.obj, h)
  {
    assert Stepped(run, steps, n);
    RejectRefused(run[n], steps[n], i);
    h := steps[n].h;
    k := run[n].handles[h].pc.next;
    b := BeginOf(run, steps, h, n);
    RefusedIsDisturbed(run, steps, h, b, n, run[n].handles[h].readSet[k].loc.obj);
  }

  // ----- nobody is stuck

  /** In every reachable state each handle that runs a transaction can take a step. */
  lemma CanStep(s: State, h: nat) returns (step: Step)
    requires Inv(s) && h < |s.handles| && !s.handles[h].pc.Idle?
    ensures HandleStep(step) && step.h == h && Enabled(s, step)
  {
    Facts(s, h);
    var hd := s.handles[h];
    step := match hd.pc
      case Running => Abort(h)
      case Loaded => Check(h)
      case Locking(_, _) => Cas(h)
      case Failed => Abort(h)
      case UndoNested => if |hd.log| > Last(hd.marks).log then UndoNestedItem(h) else NestedAborted(h)
      case UndoMain => if hd.log != [] then UndoItem(h) else AbortStamp(h)
      case Stamped => Push(h)
      case Validating(next) => if next < |hd.readSet| then Validate(h) else Decide(h)
      case Releasing(_, _) => if hd.acquired != [] then Release(h) else Released(h)
      case Building => Post(h);
  }

  // ----- a transaction that reads, writes and commits

  ghost predicate Moves(s: State, step: Step, s': State) {
    Enabled(s, step) && Do(s, step) == s'
  }

  ghost predicate LeadsBy<S(!new), E>(moves: (S, E, S) -> bool, s: S, steps: seq<E>, s': S)
    decreases |steps|
  {
    if steps == [] then s == s' else exists t :: moves(s, steps[0], t) && LeadsBy(moves, t, steps[1..], s')
  }

  lemma {:induction false} JoinBy<S(!new), E>(moves: (S, E, S) -> bool, s: S, a: seq<E>, t: S, b: seq<E>, s': S)
    requires LeadsBy(moves, s, a, t) && LeadsBy(moves, t, b, s')
    ensures LeadsBy(moves, s, a + b, s')
    decreases |a|
  {
    if a == [] {
      assert a + b == b;
    } else {
      var u :| moves(s, a[0], u) && LeadsBy(moves, u, a[1..], t);
      JoinBy(moves, u, a[1..], t, b, s');
      assert (a + b)[0] == a[0] && (a + b)[1..] == a[1..] + b;
    }
  }

  lemma OneBy<S(!new), E>(moves: (S, E, S) -> bool, s: S, step: E, s': S)
    requires moves(s, step, s')
    ensures LeadsBy(moves, s, [step], s')
  {
    assert [step][1..] == [] && LeadsBy(moves, s', [], s');
  }

  /** The steps can be taken from `s`, one after the other, and lead to `s'`. */
  ghost predicate Leads(s: State, steps: seq<Step>, s': State) {
    LeadsBy((a: State, step: Step, b: State) => Moves(a, step, b), s, steps, s')
  }

  lemma LeadsOne(s: State, step: Step, s': State)
    requires Enabled(s, step) && Do(s, step) == s'
    ensures Leads(s, [step], s')
  {
    OneBy((a: State, step: Step, b: State) => Moves(a, step, b), s, step, s');
  }

  lemma LeadsJoin(s: State, a: seq<Step>, t: State, b: seq<Step>, s': State)
    requires Leads(s, a, t) && Leads(t, b, s')
    ensures Leads(s, a + b, s')
  {
    JoinBy((a: State, step: Step, b: State) => Moves(a, step, b), s, a, t, b, s');
  }

  lemma LeadsNowhere(s: State)
    ensures Leads(s, [], s)
  {
  }

  /** State `s` but for the handle. */
  ghost function With(s: State, h: nat, hd: Handle): State
    requires h < |s.handles|
  {
    s.(handles := s.handles[h := hd])
  }

  lemma BeginAlone(s: State, h: nat)
    requires h < |s.handles| && s.handles[h] == IDLE
    ensures Leads(s, [Begin(h)], With(s, h, IDLE.(start := s.time, pc := Running)))
  {
    LeadsOne(s, Begin(h), With(s, h, IDLE.(start := s.time, pc := Running)));
  }

  lemma LoadAlone(s: State, h: nat, loc: Loc)
    requires h < |s.handles| && s.handles[h].pc.Running?
    ensures var hd := s.handles[h];
      Leads(s, [Load(h, loc)], With(s, h, hd.(pc := Loaded, readSet := hd.readSet + [ReadEv(loc, s.mem[loc], |hd.log|)])))
  {
    var hd := s.handles[h];
    LeadsOne(s, Load(h, loc), With(s, h, hd.(pc := Loaded, readSet := hd.readSet + [ReadEv(loc, s.mem[loc], |hd.log|)])));
  }

  lemma CheckAlone(s: State, h: nat)
    requires h < |s.handles| && s.handles[h].pc.Loaded? && s.handles[h].readSet != []
    requires Passes(s.locks[Last(s.handles[h].readSet).loc.obj], h, s.handles[h].start)
    ensures var hd := s.handles[h]; Leads(s, [Check(h)], With(s, h, hd.(pc := Running, good := |hd.readSet|)))
  {
    var hd := s.handles[h];
    LeadsOne(s, Check(h), With(s, h, hd.(pc := Running, good := |hd.readSet|)));
  }

  lemma ReadLockAlone(s: State, h: nat, o: nat)
    requires h < |s.handles| && s.handles[h].pc.Running? && Passes(s.locks[o], h, s.handles[h].start)
    ensures Leads(s, [ReadLock(h, o)], With(s, h, s.handles[h].(pc := Locking(o, s.locks[o]))))
  {
    LeadsOne(s, ReadLock(h, o), With(s, h, s.handles[h].(pc := Locking(o, s.locks[o]))));
  }

  lemma CasAlone(s: State, h: nat, o: nat)
    requires h < |s.handles| && s.handles[h].pc == Locking(o, s.locks[o]) && s.locks[o].Free?
    ensures var hd := s.handles[h];
      Leads(s, [Cas(h)], With(s, h, hd.(pc := Running, acquired := hd.acquired + [o])).(locks := s.locks[o := Held(h)]))
  {
    var hd := s.handles[h];
    LeadsOne(s, Cas(h), With(s, h, hd.(pc := Running, acquired := hd.acquired + [o])).(locks := s.locks[o := Held(h)]));
  }

  lemma WriteAlone(s: State, h: nat, loc: Loc, val: int)
    requires h < |s.handles| && s.handles[h].pc.Running? && s.locks[loc.obj] == Held(h)
    ensures var hd := s.handles[h];
      Leads(s, [WriteStep(h, loc, val)],
            With(s, h, hd.(log := hd.log + [Wrote(loc, s.mem[loc], val)])).(mem := s.mem[loc := val]))
  {
    var hd := s.handles[h];
    LeadsOne(s, WriteStep(h, loc, val),
             With(s, h, hd.(log := hd.log + [Wrote(loc, s.mem[loc], val)])).(mem := s.mem[loc := val]));
  }

  // ----- the commit

  /** The commit's record. */
  ghost function Attempt(h: nat, hd: Handle, status: Status): Rec {
    Rec(h, hd.start, status, hd.readSet, hd.log)
  }

  lemma StampAlone(s: State, h: nat)
    requires h < |s.handles| && s.handles[h].pc.Running? && s.handles[h].marks == [] && s.handles[h].log != []
    ensures var hd := s.handles[h];
      Leads(s, [CommitStamp(h)],
            With(s, h, hd.(pc := Stamped, cur := |s.hist|)).(time := s.time + 2, hist := s.hist + [Attempt(h, hd, Pending)]))
  {
    var hd := s.handles[h];
    LeadsOne(s, CommitStamp(h),
             With(s, h, hd.(pc := Stamped, cur := |s.hist|)).(time := s.time + 2, hist := s.hist + [Attempt(h, hd, Pending)]));
  }

  lemma PushAlone(s: State, h: nat)
    requires h < |s.handles| && s.handles[h].pc.Stamped?
    ensures var hd := s.handles[h];
      Leads(s, [Push(h)], With(s, h, hd.(pc := Validating(0))).(queue := s.queue + [hd.cur]))
  {
    var hd := s.handles[h];
    LeadsOne(s, Push(h), With(s, h, hd.(pc := Validating(0))).(queue := s.queue + [hd.cur]));
  }

  /** Everything that was read passes. */
  ghost predicate AllPass(s: State, h: nat) {
    && h < |s.handles|
    && forall k :: 0 <= k < |s.handles[h].readSet| ==> Passes(s.locks[s.handles[h].readSet[k].loc.obj], h, s.handles[h].start)
  }

  lemma ValidateOne(s: State, h: nat)
    requires AllPass(s, h) && Enabled(s, Validate(h))
    ensures var hd := s.handles[h]; Leads(s, [Validate(h)], With(s, h, hd.(pc := Validating(hd.pc.next + 1))))
  {
    var hd := s.handles[h];
    LeadsOne(s, Validate(h), With(s, h, hd.(pc := Validating(hd.pc.next + 1))));
  }

  lemma {:induction false} ValidateAlone(s: State, h: nat) returns (steps: seq<Step>)
    requires AllPass(s, h) && s.handles[h].pc.Validating? && s.handles[h].cur < |s.hist|
    requires s.handles[h].pc.next <= |s.handles[h].readSet|
    ensures var hd := s.handles[h]; Leads(s, steps, With(s, h, hd.(pc := Validating(|hd.readSet|))))
    decreases |s.handles[h].readSet| - s.handles[h].pc.next
  {
    var hd := s.handles[h];
    if hd.pc.next == |hd.readSet| {
      steps := [];
      assert With(s, h, hd.(pc := Validating(|hd.readSet|))) == s;
      LeadsNowhere(s);
    } else {
      var t := With(s, h, hd.(pc := Validating(hd.pc.next + 1)));
      ValidateOne(s, h);
      var more := ValidateAlone(t, h);
      var t' := With(s, h, hd.(pc := Validating(|hd.readSet|)));
      assert With(t, h, t.handles[h].(pc := Validating(|hd.readSet|))) == t';
      LeadsJoin(s, [Validate(h)], t, more, t');
      steps := [Validate(h)] + more;
    }
  }

  lemma DecideAlone(s: State, h: nat)
    requires h < |s.handles| && s.handles[h].pc == Validating(|s.handles[h].readSet|) && s.handles[h].cur < |s.hist|
    ensures var hd := s.handles[h];
      Leads(s, [Decide(h)], With(s, h, hd.(pc := Releasing(EndTime(hd.cur), true))).(hist := SetStatus(s.hist, hd.cur, Committed)))
  {
    var hd := s.handles[h];
    LeadsOne(s, Decide(h), With(s, h, hd.(pc := Releasing(EndTime(hd.cur), true))).(hist := SetStatus(s.hist, hd.cur, Committed)));
  }

  lemma ReleaseOne(s: State, h: nat)
    requires h < |s.handles| && s.handles[h].pc.Releasing? && s.handles[h].acquired != []
    ensures var hd := s.handles[h];
      Leads(s, [Release(h)],
            With(s, h, hd.(acquired := DropLast(hd.acquired))).(locks := s.locks[Last(hd.acquired) := Free(hd.pc.end)]))
  {
    var hd := s.handles[h];
    LeadsOne(s, Release(h),
             With(s, h, hd.(acquired := DropLast(hd.acquired))).(locks := s.locks[Last(hd.acquired) := Free(hd.pc.end)]));
  }

  /** The locks after all of `acquired` are released with this version. */
  ghost predicate FreedAs(locks: Locks, acquired: seq<nat>, end: nat, locks': Locks) {
    forall o: nat :: locks'[o] == if o in acquired then Free(end) else locks[o]
  }

  lemma FreedMore(locks: Locks, acquired: seq<nat>, end: nat, locks': Locks)
    requires acquired != [] && FreedAs(locks[Last(acquired) := Free(end)], DropLast(acquired), end, locks')
    ensures FreedAs(locks, acquired, end, locks')
  {
    assert acquired == DropLast(acquired) + [Last(acquired)];
  }

  lemma {:induction false} ReleaseAlone(s: State, h: nat) returns (steps: seq<Step>, locks: Locks)
    requires h < |s.handles| && s.handles[h].pc.Releasing?
    ensures Leads(s, steps, With(s, h, s.handles[h].(acquired := [])).(locks := locks))
    ensures FreedAs(s.locks, s.handles[h].acquired, s.handles[h].pc.end, locks)
    decreases |s.handles[h].acquired|
  {
    var hd := s.handles[h];
    if hd.acquired == [] {
      steps, locks := [], s.locks;
      assert With(s, h, hd.(acquired := [])) == s;
      LeadsNowhere(s);
    } else {
      var t := With(s, h, hd.(acquired := DropLast(hd.acquired))).(locks := s.locks[Last(hd.acquired) := Free(hd.pc.end)]);
      ReleaseOne(s, h);
      var more;
      more, locks := ReleaseAlone(t, h);
      var t' := With(s, h, hd.(acquired := [])).(locks := locks);
      assert With(t, h, t.handles[h].(acquired := [])).(locks := locks) == t';
      LeadsJoin(s, [Release(h)], t, more, t');
      steps := [Release(h)] + more;
      FreedMore(s.locks, hd.acquired, hd.pc.end, locks);
    }
  }

  lemma ReleasedAlone(s: State, h: nat)
    requires h < |s.handles| && s.handles[h].pc.Releasing? && s.handles[h].pc.committed && s.handles[h].acquired == []
    ensures Leads(s, [Released(h)], With(s, h, s.handles[h].(pc := Building)))
  {
    LeadsOne(s, Released(h), With(s, h, s.handles[h].(pc := Building)));
  }

  lemma PostAlone(s: State, h: nat)
    requires h < |s.handles| && s.handles[h].pc.Building?
    ensures Leads(s, [Post(h)], With(s, h, IDLE).(ready := s.ready + {s.handles[h].cur}))
  {
    LeadsOne(s, Post(h), With(s, h, IDLE).(ready := s.ready + {s.handles[h].cur}));
  }

  /** Stamps and queues. */
  lemma QueueAlone(s: State, h: nat) returns (t: State)
    requires h < |s.handles| && s.handles[h].pc.Running? && s.handles[h].marks == [] && s.handles[h].log != []
    ensures var hd := s.handles[h];
      && Leads(s, [CommitStamp(h), Push(h)], t)
      && t == With(s, h, hd.(pc := Validating(0), cur := |s.hist|))
                .(time := s.time + 2, hist := s.hist + [Attempt(h, hd, Pending)], queue := s.queue + [|s.hist|])
  {
    var hd := s.handles[h];
    var s1 := With(s, h, hd.(pc := Stamped, cur := |s.hist|)).(time := s.time + 2, hist := s.hist + [Attempt(h, hd, Pending)]);
    StampAlone(s, h);
    PushAlone(s1, h);
    t := With(s1, h, s1.handles[h].(pc := Validating(0))).(queue := s1.queue + [|s.hist|]);
    assert t.handles == s.handles[h := hd.(pc := Validating(0), cur := |s.hist|)];
    LeadsJoin(s, [CommitStamp(h)], s1, [Push(h)], t);
    assert [CommitStamp(h)] + [Push(h)] == [CommitStamp(h), Push(h)];
  }

  /** Validates and decides. */
  lemma JudgeAlone(s: State, h: nat) returns (steps: seq<Step>, t: State)
    requires AllPass(s, h) && s.handles[h].pc == Validating(0) && s.handles[h].cur < |s.hist|
    ensures var hd := s.handles[h];
      && Leads(s, steps, t)
      && t == With(s, h, hd.(pc := Releasing(EndTime(hd.cur), true))).(hist := SetStatus(s.hist, hd.cur, Committed))
  {
    var hd := s.handles[h];
    steps := ValidateAlone(s, h);
    var s1 := With(s, h, hd.(pc := Validating(|hd.readSet|)));
    DecideAlone(s1, h);
    t := With(s1, h, s1.handles[h].(pc := Releasing(EndTime(hd.cur), true))).(hist := SetStatus(s1.hist, hd.cur, Committed));
    assert t.handles == s.handles[h := hd.(pc := Releasing(EndTime(hd.cur), true))];
    LeadsJoin(s, steps, s1, [Decide(h)], t);
    steps := steps + [Decide(h)];
  }

  /** Releases, builds its record and is done. */
  lemma FinishAlone(s: State, h: nat) returns (steps: seq<Step>, t: State, locks: Locks)
    requires h < |s.handles| && s.handles[h].pc.Releasing? && s.handles[h].pc.committed
    ensures Leads(s, steps, t) && FreedAs(s.locks, s.handles[h].acquired, s.handles[h].pc.end, locks)
    ensures t == With(s, h, IDLE).(locks := locks, ready := s.ready + {s.handles[h].cur})
  {
    var hd := s.handles[h];
    steps, locks := ReleaseAlone(s, h);
    var s1 := With(s, h, hd.(acquired := [])).(locks := locks);
    ReleasedAlone(s1, h);
    var s2 := With(s1, h, s1.handles[h].(pc := Building));
    PostAlone(s2, h);
    t := With(s2, h, IDLE).(ready := s2.ready + {hd.cur});
    assert t.handles == s.handles[h := IDLE];
    LeadsJoin(s, steps, s1, [Released(h)], s2);
    LeadsJoin(s, steps + [Released(h)], s2, [Post(h)], t);
    steps := steps + [Released(h)] + [Post(h)];
  }

  /** A main transaction that has written something, and whose reads pass, can commit by steps of
      its own: its record is committed and queued, its memory stays, its locks get its end time,
      and the handle is idle. */
  lemma CommitAlone(s: State, h: nat) returns (steps: seq<Step>, t: State)
    requires AllPass(s, h) && s.handles[h].pc.Running? && s.handles[h].marks == [] && s.handles[h].log != []
    ensures Leads(s, steps, t) && t.handles == s.handles[h := IDLE] && t.mem == s.mem
    ensures t.hist == s.hist + [Attempt(h, s.handles[h], Committed)] && t.queue == s.queue + [|s.hist|]
    ensures |s.hist| in t.ready && t.time == s.time + 2 && t.dumper == s.dumper
    ensures FreedAs(s.locks, s.handles[h].acquired, EndTime(|s.hist|), t.locks)
  {
    var hd := s.handles[h];
    var s1 := QueueAlone(s, h);
    var middle, s2 := JudgeAlone(s1, h);
    var end, locks;
    end, t, locks := FinishAlone(s2, h);
    assert s2.hist == s.hist + [Attempt(h, hd, Committed)];
    assert s2.handles[h].acquired == hd.acquired;
    assert t.handles == s.handles[h := IDLE];
    LeadsJoin(s, [CommitStamp(h), Push(h)], s1, middle, s2);
    LeadsJoin(s, [CommitStamp(h), Push(h)] + middle, s2, end, t);
    steps := [CommitStamp(h), Push(h)] + middle + end;
  }

  // ----- from the beginning

  lemma ReadsOne(s: State, h: nat, loc: Loc) returns (steps: seq<Step>, t: State)
    requires h < |s.handles| && s.handles[h] == IDLE && s.locks[loc.obj].Free? && s.locks[loc.obj].version <= s.time
    ensures Leads(s, steps, t)
    ensures t == With(s, h, Handle(s.time, Running, [ReadEv(loc, s.mem[loc], 0)], 1, [], [], [], 0))
  {
    var s1 := With(s, h, IDLE.(start := s.time, pc := Running));
    BeginAlone(s, h);
    LoadAlone(s1, h, loc);
    var s2 := With(s1, h, s1.handles[h].(pc := Loaded, readSet := [] + [ReadEv(loc, s.mem[loc], 0)]));
    assert s2.handles[h].readSet == [ReadEv(loc, s.mem[loc], 0)];
    CheckAlone(s2, h);
    t := With(s2, h, s2.handles[h].(pc := Running, good := 1));
    assert t.handles == s.handles[h := Handle(s.time, Running, [ReadEv(loc, s.mem[loc], 0)], 1, [], [], [], 0)];
    LeadsJoin(s, [Begin(h)], s1, [Load(h, loc)], s2);
    LeadsJoin(s, [Begin(h)] + [Load(h, loc)], s2, [Check(h)], t);
    steps := [Begin(h)] + [Load(h, loc)] + [Check(h)];
  }

  lemma LocksOne(s: State, h: nat, o: nat) returns (steps: seq<Step>, t: State)
    requires h < |s.handles| && s.handles[h].pc.Running? && s.handles[h].acquired == []
    requires s.locks[o].Free? && s.locks[o].version <= s.handles[h].start
    ensures Leads(s, steps, t)
    ensures t == With(s, h, s.handles[h].(acquired := [o])).(locks := s.locks[o := Held(h)])
  {
    var hd := s.handles[h];
    ReadLockAlone(s, h, o);
    var s1 := With(s, h, hd.(pc := Locking(o, s.locks[o])));
    CasAlone(s1, h, o);
    t := With(s1, h, s1.handles[h].(pc := Running, acquired := [] + [o])).(locks := s.locks[o := Held(h)]);
    assert [] + [o] == [o];
    assert t.handles == s.handles[h := hd.(acquired := [o])];
    LeadsJoin(s, [ReadLock(h, o)], s1, [Cas(h)], t);
    steps := [ReadLock(h, o)] + [Cas(h)];
  }

  lemma WritesOne(s: State, h: nat, loc: Loc, val: int) returns (steps: seq<Step>, t: State)
    requires h < |s.handles| && s.handles[h].pc.Running? && s.handles[h].acquired == [] && s.handles[h].log == []
    requires s.locks[loc.obj].Free? && s.locks[loc.obj].version <= s.handles[h].start
    ensures Leads(s, steps, t)
    ensures t == With(s, h, s.handles[h].(acquired := [loc.obj], log := [Wrote(loc, s.mem[loc], val)]))
                   .(locks := s.locks[loc.obj := Held(h)], mem := s.mem[loc := val])
  {
    var hd := s.handles[h];
    var s1;
    steps, s1 := LocksOne(s, h, loc.obj);
    WriteAlone(s1, h, loc, val);
    t := With(s1, h, s1.handles[h].(log := [] + [Wrote(loc, s.mem[loc], val)])).(mem := s.mem[loc := val]);
    assert [] + [Wrote(loc, s.mem[loc], val)] == [Wrote(loc, s.mem[loc], val)];
    assert t.handles == s.handles[h := hd.(acquired := [loc.obj], log := [Wrote(loc, s.mem[loc], val)])];
    LeadsJoin(s, steps, s1, [WriteStep(h, loc, val)], t);
    steps := steps + [WriteStep(h, loc, val)];
  }

  /** The state in which the handle is about to commit. */
  lemma ReadsAndWrites(s: State, h: nat, loc: Loc, val: int) returns (steps: seq<Step>, t: State)
    requires h < |s.handles| && s.handles[h] == IDLE && s.locks[loc.obj].Free? && s.locks[loc.obj].version <= s.time
    ensures Leads(s, steps, t)
    ensures t == With(s, h, Handle(s.time, Running, [ReadEv(loc, s.mem[loc], 0)], 1, [loc.obj], [Wrote(loc, s.mem[loc], val)], [], 0))
                   .(locks := s.locks[loc.obj := Held(h)], mem := s.mem[loc := val])
  {
    var s1, more;
    steps, s1 := ReadsOne(s, h, loc);
    more, t := WritesOne(s1, h, loc, val);
    LeadsJoin(s, steps, s1, more, t);
    steps := steps + more;
  }

  /** The state of `ReadsAndWrites`, for a state whose clock and lock fit. */
  lemma ReadyAlone(s: State, h: nat, loc: Loc, val: int) returns (steps: seq<Step>, t: State)
    requires Inv(s) && h < |s.handles| && s.handles[h].pc.Idle? && s.locks[loc.obj].Free?
    ensures Leads(s, steps, t) && AllPass(t, h) && t.mem == s.mem[loc := val] && t.locks == s.locks[loc.obj := Held(h)]
    ensures t.handles == s.handles[h := t.handles[h]] && t.hist == s.hist && t.queue == s.queue && t.time == s.time
    ensures t.handles[h]
         == Handle(s.time, Running, [ReadEv(loc, s.mem[loc], 0)], 1, [loc.obj], [Wrote(loc, s.mem[loc], val)], [], 0)
  {
    Facts(s, h);
    VersionThen(s, loc.obj);
    steps, t := ReadsAndWrites(s, h, loc, val);
  }

  /** From every reachable state, whatever other handles are doing: an idle handle can read a word
      of an object nobody has, write it and commit, by steps of its own. */
  lemma ReadWriteCommit(s: State, h: nat, loc: Loc, val: int) returns (steps: seq<Step>, t: State)
    requires Inv(s) && h < |s.handles| && s.handles[h].pc.Idle? && s.locks[loc.obj].Free?
    ensures Leads(s, steps, t) && t.handles == s.handles && t.mem == s.mem[loc := val]
    ensures t.hist == s.hist + [Rec(h, s.time, Committed, [ReadEv(loc, s.mem[loc], 0)], [Wrote(loc, s.mem[loc], val)])]
    ensures t.queue == s.queue + [|s.hist|] && t.locks[loc.obj] == Free(t.time)
    ensures forall o: nat :: o != loc.obj ==> t.locks[o] == s.locks[o]
  {
    ClockOf(s);
    var first, s1 := ReadyAlone(s, h, loc, val);
    var second;
    second, t := CommitAlone(s1, h);
    IdleAgain(s, h, s1.handles[h], s1.handles);
    LeadsJoin(s, first, s1, second, t);
    steps := first + second;
    FreedOne(s.locks, loc.obj, h, t.time, t.locks);
  }

  lemma IdleAgain(s: State, h: nat, hd: Handle, handles: seq<Handle>)
    requires Inv(s) && h < |s.handles| && s.handles[h].pc.Idle? && handles == s.handles[h := hd]
    ensures handles[h := IDLE] == s.handles
  {
    Facts(s, h);
  }

  lemma FreedOne(locks: Locks, o: nat, h: nat, end: nat, locks': Locks)
    requires FreedAs(locks[o := Held(h)], [o], end, locks')
    ensures locks'[o] == Free(end) && forall u: nat :: u != o ==> locks'[u] == locks[u]
  {
  }

  lemma ClockOf(s: State)
    requires Inv(s)
    ensures s.time + 2 == EndTime(|s.hist|)
  {
  }

  // ----- a handle that nobody disturbs

  /** Only `h` has ever run transactions, none of its attempts to commit was rejected, and the
      objects that are free were released before its transaction began. */
  ghost predicate Lonely(s: State, h: nat) {
    && (forall k :: 0 <= k < |s.handles| && k != h ==> s.handles[k] == IDLE)
    && s.dumper.NoDump? && (h < |s.handles| ==> !s.handles[h].pc.Failed?)
    && (forall i :: 0 <= i < |s.hist| && s.hist[i].status.Rejected? ==> s.hist[i].log == [])
    && (h < |s.handles| && Active(s.handles[h].pc) ==> Fresh(s, s.handles[h].start))
  }

  /** Free objects have versions up to `start`. */
  ghost predicate Fresh(s: State, start: nat) {
    forall o: nat :: s.locks[o].Free? ==> s.locks[o].version <= start
  }

  /** Every test of the handle passes. */
  lemma LonelyPasses(s: State, h: nat, o: nat)
    requires Inv(s) && Lonely(s, h) && h < |s.handles| && Active(s.handles[h].pc)
    ensures Passes(s.locks[o], h, s.handles[h].start)
  {
    assert LockOk(s, o);
  }

  ghost predicate Own(step: Step, h: nat) {
    HandleStep(step) && step.h == h
  }

  lemma FreshAtBegin(s: State)
    requires Inv(s)
    ensures Fresh(s, s.time)
  {
    forall o: nat | s.locks[o].Free? ensures s.locks[o].version <= s.time {
      VersionThen(s, o);
    }
  }

  lemma LocksLonely(s: State, h: nat, step: Step)
    requires Enabled(s, step) && Own(step, h) && !step.Begin? && !step.Release?
    ensures forall o: nat :: Do(s, step).locks[o].Free? ==> s.locks[o] == Do(s, step).locks[o]
    ensures Do(s, step).dumper == s.dumper
  {
  }

  lemma ActiveBefore(s: State, h: nat, step: Step)
    requires Enabled(s, step) && Own(step, h) && !step.Begin? && Active(DoHandle(s, step).pc)
    ensures Active(s.handles[h].pc) && !step.Release?
  {
  }

  lemma BeginIs(s: State, h: nat)
    requires Enabled(s, Begin(h))
    ensures Do(s, Begin(h)).locks == s.locks && DoHandle(s, Begin(h)).start == s.time
  {
  }

  lemma FreshStays(s: State, h: nat, step: Step)
    requires Enabled(s, step) && Own(step, h) && !step.Begin? && !step.Release? && Fresh(s, s.handles[h].start)
    ensures Fresh(Do(s, step), s.handles[h].start)
  {
    LocksLonely(s, h, step);
  }

  lemma StartSame(s: State, h: nat, step: Step)
    requires Enabled(s, step) && Own(step, h) && !step.Begin? && !DoHandle(s, step).pc.Idle?
    ensures DoHandle(s, step).start == s.handles[h].start
  {
    OthersSame(s, h, step);
    StartMoves(s, step, h);
  }

  lemma LonelyFresh(s: State, h: nat, step: Step)
    requires Inv(s) && Lonely(s, h) && Enabled(s, step) && Own(step, h) && Active(DoHandle(s, step).pc)
    ensures Fresh(Do(s, step), DoHandle(s, step).start)
  {
    if step.Begin? {
      FreshAtBegin(s);
      BeginIs(s, h);
    } else {
      ActiveBefore(s, h, step);
      FreshStays(s, h, step);
      StartSame(s, h, step);
    }
  }

  lemma DumperSame(s: State, step: Step)
    requires Enabled(s, step) && HandleStep(step)
    ensures Do(s, step).dumper == s.dumper
  {
  }

  lemma FailedOnly(s: State, step: Step)
    requires Enabled(s, step) && HandleStep(step) && DoHandle(s, step).pc.Failed?
    ensures var hd := s.handles[step.h];
      || (step.Check? && !Passes(s.locks[Last(hd.readSet).loc.obj], step.h, hd.start) && hd.pc.Loaded?)
      || (step.ReadLock? && !Passes(s.locks[step.obj], step.h, hd.start) && hd.pc.Running?)
  {
    if !Accesses(step) {
      OthersPass(s, step);
    }
  }

  lemma OthersPass(s: State, step: Step)
    requires Enabled(s, step) && HandleStep(step) && !Accesses(step)
    ensures !DoHandle(s, step).pc.Failed?
  {
  }

  lemma LonelyNotFailed(s: State, h: nat, step: Step)
    requires Inv(s) && Lonely(s, h) && Enabled(s, step) && Own(step, h)
    ensures !DoHandle(s, step).pc.Failed?
  {
    if DoHandle(s, step).pc.Failed? {
      FailedOnly(s, step);
      if step.Check? {
        LonelyPasses(s, h, Last(s.handles[h].readSet).loc.obj);
      } else {
        LonelyPasses(s, h, step.obj);
      }
    }
  }

  /** A record that a step leaves rejected was so before, is new and empty, or is rejected now. */
  lemma RejectedBefore(s: State, step: Step, i: nat)
    requires Enabled(s, step) && i < |Do(s, step).hist| && Do(s, step).hist[i].status.Rejected?
    ensures (i < |s.hist| && s.hist[i] == Do(s, step).hist[i]) || Do(s, step).hist[i].log == []
      || (step.Validate? && !Validates(s, step.h))
  {
  }

  lemma LonelyRecords(s: State, h: nat, step: Step)
    requires Inv(s) && Lonely(s, h) && Enabled(s, step) && Own(step, h)
    ensures forall i :: 0 <= i < |Do(s, step).hist| && Do(s, step).hist[i].status.Rejected? ==> Do(s, step).hist[i].log == []
  {
    forall i | 0 <= i < |Do(s, step).hist| && Do(s, step).hist[i].status.Rejected? ensures Do(s, step).hist[i].log == [] {
      RejectedBefore(s, step, i);
      if step.Validate? {
        LonelyPasses(s, h, NextRead(s.handles[h]));
      }
    }
  }

  lemma OthersSame(s: State, h: nat, step: Step)
    requires Enabled(s, step) && Own(step, h)
    ensures h < |s.handles| && Do(s, step).handles == s.handles[h := DoHandle(s, step)]
  {
  }

  lemma LonelyStep(s: State, h: nat, step: Step)
    requires Inv(s) && Lonely(s, h) && Enabled(s, step) && Own(step, h)
    ensures Lonely(Do(s, step), h)
  {
    OthersSame(s, h, step);
    DumperSame(s, step);
    if Active(DoHandle(s, step).pc) {
      LonelyFresh(s, h, step);
    }
    LonelyNotFailed(s, h, step);
    LonelyRecords(s, h, step);
  }

  lemma LonelyProcess(s: State, h: nat)
    requires Lonely(s, h) && Enabled(s, Process)
    ensures Lonely(Do(s, Process), h)
  {
  }

  /** In a run in which only one handle and the service thread take steps, no check and no lock
      of the handle ever fails, and no attempt to commit is rejected. */
  lemma {:induction false} AloneNothingFails(run: seq<State>, steps: seq<Step>, h: nat, n: nat)
    requires Steps(run, steps) && n < |run|
    requires forall i :: 0 <= i < n ==> Own(steps[i], h) || steps[i].Process?
    ensures Lonely(run[n], h)
  {
    if n == 0 {
      assert forall k :: 0 <= k < |run[0].handles| ==> run[0].handles[k] == IDLE;
    } else {
      AloneNothingFails(run, steps, h, n - 1);
      AllHold(run, steps, n - 1);
      LonelyAt(run, steps, h, n - 1, n);
    }
  }

  lemma LonelyAt(run: seq<State>, steps: seq<Step>, h: nat, n: nat, m: nat)
    requires |run| == |steps| + 1 && n < |steps| && m == n + 1 && Stepped(run, steps, n) && Holds(run, n)
    requires Lonely(run[n], h) && (Own(steps[n], h) || steps[n].Process?)
    ensures Lonely(run[m], h)
  {
    if steps[n].Process? {
      LonelyProcess(run[n], h);
    } else {
      LonelyStep(run[n], h, steps[n]);
    }
  }
}
