/** What a handle may conclude when a semaphore lets it go on.

    A handle that commits synchronously waits on `write_finished`, and one that commits
    asynchronously on `pending_transactions`, which starts at the number of transactions that
    may be under way.  The service thread posts a job's semaphore when it has processed the job,
    and it does so too for a commit that failed validation, whose handle did not wait.  The
    queue is a sequence here; that the linked list behaves like one, that a synchronous job
    finds all records before it in the file, and that these stay, is in `ServiceQueue`. */
module Waits {

  const MAX_PENDING: nat := 128

  datatype Kind =
    | Sync      // a commit that waits for the file
    | Async     // a commit that does not
    | Flush     // the message of a synchronous commit that only read

  /** What became of a commit attempt. */
  datatype Outcome = Undecided | Lost | Kept

  datatype Job = Job(h: nat, kind: Kind, outcome: Outcome)

  datatype Pc = Idle | Deciding(q: nat) | Waiting(q: nat) | Gone

  datatype Handle = Handle(
    pc: Pc,
    finished: nat,      // the value of `write_finished`
    pending: nat,       // the value of `pending_transactions`
    syncs: nat,         // history: waits on the first that returned,
    asyncs: nat)        // and on the second

  datatype State = State(
    queue: seq<Job>,
    done: nat,          // jobs that were processed
    durable: nat,       // jobs whose records are in the file, whatever happens
    handles: seq<Handle>)

  datatype Step =
    | Submit(h: nat, kind: Kind)   // the job is in the queue
    | Keep(h: nat)                 // validation succeeds, the record is ready
    | Lose(h: nat)                 // validation fails: `ready` is posted, and the handle aborts
    | Process
    | Settle(n: nat)               // more of the write buffer gets to the file
    | Return(h: nat)               // the wait ends
    | Destroy(h: nat)              // `db_handle_destroy`, with all its waits

  predicate At(s: State, h: nat) {
    h < |s.handles|
  }

  /** The job posts `write_finished`. */
  predicate Posts(kind: Kind, sync: bool) {
    sync <==> !kind.Async?
  }

  /** The job that the handle is committing. */
  predicate Committing(s: State, h: nat) {
    At(s, h) && s.handles[h].pc.Deciding? && s.handles[h].pc.q < |s.queue|
  }

  function Tokens(hd: Handle, sync: bool): nat {
    if sync then hd.finished else hd.pending
  }

  /** The wait of the handle can return. */
  predicate CanReturn(s: State, h: nat) {
    && At(s, h) && s.handles[h].pc.Waiting? && s.handles[h].pc.q < |s.queue|
    && Tokens(s.handles[h], !s.queue[s.handles[h].pc.q].kind.Async?) > 0
  }

  predicate CanDestroy(s: State, h: nat) {
    At(s, h) && s.handles[h].pc.Idle? && s.handles[h].pending >= MAX_PENDING
  }

  predicate Enabled(s: State, step: Step) {
    match step
    case Submit(h, _) => At(s, h) && s.handles[h].pc.Idle?
    case Keep(h) => Committing(s, h)
    case Lose(h) => Committing(s, h)
    case Process => s.done < |s.queue| && !s.queue[s.done].outcome.Undecided? && At(s, s.queue[s.done].h)
    case Settle(n) => s.durable <= n <= s.done
    case Return(h) => CanReturn(s, h)
    case Destroy(h) => CanDestroy(s, h)
  }

  function Posted(hd: Handle, sync: bool): Handle {
    if sync then hd.(finished := hd.finished + 1) else hd.(pending := hd.pending + 1)
  }

  function Taken(hd: Handle, sync: bool): Handle
    requires Tokens(hd, sync) > 0
  {
    if sync then hd.(pc := Idle, finished := hd.finished - 1, syncs := hd.syncs + 1)
    else hd.(pc := Idle, pending := hd.pending - 1, asyncs := hd.asyncs + 1)
  }

  function Do(s: State, step: Step): State
    requires Enabled(s, step)
  {
    match step
    case Submit(h, kind) =>
      var q := |s.queue|;
      s.(queue := s.queue + [Job(h, kind, if kind.Flush? then Kept else Undecided)],
         handles := s.handles[h := s.handles[h].(pc := if kind.Flush? then Waiting(q) else Deciding(q))])
    case Keep(h) =>
      var q := s.handles[h].pc.q;
      s.(queue := s.queue[q := s.queue[q].(outcome := Kept)], handles := s.handles[h := s.handles[h].(pc := Waiting(q))])
    case Lose(h) =>
      var q := s.handles[h].pc.q;
      s.(queue := s.queue[q := s.queue[q].(outcome := Lost)], handles := s.handles[h := s.handles[h].(pc := Idle)])
    case Process =>
      var job := s.queue[s.done];
      s.(done := s.done + 1, durable := if job.kind.Async? then s.durable else s.done + 1,
         handles := s.handles[job.h := Posted(s.handles[job.h], !job.kind.Async?)])
    case Settle(n) => s.(durable := n)
    case Return(h) => s.(handles := s.handles[h := Taken(s.handles[h], !s.queue[s.handles[h].pc.q].kind.Async?)])
    case Destroy(h) =>
      s.(handles := s.handles[h := s.handles[h].(pc := Gone, pending := s.handles[h].pending - MAX_PENDING)])
  }

  ghost predicate Init(s: State) {
    && s.queue == [] && s.done == 0 && s.durable == 0
    && forall h :: 0 <= h < |s.handles| ==> s.handles[h] == Handle(Idle, 0, MAX_PENDING, 0, 0)
  }

  /** The steps can be taken one after the other. */
  predicate Path(s: State, steps: seq<Step>)
    decreases |steps|
  {
    steps == [] || (Enabled(s, steps[0]) && Path(Do(s, steps[0]), steps[1..]))
  }

  function Final(s: State, steps: seq<Step>): State
    requires Path(s, steps)
    decreases |steps|
  {
    if steps == [] then s else Final(Do(s, steps[0]), steps[1..])
  }

  ghost predicate Reachable(s: State) {
    exists s0, steps :: Init(s0) && Path(s0, steps) && Final(s0, steps) == s
  }

  // ----- counting jobs

  function Tally<T>(p: T -> bool, s: seq<T>): nat {
    if s == [] then 0 else Tally(p, s[..|s| - 1]) + if p(s[|s| - 1]) then 1 else 0
  }

  lemma TallyOne<T>(p: T -> bool, s: seq<T>, x: T)
    ensures Tally(p, s + [x]) == Tally(p, s) + if p(x) then 1 else 0
  {
    assert (s + [x])[..|s|] == s;
  }

  lemma {:induction false} TallyJoin<T>(p: T -> bool, s: seq<T>, t: seq<T>)
    ensures Tally(p, s + t) == Tally(p, s) + Tally(p, t)
  {
    if t == [] {
      assert s + t == s;
    } else {
      TallyJoin(p, s, t[..|t| - 1]);
      assert (s + t)[..|s + t| - 1] == s + t[..|t| - 1];
    }
  }

  lemma {:induction false} TallyUpdate<T>(p: T -> bool, s: seq<T>, i: nat, x: T)
    requires i < |s|
    ensures Tally(p, s[i := x]) + (if p(s[i]) then 1 else 0) == Tally(p, s) + if p(x) then 1 else 0
  {
    var n := |s| - 1;
    if i == n {
      assert s[i := x][..n] == s[..n];
    } else {
      TallyUpdate(p, s[..n], i, x);
      assert s[i := x][..n] == s[..n][i := x];
    }
  }

  lemma {:induction false} TallyNone<T>(p: T -> bool, s: seq<T>)
    requires forall i :: 0 <= i < |s| ==> !p(s[i])
    ensures Tally(p, s) == 0
  {
    if s != [] {
      TallyNone(p, s[..|s| - 1]);
    }
  }

  lemma TallySome<T>(p: T -> bool, s: seq<T>, i: nat)
    requires i < |s| && p(s[i])
    ensures Tally(p, s) >= 1
  {
    TallyJoin(p, s[..i + 1], s[i + 1..]);
    assert s[..i + 1] + s[i + 1..] == s && s[..i + 1][..i] == s[..i];
  }

  /** Jobs that post this semaphore of this handle. */
  function On(h: nat, sync: bool): Job -> bool {
    (job: Job) => job.h == h && Posts(job.kind, sync)
  }

  function LostOn(h: nat, sync: bool): Job -> bool {
    (job: Job) => job.h == h && Posts(job.kind, sync) && job.outcome.Lost?
  }

  /** The attempts that failed so far. */
  function Failed(s: State, h: nat, sync: bool): nat {
    Tally(LostOn(h, sync), s.queue)
  }

  // ----- the invariant

  /** A semaphore holds what was posted and not taken; every job of the handle was waited for,
      failed, or is the current one. */
  ghost predicate SemOk(queue: seq<Job>, done: nat, h: nat, sync: bool, tokens: nat, returned: nat, base: nat, busy: nat)
    requires done <= |queue|
  {
    && tokens + returned == base + Tally(On(h, sync), queue[..done])
    && Tally(On(h, sync), queue) == returned + Tally(LostOn(h, sync), queue) + busy
  }

  lemma SemSubmit(queue: seq<Job>, done: nat, h: nat, sync: bool, tokens: nat, returned: nat, base: nat, job: Job)
    requires done <= |queue| && SemOk(queue, done, h, sync, tokens, returned, base, 0) && !job.outcome.Lost?
    ensures SemOk(queue + [job], done, h, sync, tokens, returned, base, if On(h, sync)(job) then 1 else 0)
  {
    TallyOne(On(h, sync), queue, job);
    TallyOne(LostOn(h, sync), queue, job);
    assert (queue + [job])[..done] == queue[..done];
  }

  /** Another handle's job comes. */
  lemma SemOther(queue: seq<Job>, done: nat, h: nat, sync: bool, tokens: nat, returned: nat, base: nat, busy: nat, job: Job)
    requires done <= |queue| && SemOk(queue, done, h, sync, tokens, returned, base, busy) && job.h != h
    ensures SemOk(queue + [job], done, h, sync, tokens, returned, base, busy)
  {
    TallyOne(On(h, sync), queue, job);
    TallyOne(LostOn(h, sync), queue, job);
    assert (queue + [job])[..done] == queue[..done];
  }

  /** A job is decided. */
  lemma SemDecide(queue: seq<Job>, done: nat, h: nat, sync: bool, tokens: nat, returned: nat, base: nat, busy: nat, busy': nat,
      q: nat, outcome: Outcome)
    requires done <= |queue| && SemOk(queue, done, h, sync, tokens, returned, base, busy)
    requires q < |queue| && !queue[q].outcome.Lost?
    requires busy == busy' + if On(h, sync)(queue[q]) && outcome.Lost? then 1 else 0
    ensures SemOk(queue[q := queue[q].(outcome := outcome)], done, h, sync, tokens, returned, base, busy')
  {
    var job := queue[q].(outcome := outcome);
    TallyUpdate(On(h, sync), queue, q, job);
    TallyUpdate(LostOn(h, sync), queue, q, job);
    if q < done {
      TallyUpdate(On(h, sync), queue[..done], q, job);
      assert queue[q := job][..done] == queue[..done][q := job];
    } else {
      assert queue[q := job][..done] == queue[..done];
    }
  }

  lemma SemProcess(queue: seq<Job>, done: nat, h: nat, sync: bool, tokens: nat, returned: nat, base: nat, busy: nat)
    requires done < |queue| && SemOk(queue, done, h, sync, tokens, returned, base, busy)
    ensures SemOk(queue, done + 1, h, sync, if On(h, sync)(queue[done]) then tokens + 1 else tokens, returned, base, busy)
  {
    TallyOne(On(h, sync), queue[..done], queue[done]);
    assert queue[..done] + [queue[done]] == queue[..done + 1];
  }

  /** The handle's last job. */
  predicate Latest(queue: seq<Job>, h: nat, q: nat) {
    q < |queue| && queue[q].h == h && forall j :: q < j < |queue| ==> queue[j].h != h
  }

  predicate PcOk(queue: seq<Job>, pc: Pc, h: nat) {
    match pc
    case Deciding(q) => Latest(queue, h, q) && queue[q].outcome.Undecided? && !queue[q].kind.Flush?
    case Waiting(q) => Latest(queue, h, q) && queue[q].outcome.Kept?
    case _ => true
  }

  predicate Current(queue: seq<Job>, pc: Pc, sync: bool) {
    (pc.Deciding? || pc.Waiting?) && pc.q < |queue| && Posts(queue[pc.q].kind, sync)
  }

  function Busy(queue: seq<Job>, pc: Pc, sync: bool): nat {
    if Current(queue, pc, sync) then 1 else 0
  }

  ghost predicate HandleOk(queue: seq<Job>, done: nat, hd: Handle, h: nat)
    requires done <= |queue|
  {
    && PcOk(queue, hd.pc, h)
    && SemOk(queue, done, h, true, hd.finished, hd.syncs, 0, Busy(queue, hd.pc, true))
    && SemOk(queue, done, h, false, hd.pending, hd.asyncs, if hd.pc.Gone? then 0 else MAX_PENDING, Busy(queue, hd.pc, false))
  }

  ghost predicate JobsOk(s: State) {
    && s.durable <= s.done <= |s.queue|
    && (forall i :: 0 <= i < |s.queue| ==> s.queue[i].h < |s.handles|)
    && (forall i :: 0 <= i < |s.queue| && s.queue[i].outcome.Undecided? ==>
          i >= s.done && s.queue[i].h < |s.handles| && s.handles[s.queue[i].h].pc == Deciding(i))
    && (forall i :: 0 <= i < s.done && !s.queue[i].kind.Async? ==> i < s.durable)
  }

  ghost predicate Inv(s: State) {
    JobsOk(s) && forall h :: 0 <= h < |s.handles| ==> HandleOk(s.queue, s.done, s.handles[h], h)
  }

  lemma InitInv(s: State)
    requires Init(s)
    ensures Inv(s)
  {
  }

  lemma SubmitJobs(s: State, h: nat, kind: Kind)
    requires Inv(s) && Enabled(s, Submit(h, kind))
    ensures JobsOk(Do(s, Submit(h, kind)))
  {
    var s' := Do(s, Submit(h, kind));
    forall i | 0 <= i < |s'.queue| && s'.queue[i].outcome.Undecided?
      ensures i >= s'.done && s'.handles[s'.queue[i].h].pc == Deciding(i)
    {
      if i < |s.queue| {
        assert s'.queue[i] == s.queue[i];
      }
    }
  }

  lemma OwnSubmit(queue: seq<Job>, done: nat, hd: Handle, h: nat, job: Job, pc': Pc)
    requires done <= |queue| && HandleOk(queue, done, hd, h) && hd.pc.Idle? && job.h == h && !job.outcome.Lost?
    requires pc' == if job.kind.Flush? then Waiting(|queue|) else Deciding(|queue|)
    requires job.outcome == if job.kind.Flush? then Kept else Undecided
    ensures HandleOk(queue + [job], done, hd.(pc := pc'), h)
  {
    SemSubmit(queue, done, h, true, hd.finished, hd.syncs, 0, job);
    SemSubmit(queue, done, h, false, hd.pending, hd.asyncs, MAX_PENDING, job);
  }

  lemma SubmitKept(s: State, h: nat, kind: Kind)
    requires Inv(s) && Enabled(s, Submit(h, kind))
    ensures Inv(Do(s, Submit(h, kind)))
  {
    var s', hd := Do(s, Submit(h, kind)), s.handles[h];
    var job := s'.queue[|s.queue|];
    SubmitJobs(s, h, kind);
    forall k | 0 <= k < |s'.handles| ensures HandleOk(s'.queue, s'.done, s'.handles[k], k) {
      assert HandleOk(s.queue, s.done, s.handles[k], k);
      if k == h {
        OwnSubmit(s.queue, s.done, hd, h, job, s'.handles[h].pc);
      } else {
        OtherSubmit(s.queue, s.done, s.handles[k], k, job);
      }
    }
  }

  lemma OtherSubmit(queue: seq<Job>, done: nat, hd: Handle, h: nat, job: Job)
    requires done <= |queue| && HandleOk(queue, done, hd, h) && job.h != h
    ensures HandleOk(queue + [job], done, hd, h)
  {
    SemOther(queue, done, h, true, hd.finished, hd.syncs, 0, Busy(queue, hd.pc, true), job);
    SemOther(queue, done, h, false, hd.pending, hd.asyncs, if hd.pc.Gone? then 0 else MAX_PENDING,
             Busy(queue, hd.pc, false), job);
  }

  /** Validation succeeds or fails. */
  lemma DecideKept(s: State, h: nat, step: Step)
    requires Inv(s) && Enabled(s, step) && (step == Keep(h) || step == Lose(h))
    ensures Inv(Do(s, step))
  {
    var s', hd, q := Do(s, step), s.handles[h], s.handles[h].pc.q;
    var outcome := if step == Lose(h) then Lost else Kept;
    assert HandleOk(s.queue, s.done, hd, h);
    assert s'.queue == s.queue[q := s.queue[q].(outcome := outcome)];
    forall k | 0 <= k < |s'.handles| ensures HandleOk(s'.queue, s'.done, s'.handles[k], k) {
      assert HandleOk(s.queue, s.done, s.handles[k], k);
      HandleDecide(s.queue, s.done, s.handles[k], k, q, outcome, s'.handles[k].pc);
    }
  }

  lemma HandleDecide(queue: seq<Job>, done: nat, hd: Handle, h: nat, q: nat, outcome: Outcome, pc': Pc)
    requires done <= |queue| && HandleOk(queue, done, hd, h) && q < |queue| && queue[q].outcome.Undecided?
    requires outcome.Lost? || outcome.Kept?
    requires if queue[q].h != h then pc' == hd.pc
             else hd.pc == Deciding(q) && pc' == if outcome.Lost? then Idle else Waiting(q)
    ensures HandleOk(queue[q := queue[q].(outcome := outcome)], done, hd.(pc := pc'), h)
  {
    var queue' := queue[q := queue[q].(outcome := outcome)];
    SemDecide(queue, done, h, true, hd.finished, hd.syncs, 0, Busy(queue, hd.pc, true), Busy(queue', pc', true), q, outcome);
    SemDecide(queue, done, h, false, hd.pending, hd.asyncs, if hd.pc.Gone? then 0 else MAX_PENDING,
              Busy(queue, hd.pc, false), Busy(queue', pc', false), q, outcome);
  }

  lemma HandleProcess(queue: seq<Job>, done: nat, hd: Handle, h: nat)
    requires done < |queue| && HandleOk(queue, done, hd, h)
    ensures HandleOk(queue, done + 1, if queue[done].h == h then Posted(hd, !queue[done].kind.Async?) else hd, h)
  {
    SemProcess(queue, done, h, true, hd.finished, hd.syncs, 0, Busy(queue, hd.pc, true));
    SemProcess(queue, done, h, false, hd.pending, hd.asyncs, if hd.pc.Gone? then 0 else MAX_PENDING,
               Busy(queue, hd.pc, false));
  }

  lemma ProcessJobs(s: State)
    requires Inv(s) && Enabled(s, Process)
    ensures JobsOk(Do(s, Process))
  {
  }

  lemma ProcessKept(s: State)
    requires Inv(s) && Enabled(s, Process)
    ensures Inv(Do(s, Process))
  {
    var s' := Do(s, Process);
    ProcessJobs(s);
    forall k | 0 <= k < |s'.handles| ensures HandleOk(s'.queue, s'.done, s'.handles[k], k) {
      assert HandleOk(s.queue, s.done, s.handles[k], k);
      HandleProcess(s.queue, s.done, s.handles[k], k);
    }
  }

  lemma ReturnKept(s: State, h: nat)
    requires Inv(s) && Enabled(s, Return(h))
    ensures Inv(Do(s, Return(h)))
  {
    var s' := Do(s, Return(h));
    assert HandleOk(s.queue, s.done, s.handles[h], h);
    forall k | 0 <= k < |s'.handles| ensures HandleOk(s'.queue, s'.done, s'.handles[k], k) {
      assert HandleOk(s.queue, s.done, s.handles[k], k);
    }
  }

  lemma DestroyKept(s: State, h: nat)
    requires Inv(s) && Enabled(s, Destroy(h))
    ensures Inv(Do(s, Destroy(h)))
  {
    var s' := Do(s, Destroy(h));
    assert HandleOk(s.queue, s.done, s.handles[h], h);
    forall k | 0 <= k < |s'.handles| ensures HandleOk(s'.queue, s'.done, s'.handles[k], k) {
      assert HandleOk(s.queue, s.done, s.handles[k], k);
    }
  }

  /** The invariant is kept by every step of the handles and of the service thread. */
  lemma StepKept(s: State, step: Step)
    requires Inv(s) && Enabled(s, step)
    ensures Inv(Do(s, step))
  {
    match step {
      case Submit(h, kind) => SubmitKept(s, h, kind);
      case Keep(h) => DecideKept(s, h, step);
      case Lose(h) => DecideKept(s, h, step);
      case Process => ProcessKept(s);
      case Settle(n) =>
        forall k | 0 <= k < |s.handles| ensures HandleOk(s.queue, s.done, s.handles[k], k) {
        }
      case Return(h) => ReturnKept(s, h);
      case Destroy(h) => DestroyKept(s, h);
    }
  }

  lemma {:induction false} PathInv(s: State, steps: seq<Step>)
    requires Inv(s) && Path(s, steps)
    ensures Inv(Final(s, steps)) && |Final(s, steps).handles| == |s.handles|
    decreases |steps|
  {
    if steps != [] {
      StepKept(s, steps[0]);
      PathInv(Do(s, steps[0]), steps[1..]);
    }
  }

  lemma ReachableInv(s: State)
    requires Reachable(s)
    ensures Inv(s)
  {
    var s0, steps :| Init(s0) && Path(s0, steps) && Final(s0, steps) == s;
    InitInv(s0);
    PathInv(s0, steps);
  }

  // ----- what a return means

  /** All jobs of a handle that post one of its semaphores are processed. */
  predicate AllDone(s: State, h: nat, sync: bool) {
    forall i :: 0 <= i < |s.queue| && i >= s.done ==> !On(h, sync)(s.queue[i])
  }

  /** All of them are processed exactly when as many of them were as there are. */
  lemma AllDoneIff(s: State, h: nat, sync: bool)
    requires s.done <= |s.queue|
    ensures AllDone(s, h, sync) <==> Tally(On(h, sync), s.queue[..s.done]) == Tally(On(h, sync), s.queue)
  {
    var front, rest := s.queue[..s.done], s.queue[s.done..];
    assert s.queue == front + rest;
    TallyJoin(On(h, sync), front, rest);
    if AllDone(s, h, sync) {
      TallyNone(On(h, sync), rest);
    } else {
      var i :| 0 <= i < |s.queue| && i >= s.done && On(h, sync)(s.queue[i]);
      TallySome(On(h, sync), rest, i - s.done);
    }
  }

  /** The wait of a synchronous commit returns after its own job was processed if and only if the
      semaphore holds one more than the number of attempts of this handle that failed; and then
      the job's record and all before it are in the file. */
  lemma SyncReturnIff(s: State, h: nat)
    requires Reachable(s) && At(s, h) && s.handles[h].pc.Waiting?
    ensures s.handles[h].pc.q < |s.queue|
    ensures var q := s.handles[h].pc.q; !s.queue[q].kind.Async? ==>
      && (q < s.done <==> s.handles[h].finished == Failed(s, h, true) + 1)
      && (q < s.done <==> q < s.durable)
  {
    ReachableInv(s);
    var hd, q := s.handles[h], s.handles[h].pc.q;
    assert HandleOk(s.queue, s.done, hd, h);
    if !s.queue[q].kind.Async? {
      AllDoneIff(s, h, true);
      assert On(h, true)(s.queue[q]);
    }
  }

  /** A handle none of whose synchronous attempts failed can rely on its waits. */
  lemma SyncReturnDurable(s: State, h: nat)
    requires Reachable(s) && CanReturn(s, h) && !s.queue[s.handles[h].pc.q].kind.Async? && Failed(s, h, true) == 0
    ensures s.handles[h].pc.q < s.durable
  {
    SyncReturnIff(s, h);
    ReachableInv(s);
    assert HandleOk(s.queue, s.done, s.handles[h], h);
    TallyPrefix(On(h, true), s.queue, s.done);
  }

  lemma TallyPrefix<T>(p: T -> bool, s: seq<T>, n: nat)
    requires n <= |s|
    ensures Tally(p, s[..n]) <= Tally(p, s)
  {
    TallyJoin(p, s[..n], s[n..]);
    assert s == s[..n] + s[n..];
  }

  /** When a handle is idle, all its jobs are processed if and only if its semaphores hold one
      more than at the start for each attempt that failed. */
  lemma IdleDoneIff(s: State, h: nat)
    requires Reachable(s) && At(s, h) && s.handles[h].pc.Idle?
    ensures AllDone(s, h, true) <==> s.handles[h].finished == Failed(s, h, true)
    ensures AllDone(s, h, false) <==> s.handles[h].pending == MAX_PENDING + Failed(s, h, false)
  {
    ReachableInv(s);
    assert HandleOk(s.queue, s.done, s.handles[h], h);
    AllDoneIff(s, h, true);
    AllDoneIff(s, h, false);
  }

  // ----- what may be relied on in advance

  lemma {:induction false} PathJoin(s: State, a: seq<Step>, b: seq<Step>)
    requires Path(s, a) && Path(Final(s, a), b)
    ensures Path(s, a + b) && Final(s, a + b) == Final(Final(s, a), b)
    decreases |a|
  {
    if a == [] {
      assert a + b == b;
    } else {
      PathJoin(Do(s, a[0]), a[1..], b);
      assert (a + b)[1..] == a[1..] + b;
    }
  }

  lemma ReachableOn(s: State, steps: seq<Step>)
    requires Reachable(s) && Path(s, steps)
    ensures Reachable(Final(s, steps))
  {
    var s0, before :| Init(s0) && Path(s0, before) && Final(s0, before) == s;
    PathJoin(s0, before, steps);
  }

  /** Only a failed attempt of the handle changes the number of its failed attempts. */
  lemma FailedStep(s: State, step: Step, h: nat, sync: bool)
    requires Inv(s) && Enabled(s, step) && step != Lose(h)
    ensures Failed(Do(s, step), h, sync) == Failed(s, h, sync)
  {
    match step
    case Submit(k, kind) => TallyOne(LostOn(h, sync), s.queue, Do(s, step).queue[|s.queue|]);
    case Keep(k) =>
      assert HandleOk(s.queue, s.done, s.handles[k], k);
      TallyUpdate(LostOn(h, sync), s.queue, s.handles[k].pc.q, s.queue[s.handles[k].pc.q].(outcome := Kept));
    case Lose(k) =>
      assert HandleOk(s.queue, s.done, s.handles[k], k);
      TallyUpdate(LostOn(h, sync), s.queue, s.handles[k].pc.q, s.queue[s.handles[k].pc.q].(outcome := Lost));
    case _ =>
  }

  lemma {:induction false} FailedSame(s: State, steps: seq<Step>, h: nat, sync: bool)
    requires Inv(s) && Path(s, steps) && Lose(h) !in steps
    ensures Failed(Final(s, steps), h, sync) == Failed(s, h, sync)
    decreases |steps|
  {
    if steps != [] {
      FailedStep(s, steps[0], h, sync);
      StepKept(s, steps[0]);
      FailedSame(Do(s, steps[0]), steps[1..], h, sync);
    }
  }

  /** Others finish their commits and the service thread all jobs, while `h` does nothing. */
  lemma {:induction false} Drain(s: State, h: nat) returns (steps: seq<Step>)
    requires Inv(s) && At(s, h) && s.handles[h].pc.Idle?
    ensures Path(s, steps) && Lose(h) !in steps
    ensures var t := Final(s, steps); t.done == |t.queue| && At(t, h) && t.handles[h].pc.Idle?
    decreases |s.queue| - s.done
  {
    steps := [];
    if s.done < |s.queue| {
      var k := s.queue[s.done].h;
      var s1, first := s, [];
      if s.queue[s.done].outcome.Undecided? {
        assert HandleOk(s.queue, s.done, s.handles[k], k) && s.handles[k].pc == Deciding(s.done);
        StepKept(s, Keep(k));
        s1, first := Do(s, Keep(k)), [Keep(k)];
        assert first[1..] == [];
      }
      StepKept(s1, Process);
      var more := Drain(Do(s1, Process), h);
      assert ([Process] + more)[1..] == more;
      PathJoin(s, first, [Process] + more);
      steps := first + ([Process] + more);
    }
  }

  /** `h` commits with the service thread waiting. */
  lemma Attempt(t: State, h: nat, kind: Kind) returns (steps: seq<Step>)
    requires At(t, h) && t.handles[h].pc.Idle? && !kind.Flush?
    ensures steps == [Submit(h, kind), Keep(h)] && Path(t, steps)
    ensures Final(t, steps) == t.(queue := t.queue + [Job(h, kind, Kept)],
                                  handles := t.handles[h := t.handles[h].(pc := Waiting(|t.queue|))])
  {
    steps := [Submit(h, kind), Keep(h)];
    var t1 := Do(t, Submit(h, kind));
    assert steps[1..] == [Keep(h)] && [Keep(h)][1..] == [];
    assert t1.queue[|t.queue| := Job(h, kind, Kept)] == t.queue + [Job(h, kind, Kept)];
    var t2 := Do(t1, Keep(h));
    assert t2.queue == t.queue + [Job(h, kind, Kept)];
    assert t2.handles == t.handles[h := t.handles[h].(pc := Waiting(|t.queue|))];
    assert Path(t2, []) && Path(t1, [Keep(h)]) && Final(t1, [Keep(h)]) == t2;
  }

  /** The wait of a synchronous commit is over. */
  predicate SyncOver(s: State, h: nat) {
    CanReturn(s, h) && !s.queue[s.handles[h].pc.q].kind.Async?
  }

  /** As long as no further attempt fails, no synchronous commit returns before its record is
      in the file. */
  ghost predicate SyncSafe(s: State, h: nat) {
    forall steps :: Path(s, steps) && Lose(h) !in steps && SyncOver(Final(s, steps), h) ==>
      Final(s, steps).handles[h].pc.q < Final(s, steps).durable
  }

  /** After a failed synchronous attempt the next one can return too early. */
  lemma EarlyReturn(s: State, h: nat)
    requires Reachable(s) && At(s, h) && s.handles[h].pc.Idle? && Failed(s, h, true) > 0
    ensures !SyncSafe(s, h)
  {
    ReachableInv(s);
    var first := Drain(s, h);
    var t := Final(s, first);
    ReachableOn(s, first);
    FailedSame(s, first, h, true);
    IdleDoneIff(t, h);
    ReachableInv(t);
    var last := Attempt(t, h, Sync);
    PathJoin(s, first, last);
    assert SyncOver(Final(s, first + last), h);
  }

  /** When an idle handle may rely on its synchronous commits: exactly when none of its
      synchronous attempts has failed so far. */
  lemma SyncSafeIff(s: State, h: nat)
    requires Reachable(s) && At(s, h) && s.handles[h].pc.Idle?
    ensures SyncSafe(s, h) <==> Failed(s, h, true) == 0
  {
    if Failed(s, h, true) > 0 {
      EarlyReturn(s, h);
    } else {
      ReachableInv(s);
      forall steps | Path(s, steps) && Lose(h) !in steps && SyncOver(Final(s, steps), h)
        ensures Final(s, steps).handles[h].pc.q < Final(s, steps).durable
      {
        ReachableOn(s, steps);
        FailedSame(s, steps, h, true);
        SyncReturnDurable(Final(s, steps), h);
      }
    }
  }

  /** As long as no further attempt fails, the handle is not destroyed while one of its jobs,
      which would post a destroyed semaphore, is unprocessed. */
  ghost predicate DestroySafe(s: State, h: nat) {
    forall steps :: Path(s, steps) && Lose(h) !in steps && CanDestroy(Final(s, steps), h) ==>
      AllDone(Final(s, steps), h, true) && AllDone(Final(s, steps), h, false)
  }

  lemma DestroyDone(s: State, h: nat)
    requires Reachable(s) && CanDestroy(s, h) && Failed(s, h, true) == 0 && Failed(s, h, false) == 0
    ensures AllDone(s, h, true) && AllDone(s, h, false)
  {
    ReachableInv(s);
    IdleDoneIff(s, h);
    assert HandleOk(s.queue, s.done, s.handles[h], h);
    TallyPrefix(On(h, true), s.queue, s.done);
    TallyPrefix(On(h, false), s.queue, s.done);
  }

  /** With a token too many, a commit returns and the handle is destroyed before its job. */
  lemma EarlyDestroy(s: State, h: nat, sync: bool)
    requires Reachable(s) && At(s, h) && s.handles[h].pc.Idle? && Failed(s, h, sync) > 0
    ensures !DestroySafe(s, h)
  {
    ReachableInv(s);
    var first := Drain(s, h);
    var t := Final(s, first);
    ReachableOn(s, first);
    FailedSame(s, first, h, sync);
    IdleDoneIff(t, h);
    var kind := if sync then Sync else Async;
    var last := Attempt(t, h, kind);
    var u := Final(t, last);
    assert [Return(h)][1..] == [];
    assert u.queue[|t.queue|] == Job(h, kind, Kept) && Enabled(u, Return(h));
    PathJoin(t, last, [Return(h)]);
    PathJoin(s, first, last + [Return(h)]);
    var end := Final(s, first + (last + [Return(h)]));
    assert end == Do(u, Return(h)) && CanDestroy(end, h);
    assert On(h, sync)(end.queue[|t.queue|]) && |t.queue| >= end.done;
    assert !AllDone(end, h, sync);
  }

  /** When an idle handle may be destroyed: exactly when none of its attempts has failed so far. */
  lemma DestroySafeIff(s: State, h: nat)
    requires Reachable(s) && At(s, h) && s.handles[h].pc.Idle?
    ensures DestroySafe(s, h) <==> Failed(s, h, true) == 0 && Failed(s, h, false) == 0
  {
    if Failed(s, h, true) > 0 {
      EarlyDestroy(s, h, true);
    } else if Failed(s, h, false) > 0 {
      EarlyDestroy(s, h, false);
    } else {
      ReachableInv(s);
      forall steps | Path(s, steps) && Lose(h) !in steps && CanDestroy(Final(s, steps), h)
        ensures AllDone(Final(s, steps), h, true) && AllDone(Final(s, steps), h, false)
      {
        ReachableOn(s, steps);
        FailedSame(s, steps, h, true);
        FailedSame(s, steps, h, false);
        DestroyDone(Final(s, steps), h);
      }
    }
  }

  // ----- what is durable when nothing else is

  /** The number of jobs up to the last one processed that waits for the file. */
  function LastSync(queue: seq<Job>, n: nat): nat
    requires n <= |queue|
  {
    if n == 0 then 0 else if !queue[n - 1].kind.Async? then n else LastSync(queue, n - 1)
  }

  lemma {:induction false} LastSyncSame(queue: seq<Job>, queue': seq<Job>, n: nat)
    requires n <= |queue| && n <= |queue'| && forall i :: 0 <= i < n ==> queue'[i].kind == queue[i].kind
    ensures LastSync(queue', n) == LastSync(queue, n)
  {
    if n > 0 {
      LastSyncSame(queue, queue', n - 1);
    }
  }

  /** While the write buffer never fills, records get to the file only with a job that waits for
      it: an asynchronous commit behind the last such job can be lost, returned or not. */
  lemma {:induction false} DurableIs(s: State, steps: seq<Step>)
    requires s.done <= |s.queue| && s.durable == LastSync(s.queue, s.done)
    requires Path(s, steps) && forall i :: 0 <= i < |steps| ==> !steps[i].Settle?
    ensures var end := Final(s, steps); end.done <= |end.queue| && end.durable == LastSync(end.queue, end.done)
    decreases |steps|
  {
    if steps != [] {
      var s' := Do(s, steps[0]);
      LastSyncSame(s.queue, s'.queue, s.done);
      DurableIs(s', steps[1..]);
    }
  }
}
