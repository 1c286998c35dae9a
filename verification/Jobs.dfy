/** What the output queue holds, said by the steps of its producers.

    `ServiceQueue` speaks of the jobs in memory and of the lists kept beside them.  Here the
    queue is told from the steps alone: which job each producer links, of which kind, and what
    it fills in.  A job that must be on disk is one that was prepared as such. */
module Jobs {
  import opened StorageFormat
  import opened Buffering
  import opened ServiceQueue

  datatype Entry = Entry(job: nat, kind: Kind, text: seq<byte>, ready: bool)

  /** The push a producer is at; `ticket` once it is linked. */
  datatype Push = Push(job: nat, kind: Kind, ticket: nat)

  datatype Told = Told(entries: seq<Entry>, pushes: map<nat, Push>)

  const NO_PUSH := Push(0, Other, 0)

  function PushOf(t: Told, p: nat): Push {
    if p in t.pushes then t.pushes[p] else NO_PUSH
  }

  function SetEntry(t: Told, p: nat, e: Entry): Told {
    var ticket := PushOf(t, p).ticket;
    if ticket < |t.entries| then t.(entries := t.entries[ticket := e]) else t
  }

  function EntryOf(t: Told, p: nat): Entry {
    var ticket := PushOf(t, p).ticket;
    if ticket < |t.entries| then t.entries[ticket] else Entry(0, Other, [], false)
  }

  function Follow(t: Told, step: Step): Told {
    match step
    case Prepare(p, job, kind) => t.(pushes := t.pushes[p := Push(job, kind, 0)])
    case Link(p) =>
      var Push(job, kind, _) := PushOf(t, p);
      Told(t.entries + [Entry(job, kind, [], false)], t.pushes[p := Push(job, kind, |t.entries|)])
    case Fill(p, text) => SetEntry(t, p, EntryOf(t, p).(text := text))
    case Ready(p) => SetEntry(t, p, EntryOf(t, p).(ready := true))
    case _ => t
  }

  /** The queue after the first `n` steps. */
  function TellAll(steps: seq<Step>, n: nat): Told
    requires n <= |steps|
  {
    if n == 0 then Told([], map[]) else Follow(TellAll(steps, n - 1), steps[n - 1])
  }

  ghost predicate RunBy(run: seq<State>, steps: seq<Step>) {
    && |run| == |steps| + 1 && Init(run[0])
    && forall i :: 0 <= i < |steps| ==> SteppedBy(run, steps, i)
  }

  ghost predicate SteppedBy(run: seq<State>, steps: seq<Step>, i: nat)
    requires i < |steps| && |run| == |steps| + 1
  {
    Enabled(run[i], steps[i]) && run[i + 1] == Do(run[i], steps[i])
  }

  lemma IsRun(run: seq<State>, steps: seq<Step>)
    requires RunBy(run, steps)
    ensures Run(run)
  {
    forall i | 0 <= i < |run| - 1 ensures Stepped(run[i], run[i + 1]) {
      assert SteppedBy(run, steps, i);
    }
  }

  // ----- the lists kept beside the jobs are these

  ghost predicate EntryOk(s: State, t: Told, i: nat) {
    && i < |s.slots| && i < |s.texts| && i < |t.entries|
    && s.slots[i] == t.entries[i].job && s.texts[i] == t.entries[i].text
    && (|s.sent| <= i ==> At(s, s.slots[i]).kind == t.entries[i].kind && At(s, s.slots[i]).ready == t.entries[i].ready)
  }

  ghost predicate EntriesOk(s: State, t: Told) {
    |t.entries| == |s.slots| && forall i :: 0 <= i < |s.slots| ==> EntryOk(s, t, i)
  }

  /** A commit job that is linked and not ready. */
  predicate Filling(pc: Producer, job: nat) {
    match pc
    case Linked(j, kind) => j == job && kind.Commit?
    case Moved(j, kind) => j == job && kind.Commit?
    case Building(j) => j == job
    case _ => false
  }

  ghost predicate PushOk(s: State, t: Told, p: nat) {
    p < |s.producers| &&
    var pc, push := s.producers[p], PushOf(t, p);
    && (!pc.Away? ==> push.job == pc.job)
    && (pc.Prepared? || pc.Linked? || pc.Moved? ==> push.kind == pc.kind)
    && (!pc.Away? && Filling(pc, pc.job) ==> push.ticket == At(s, pc.job).ticket)
  }

  ghost predicate PushesOk(s: State, t: Told) {
    forall p :: 0 <= p < |s.producers| ==> PushOk(s, t, p)
  }

  /** A commit job that is not ready is some producer's. */
  ghost predicate FilledBy(s: State, i: nat) {
    i < |s.slots| && exists p :: 0 <= p < |s.producers| && Filling(s.producers[p], s.slots[i])
  }

  predicate Waits(e: Entry) {
    e.kind.Commit? && !e.ready
  }

  ghost predicate AllFilled(s: State, t: Told) {
    forall i :: |s.sent| <= i < |s.slots| && i < |t.entries| && Waits(t.entries[i]) ==> FilledBy(s, i)
  }

  ghost predicate ToldOk(s: State, t: Told) {
    EntriesOk(s, t) && PushesOk(s, t) && AllFilled(s, t)
  }

  lemma ToldInit(s: State)
    requires Init(s)
    ensures ToldOk(s, Told([], map[]))
  {
  }

  /** A step that leaves all live jobs, the queue and the phases of the producers. */
  lemma ServiceTold(s: State, step: Step, t: Told)
    requires Inv(s) && Enabled(s, step) && ToldOk(s, t)
    requires step.SignalClose? || step.WakeFirst? || step.ReadHead? || step.Process? || step.Wake? || step.ReadNext?
    ensures ToldOk(Do(s, step), t)
  {
    var s' := Do(s, step);
    assert s'.jobs == s.jobs && s'.slots == s.slots && s'.texts == s.texts && s'.producers == s.producers;
    forall i | 0 <= i < |s'.slots| ensures EntryOk(s', t, i) {
      assert EntryOk(s, t, i);
    }
    forall p | 0 <= p < |s'.producers| ensures PushOk(s', t, p) {
      assert PushOk(s, t, p);
    }
    forall i | |s'.sent| <= i < |s'.slots| && i < |t.entries| && Waits(t.entries[i]) ensures FilledBy(s', i) {
      assert FilledBy(s, i);
    }
  }

  /** The freed job is not queued any more, and nobody fills it in. */
  lemma FreeTold(s: State, t: Told)
    requires Inv(s) && Enabled(s, Free) && ToldOk(s, t)
    ensures ToldOk(Do(s, Free), t)
  {
    var s' := Do(s, Free);
    FreeOthers(s, s.jobs - {s.service.job});
    assert SlotOk(s.jobs, s.slots, s.texts, |s.sent| - 1);
    forall i | 0 <= i < |s'.slots| ensures EntryOk(s', t, i) {
      assert EntryOk(s, t, i);
      if |s.sent| <= i {
        assert SlotOk(s'.jobs, s.slots, s.texts, i);
      }
    }
    forall p | 0 <= p < |s'.producers| ensures PushOk(s', t, p) {
      assert PushOk(s, t, p);
      assert ProducerOk(s'.jobs, s.slots, |s.sent|, s.producers[p]);
    }
    forall i | |s'.sent| <= i < |s'.slots| && i < |t.entries| && Waits(t.entries[i]) ensures FilledBy(s', i) {
      assert FilledBy(s, i);
    }
  }

  lemma SlotsApart(s: State, job: nat)
    requires Inv(s) && (job !in s.jobs || s.jobs[job].ticket < 0)
    ensures forall i :: |s.sent| <= i < |s.slots| ==> s.slots[i] != job
  {
    forall i | |s.sent| <= i < |s.slots| ensures s.slots[i] != job {
      assert SlotOk(s.jobs, s.slots, s.texts, i);
    }
  }

  lemma PrepareTold(s: State, p: nat, job: nat, kind: Kind, t: Told)
    requires Inv(s) && Enabled(s, Prepare(p, job, kind)) && ToldOk(s, t)
    ensures ToldOk(Do(s, Prepare(p, job, kind)), Follow(t, Prepare(p, job, kind)))
  {
    var s', t' := Do(s, Prepare(p, job, kind)), Follow(t, Prepare(p, job, kind));
    SlotsApart(s, job);
    forall i | 0 <= i < |s'.slots| ensures EntryOk(s', t', i) {
      assert EntryOk(s, t, i);
    }
    forall q | 0 <= q < |s'.producers| ensures PushOk(s', t', q) {
      assert PushOk(s, t, q) && ProducerOk(s.jobs, s.slots, |s.sent|, s.producers[q]);
    }
    StillFilled(s, t, s', p);
  }

  /** A producer that is not filling in moves on. */
  lemma StillFilled(s: State, t: Told, s': State, p: nat)
    requires AllFilled(s, t) && p < |s.producers| == |s'.producers| && s'.slots == s.slots && |s'.sent| == |s.sent|
    requires forall q :: 0 <= q < |s.producers| && q != p ==> s'.producers[q] == s.producers[q]
    requires forall job :: Filling(s.producers[p], job) ==> Filling(s'.producers[p], job)
    ensures AllFilled(s', t)
  {
    forall i | |s'.sent| <= i < |s'.slots| && i < |t.entries| && Waits(t.entries[i]) ensures FilledBy(s', i) {
      assert FilledBy(s, i);
      var q :| 0 <= q < |s.producers| && Filling(s.producers[q], s.slots[i]);
      assert Filling(s'.producers[q], s'.slots[i]);
    }
  }

  lemma MoveTold(s: State, step: Step, t: Told)
    requires Inv(s) && Enabled(s, step) && ToldOk(s, t) && (step.Move? || step.Post?)
    ensures ToldOk(Do(s, step), t)
  {
    var s' := Do(s, step);
    forall i | 0 <= i < |s'.slots| ensures EntryOk(s', t, i) {
      assert EntryOk(s, t, i);
    }
    forall q | 0 <= q < |s'.producers| ensures PushOk(s', t, q) {
      assert PushOk(s, t, q);
    }
    StillFilled(s, t, s', step.p);
  }

  lemma LinkTold(s: State, p: nat, t: Told)
    requires Inv(s) && Enabled(s, Link(p)) && ToldOk(s, t)
    ensures ToldOk(Do(s, Link(p)), Follow(t, Link(p)))
  {
    var s', t', job := Do(s, Link(p)), Follow(t, Link(p)), s.producers[p].job;
    LinkJobs(s, p);
    ChainedSlots(s.jobs, s.slots, s.texts, First(s), job, s.producers[p].kind);
    SlotsApart(s, job);
    assert PushOk(s, t, p);
    forall i | 0 <= i < |s'.slots| ensures EntryOk(s', t', i) {
      if i < |s.slots| {
        assert EntryOk(s, t, i);
        assert |s.sent| <= i ==> SlotOk(s.jobs, s.slots, s.texts, i);
      }
    }
    LinkPushes(s, p, t, s');
    LinkFills(s, p, t, s');
  }

  lemma LinkPushes(s: State, p: nat, t: Told, s': State)
    requires Inv(s) && Enabled(s, Link(p)) && ToldOk(s, t) && s' == Do(s, Link(p))
    requires s.producers[p].job in s.jobs && s.jobs[s.producers[p].job].ticket < 0
    requires forall j :: j in s.jobs && j != s.producers[p].job ==> j in s'.jobs && s'.jobs[j].ticket == s.jobs[j].ticket
    requires s.producers[p].job in s'.jobs && s'.jobs[s.producers[p].job].ticket == |s.slots|
    ensures PushesOk(s', Follow(t, Link(p)))
  {
    var t' := Follow(t, Link(p));
    forall q | 0 <= q < |s'.producers| ensures PushOk(s', t', q) {
      assert PushOk(s, t, q) && ProducerOk(s.jobs, s.slots, |s.sent|, s.producers[q]);
      assert PushOk(s, t, p);
    }
  }

  lemma LinkFills(s: State, p: nat, t: Told, s': State)
    requires Enabled(s, Link(p)) && ToldOk(s, t) && s' == Do(s, Link(p))
    ensures AllFilled(s', Follow(t, Link(p)))
  {
    var t' := Follow(t, Link(p));
    assert PushOk(s, t, p);
    forall i | |s'.sent| <= i < |s'.slots| && i < |t'.entries| && Waits(t'.entries[i]) ensures FilledBy(s', i) {
      if i < |s.slots| {
        assert FilledBy(s, i);
        var q :| 0 <= q < |s.producers| && Filling(s.producers[q], s.slots[i]);
        assert Filling(s'.producers[q], s'.slots[i]);
      } else {
        assert Filling(s'.producers[p], s'.slots[i]);
      }
    }
  }

  /** The job that a producer builds has the ticket it was linked with. */
  lemma BuiltTicket(s: State, p: nat, t: Told)
    requires Inv(s) && ToldOk(s, t) && p < |s.producers| && s.producers[p].Building?
    ensures var job, k := s.producers[p].job, PushOf(t, p).ticket;
      && job in s.jobs && s.jobs[job].ticket == k && |s.sent| <= k < |s.slots| && s.slots[k] == job
      && EntryOk(s, t, k) && s.jobs[job].kind.Commit?
      && forall i :: |s.sent| <= i < |s.slots| && i != k ==> s.slots[i] != job
  {
    assert PushOk(s, t, p) && ProducerOk(s.jobs, s.slots, |s.sent|, s.producers[p]);
    var job, k := s.producers[p].job, PushOf(t, p).ticket;
    assert EntryOk(s, t, k);
    forall i | |s.sent| <= i < |s.slots| && i != k ensures s.slots[i] != job {
      assert SlotOk(s.jobs, s.slots, s.texts, i);
    }
  }

  /** Job `k` and its entry change alike. */
  lemma EntryBuilt(s: State, s': State, t: Told, t': Told, k: nat, v: Job, e: Entry)
    requires EntriesOk(s, t) && |s.sent| <= k < |s.slots| && |s.texts| == |s.slots| && s.slots[k] in s.jobs
    requires s'.slots == s.slots && |s'.sent| == |s.sent| && s'.texts == s.texts[k := e.text] && t'.entries == t.entries[k := e]
    requires s'.jobs == s.jobs[s.slots[k] := v] && e.job == s.slots[k] && v.kind == e.kind && v.ready == e.ready
    requires forall i :: |s.sent| <= i < |s.slots| && i != k ==> s.slots[i] != s.slots[k]
    ensures EntriesOk(s', t')
  {
    forall i | 0 <= i < |s'.slots| ensures EntryOk(s', t', i) {
      assert EntryOk(s, t, i);
    }
  }

  lemma FillEntries(s: State, p: nat, text: seq<byte>, t: Told)
    requires Inv(s) && Enabled(s, Fill(p, text)) && ToldOk(s, t)
    ensures EntriesOk(Do(s, Fill(p, text)), Follow(t, Fill(p, text)))
  {
    var s', t', k := Do(s, Fill(p, text)), Follow(t, Fill(p, text)), PushOf(t, p).ticket;
    BuiltTicket(s, p, t);
    EntryBuilt(s, s', t, t', k, s.jobs[s.slots[k]].(text := text), t.entries[k].(text := text));
  }

  lemma ReadyEntries(s: State, p: nat, t: Told)
    requires Inv(s) && Enabled(s, Ready(p)) && ToldOk(s, t)
    ensures EntriesOk(Do(s, Ready(p)), Follow(t, Ready(p)))
  {
    var s', t', k := Do(s, Ready(p)), Follow(t, Ready(p)), PushOf(t, p).ticket;
    BuiltTicket(s, p, t);
    assert s.texts[k := s.texts[k]] == s.texts;
    EntryBuilt(s, s', t, t', k, s.jobs[s.slots[k]].(ready := true), t.entries[k].(ready := true));
  }

  lemma BuildPushes(s: State, step: Step, t: Told)
    requires Inv(s) && Enabled(s, step) && ToldOk(s, t) && (step.Fill? || step.Ready?)
    ensures PushesOk(Do(s, step), Follow(t, step))
  {
    var s', t', p := Do(s, step), Follow(t, step), step.p;
    BuiltTicket(s, p, t);
    forall q | 0 <= q < |s'.producers| ensures PushOk(s', t', q) {
      assert PushOk(s, t, q) && PushOf(t', q) == PushOf(t, q);
    }
  }

  lemma FillTold(s: State, p: nat, text: seq<byte>, t: Told)
    requires Inv(s) && Enabled(s, Fill(p, text)) && ToldOk(s, t)
    ensures ToldOk(Do(s, Fill(p, text)), Follow(t, Fill(p, text)))
  {
    var s', t' := Do(s, Fill(p, text)), Follow(t, Fill(p, text));
    FillEntries(s, p, text, t);
    BuildPushes(s, Fill(p, text), t);
    forall i | |s'.sent| <= i < |s'.slots| && i < |t'.entries| && Waits(t'.entries[i]) ensures FilledBy(s', i) {
      assert Waits(t.entries[i]) && FilledBy(s, i);
    }
  }

  lemma ReadyTold(s: State, p: nat, t: Told)
    requires Inv(s) && Enabled(s, Ready(p)) && ToldOk(s, t)
    ensures ToldOk(Do(s, Ready(p)), Follow(t, Ready(p)))
  {
    var s', t' := Do(s, Ready(p)), Follow(t, Ready(p));
    ReadyEntries(s, p, t);
    BuildPushes(s, Ready(p), t);
    BuiltTicket(s, p, t);
    forall i | |s'.sent| <= i < |s'.slots| && i < |t'.entries| && Waits(t'.entries[i]) ensures FilledBy(s', i) {
      assert Waits(t.entries[i]) && FilledBy(s, i);
      var q :| 0 <= q < |s.producers| && Filling(s.producers[q], s.slots[i]);
      assert q != p;
      assert Filling(s'.producers[q], s'.slots[i]);
    }
  }

  lemma StepTold(s: State, step: Step, t: Told)
    requires Inv(s) && Enabled(s, step) && ToldOk(s, t)
    ensures ToldOk(Do(s, step), Follow(t, step))
  {
    match step
    case Prepare(p, job, kind) => PrepareTold(s, p, job, kind, t);
    case Link(p) => LinkTold(s, p, t);
    case Move(_) => MoveTold(s, step, t);
    case Post(_) => MoveTold(s, step, t);
    case Fill(p, text) => FillTold(s, p, text, t);
    case Ready(p) => ReadyTold(s, p, t);
    case Free => FreeTold(s, t);
    case _ => ServiceTold(s, step, t);
  }

  lemma {:induction false} AllTold(run: seq<State>, steps: seq<Step>, n: nat)
    requires RunBy(run, steps) && n <= |steps|
    ensures Inv(run[n]) && ToldOk(run[n], TellAll(steps, n))
  {
    if n == 0 {
      InitInv(run[0]);
      ToldInit(run[0]);
    } else {
      AllTold(run, steps, n - 1);
      ToldNext(run, steps, n - 1, n);
    }
  }

  lemma ToldNext(run: seq<State>, steps: seq<Step>, n: nat, m: nat)
    requires RunBy(run, steps) && n < |steps| && m == n + 1 && Inv(run[n]) && ToldOk(run[n], TellAll(steps, n))
    ensures Inv(run[m]) && ToldOk(run[m], TellAll(steps, m))
  {
    assert SteppedBy(run, steps, n);
    StepKept(run[n], steps[n]);
    StepTold(run[n], steps[n], TellAll(steps, n));
  }

  // ----- theorems

  /** The records of the first `k` jobs. */
  function Texts(t: Told, k: nat): seq<seq<byte>>
    requires k <= |t.entries|
  {
    seq(k, i requires 0 <= i < k => t.entries[i].text)
  }

  /** What is in the file and the buffer is what the producers filled in, in the order in which
      they linked their jobs, up to the job that was processed last. */
  lemma StreamIsTold(run: seq<State>, steps: seq<Step>, n: nat)
    requires RunBy(run, steps) && n <= |steps|
    ensures |run[n].sent| <= |TellAll(steps, n).entries|
    ensures run[n].stream.All() == Concat(Texts(TellAll(steps, n), |run[n].sent|))
  {
    AllTold(run, steps, n);
    var s, t := run[n], TellAll(steps, n);
    forall i | 0 <= i < |s.sent| ensures s.sent[i] == t.entries[i].text {
      assert EntryOk(s, t, i);
    }
    assert s.sent == Texts(t, |s.sent|);
  }

  /** Every job prepared as a synchronous one, once it is processed, and all before it: in the file. */
  ghost predicate SyncedIn(s: State, t: Told) {
    forall k :: 0 <= k < |s.sent| && k < |t.entries| && Syncs(t.entries[k].kind) ==> Concat(s.sent[..k + 1]) <= s.stream.file
  }

  lemma SyncedOther(s: State, step: Step, t: Told)
    requires Inv(s) && Enabled(s, step) && ToldOk(s, t) && SyncedIn(s, t) && !step.Process?
    ensures SyncedIn(Do(s, step), Follow(t, step))
  {
    var s', t' := Do(s, step), Follow(t, step);
    StepGrows(s, step);
    assert s'.sent == s.sent;
    forall k | 0 <= k < |s'.sent| && k < |t'.entries| && Syncs(t'.entries[k].kind)
      ensures Concat(s'.sent[..k + 1]) <= s'.stream.file
    {
      KindStays(s, step, t, k);
    }
  }

  lemma SyncedProcess(s: State, t: Told)
    requires Inv(s) && Enabled(s, Process) && ToldOk(s, t) && SyncedIn(s, t)
    ensures SyncedIn(Do(s, Process), t)
  {
    var s' := Do(s, Process);
    StepGrows(s, Process);
    ProcessSyncs(s, t);
    forall k | 0 <= k < |s'.sent| && k < |t.entries| && Syncs(t.entries[k].kind)
      ensures Concat(s'.sent[..k + 1]) <= s'.stream.file
    {
      if k < |s.sent| {
        assert s'.sent[..k + 1] == s.sent[..k + 1];
      } else {
        assert s'.sent[..k + 1] == s'.sent;
      }
    }
  }

  lemma KindStays(s: State, step: Step, t: Told, k: nat)
    requires Enabled(s, step) && ToldOk(s, t) && k < |t.entries|
    ensures k < |Follow(t, step).entries| && Follow(t, step).entries[k].kind == t.entries[k].kind
  {
  }

  lemma ProcessSyncs(s: State, t: Told)
    requires Inv(s) && Enabled(s, Process) && ToldOk(s, t)
    ensures |s.sent| < |t.entries|
    ensures Syncs(t.entries[|s.sent|].kind) ==> Do(s, Process).stream.file == Concat(Do(s, Process).sent)
  {
    var s', job := Do(s, Process), s.service.job;
    ProcessSends(s, s', job);
    assert EntryOk(s, t, |s.sent|);
    assert s'.stream.file + [] == s'.stream.file;
  }

  lemma {:induction false} AllSynced(run: seq<State>, steps: seq<Step>, n: nat)
    requires RunBy(run, steps) && n <= |steps|
    ensures SyncedIn(run[n], TellAll(steps, n))
  {
    if n > 0 {
      AllSynced(run, steps, n - 1);
      AllTold(run, steps, n - 1);
      assert SteppedBy(run, steps, n - 1);
      if steps[n - 1].Process? {
        SyncedProcess(run[n - 1], TellAll(steps, n - 1));
      } else {
        SyncedOther(run[n - 1], steps[n - 1], TellAll(steps, n - 1));
      }
    }
  }

  /** Once a job that was prepared as a synchronous one is processed, what its producer filled in
      and all records before it are in the file, and stay there. */
  lemma SyncedStays(run: seq<State>, steps: seq<Step>, n: nat, k: nat)
    requires RunBy(run, steps) && n <= |steps| && k < |run[n].sent|
    ensures k < |TellAll(steps, n).entries|
    ensures Syncs(TellAll(steps, n).entries[k].kind) ==> Concat(Texts(TellAll(steps, n), k + 1)) <= run[n].stream.file
  {
    AllTold(run, steps, n);
    AllSynced(run, steps, n);
    var s, t := run[n], TellAll(steps, n);
    forall i | 0 <= i < k + 1 ensures s.sent[i] == t.entries[i].text {
      assert EntryOk(s, t, i);
    }
    assert s.sent[..k + 1] == Texts(t, k + 1);
  }

  /** Steps of a program that asks for something. */
  predicate Begins(step: Step) {
    step.Prepare? || step.Fill? || step.SignalClose?
  }

  /** Nothing gets stuck: while a producer is at work one of them can go on; and when none is, the
      service thread can go on, or it waits with all jobs processed, or it has stopped. */
  lemma NeverStuck(run: seq<State>, steps: seq<Step>, n: nat)
    requires RunBy(run, steps) && n <= |steps|
    ensures var s := run[n];
      || (exists step :: Enabled(s, step) && !Begins(step))
      || s.service.Stopped?
      || (s.sent == s.texts && !s.closing)
  {
    AllTold(run, steps, n);
    var s, t := run[n], TellAll(steps, n);
    if AllAway(s.producers) {
      UncountedNone(s.producers);
      ServiceGoesOn(s, t);
    } else {
      var p :| 0 <= p < |s.producers| && !s.producers[p].Away?;
      var step := ProducerGoesOn(s, p);
    }
  }

  lemma ProducerGoesOn(s: State, p: nat) returns (step: Step)
    requires p < |s.producers| && !s.producers[p].Away?
    ensures Enabled(s, step) && !Begins(step)
  {
    match s.producers[p] {
      case Linked(_, _) => step := Move(p);
      case Moved(_, _) => step := Post(p);
      case Building(_) => step := Ready(p);
      case Prepared(_, _) =>
        if q :| 0 <= q < |s.producers| && s.producers[q].Linked? {
          step := Move(q);
        } else {
          step := Link(p);
        }
    }
  }

  lemma ServiceGoesOn(s: State, t: Told)
    requires Inv(s) && ToldOk(s, t) && AllAway(s.producers) && Uncounted(s.producers) == 0
    ensures (exists step :: Enabled(s, step) && !Begins(step)) || s.service.Stopped?
      || (s.sent == s.texts && !s.closing)
  {
    match s.service {
      case Resting => assert s.counter > 0 ==> Enabled(s, WakeFirst);
      case Awake => assert Enabled(s, ReadHead);
      case Working(job) =>
        assert EntryOk(s, t, |s.sent|);
        assert Enabled(s, Process) by {
          assert Waits(t.entries[|s.sent|]) ==> FilledBy(s, |s.sent|);
        }
      case Pausing(_) => assert s.counter > 0 ==> Enabled(s, Wake);
      case Woken(_) => assert Enabled(s, ReadNext);
      case Freeing(_, _) => assert Enabled(s, Free);
      case Stopped =>
    }
  }
}
