/** The output queue between committing threads and the service thread.

    Jobs form a linked list.  A push stores the new job through `tail` and then moves `tail`,
    both under a mutex; after the mutex it posts `counter`.  A commit job is filled in later,
    and its `ready` semaphore tells when.  The service thread reads a job's `next` pointer only
    after it has passed `counter` once more, and frees the job then.  One step is one access to
    shared memory; an access to a freed job reads garbage or is lost. */
module ServiceQueue {
  import opened StorageFormat
  import opened Buffering

  /** A pointer cell: the queue's head, or the `next` field of a job. */
  datatype Cell = Head | NextOf(job: nat)

  datatype Kind = Commit(sync: bool) | SyncMe | Other

  /** A job in memory.  `ticket` is history: its place in the queue, -1 before it has one. */
  datatype Job = Job(ticket: int, kind: Kind, next: nat, text: seq<byte>, ready: bool)

  datatype Producer =
    | Away
    | Prepared(job: nat, kind: Kind)
    | Linked(job: nat, kind: Kind)      // holds the mutex, `tail` not moved yet
    | Moved(job: nat, kind: Kind)       // `counter` not posted yet
    | Building(job: nat)                // a commit job is being filled in

  datatype Service =
    | Resting                           // before the first `sem_wait`
    | Awake                             // `head` is read next
    | Working(job: nat)
    | Pausing(job: nat)                 // the job is done, `counter` is awaited
    | Woken(job: nat)                   // the job's `next` is read next
    | Freeing(job: nat, next: nat)
    | Stopped

  datatype State = State(
    jobs: map<nat, Job>,                // the live jobs by address; 0 is the null pointer
    head: nat,
    tail: Cell,
    counter: nat,
    producers: seq<Producer>,
    service: Service,
    closing: bool,
    stream: Stream,
    slots: seq<nat>,                    // history: the address of each job queued,
    texts: seq<seq<byte>>,              // the record its producer wrote to it,
    sent: seq<seq<byte>>,               // the record the service thread read,
    served: seq<nat>)                   // and the job it read it from

  datatype Step =
    | Prepare(p: nat, job: nat, kind: Kind)
    | Link(p: nat) | Move(p: nat) | Post(p: nat)
    | Fill(p: nat, text: seq<byte>) | Ready(p: nat)
    | SignalClose
    | WakeFirst | ReadHead | Process | Wake | ReadNext | Free

  const GARBAGE := Job(-1, Other, 0, [], false)

  function At(s: State, job: nat): Job {
    if job in s.jobs then s.jobs[job] else GARBAGE
  }

  function Put(jobs: map<nat, Job>, job: nat, value: Job): map<nat, Job> {
    if job in jobs then jobs[job := value] else jobs
  }

  predicate AllAway(producers: seq<Producer>) {
    forall p :: 0 <= p < |producers| ==> producers[p].Away?
  }

  predicate MutexFree(producers: seq<Producer>) {
    forall p :: 0 <= p < |producers| ==> !producers[p].Linked?
  }

  predicate Enabled(s: State, step: Step) {
    match step
    case Prepare(p, job, _) => p < |s.producers| && s.producers[p].Away? && !s.closing && job != 0 && job !in s.jobs
    case Link(p) => p < |s.producers| && s.producers[p].Prepared? && MutexFree(s.producers)
    case Move(p) => p < |s.producers| && s.producers[p].Linked?
    case Post(p) => p < |s.producers| && s.producers[p].Moved?
    case Fill(p, _) => p < |s.producers| && s.producers[p].Building?
    case Ready(p) => p < |s.producers| && s.producers[p].Building?
    case SignalClose => !s.closing && AllAway(s.producers)
    case WakeFirst => s.service.Resting? && s.counter > 0
    case ReadHead => s.service.Awake?
    case Process => s.service.Working? && (At(s, s.service.job).kind.Commit? ==> At(s, s.service.job).ready)
    case Wake => s.service.Pausing? && s.counter > 0
    case ReadNext => s.service.Woken?
    case Free => s.service.Freeing?
  }

  /** The service thread goes on to the job, or flushes its buffer and stops at null. */
  function Turn(s: State, job: nat): State {
    if job == 0 then s.(service := Stopped, stream := Synced(s.stream)) else s.(service := Working(job))
  }

  function AfterJob(stream: Stream, job: Job): Stream {
    match job.kind
    case Commit(sync) => if sync then Synced(Written(stream, job.text)) else Written(stream, job.text)
    case SyncMe => Synced(stream)
    case Other => stream
  }

  function SetTicketText(texts: seq<seq<byte>>, ticket: int, text: seq<byte>): seq<seq<byte>> {
    if 0 <= ticket < |texts| then texts[ticket := text] else texts
  }

  function Do(s: State, step: Step): State
    requires Enabled(s, step)
  {
    match step
    case Prepare(p, job, kind) =>
      s.(producers := s.producers[p := Prepared(job, kind)], jobs := s.jobs[job := Job(-1, kind, 0, [], false)])
    case Link(p) =>
      var Prepared(job, kind) := s.producers[p];
      var marked := Put(s.jobs, job, At(s, job).(ticket := |s.slots|));
      s.(producers := s.producers[p := Linked(job, kind)],
         head := if s.tail.Head? then job else s.head,
         jobs := if s.tail.Head? then marked else Put(marked, s.tail.job, At(s, s.tail.job).(next := job)),
         slots := s.slots + [job], texts := s.texts + [[]])
    case Move(p) =>
      var Linked(job, kind) := s.producers[p];
      s.(producers := s.producers[p := Moved(job, kind)], tail := NextOf(job))
    case Post(p) =>
      var Moved(job, kind) := s.producers[p];
      s.(producers := s.producers[p := if kind.Commit? then Building(job) else Away], counter := s.counter + 1)
    case Fill(p, text) =>
      var job := s.producers[p].job;
      s.(jobs := Put(s.jobs, job, At(s, job).(text := text)),
         texts := SetTicketText(s.texts, At(s, job).ticket, text))
    case Ready(p) =>
      var job := s.producers[p].job;
      s.(producers := s.producers[p := Away], jobs := Put(s.jobs, job, At(s, job).(ready := true)))
    case SignalClose => s.(closing := true, counter := s.counter + 1)
    case WakeFirst => s.(service := Awake, counter := s.counter - 1)
    case ReadHead => Turn(s, s.head)
    case Process =>
      var job := s.service.job;
      s.(service := Pausing(job), stream := AfterJob(s.stream, At(s, job)), sent := s.sent + [At(s, job).text],
         served := s.served + [job])
    case Wake => s.(service := Woken(s.service.job), counter := s.counter - 1)
    case ReadNext => s.(service := Freeing(s.service.job, At(s, s.service.job).next))
    case Free => Turn(s.(jobs := s.jobs - {s.service.job}), s.service.next)
  }

  ghost predicate Init(s: State) {
    && s.jobs == map[] && s.head == 0 && s.tail == Head && s.counter == 0
    && AllAway(s.producers) && s.service == Resting && !s.closing && s.stream == Stream([], [])
    && s.slots == [] && s.texts == [] && s.sent == [] && s.served == []
  }

  ghost predicate Run(run: seq<State>) {
    && run != [] && Init(run[0])
    && forall i :: 0 <= i < |run| - 1 ==> Stepped(run[i], run[i + 1])
  }

  ghost predicate Stepped(s: State, s': State) {
    exists step :: Enabled(s, step) && s' == Do(s, step)
  }

  function Concat(parts: seq<seq<byte>>): seq<byte> {
    if parts == [] then [] else Concat(parts[..|parts| - 1]) + parts[|parts| - 1]
  }

  // ----- the invariant

  /** Producers whose job is in the list but not yet counted. */
  function Uncounted(producers: seq<Producer>): nat {
    if producers == [] then 0
    else Uncounted(producers[1..]) + if producers[0].Linked? || producers[0].Moved? then 1 else 0
  }

  lemma {:induction false} UncountedUpdate(producers: seq<Producer>, p: nat, next: Producer)
    requires p < |producers|
    ensures Uncounted(producers[p := next]) == Uncounted(producers) - Uncounted([producers[p]]) + Uncounted([next])
  {
    if p > 0 {
      UncountedUpdate(producers[1..], p - 1, next);
      assert producers[p := next][1..] == producers[1..][p - 1 := next];
    } else {
      assert producers[p := next][1..] == producers[1..];
    }
  }

  lemma {:induction false} UncountedNone(producers: seq<Producer>)
    requires AllAway(producers)
    ensures Uncounted(producers) == 0
  {
    if producers != [] {
      UncountedNone(producers[1..]);
    }
  }

  lemma {:induction false} UncountedSome(producers: seq<Producer>, p: nat)
    requires p < |producers| && (producers[p].Linked? || producers[p].Moved?)
    ensures Uncounted(producers) >= 1
  {
    if p > 0 {
      UncountedSome(producers[1..], p - 1);
    }
  }

  /** How often the service thread has passed `counter`, beyond the jobs it has done. */
  function Ahead(service: Service): nat {
    if service.Resting? || service.Pausing? then 0 else 1
  }

  /** Whether the job last done has not been freed. */
  function Kept(service: Service): nat {
    if service.Pausing? || service.Woken? || service.Freeing? then 1 else 0
  }

  function Bit(b: bool): nat {
    if b then 1 else 0
  }

  ghost predicate Counted(s: State) {
    && |s.texts| == |s.slots| && Kept(s.service) <= |s.sent| <= |s.slots|
    && s.counter + |s.sent| + Ahead(s.service) + Uncounted(s.producers) == |s.slots| + Bit(s.closing)
    && (s.closing ==> AllAway(s.producers))
  }

  /** The queued job with ticket `i`. */
  ghost predicate SlotOk(jobs: map<nat, Job>, slots: seq<nat>, texts: seq<seq<byte>>, i: nat)
    requires i < |slots| == |texts|
  {
    var job := slots[i];
    && job != 0 && job in jobs && jobs[job].ticket == i && jobs[job].text == texts[i]
    && (jobs[job].kind.Commit? || jobs[job].text == [])
    && jobs[job].next == if i + 1 < |slots| then slots[i + 1] else 0
  }

  ghost predicate SlotsOk(jobs: map<nat, Job>, slots: seq<nat>, texts: seq<seq<byte>>, first: nat) {
    |slots| == |texts| && forall i :: first <= i < |slots| ==> SlotOk(jobs, slots, texts, i)
  }

  /** A commit job that its producer still writes to: queued, and not processed. */
  ghost predicate Unfinished(jobs: map<nat, Job>, slots: seq<nat>, done: nat, job: nat) {
    && job in jobs && done <= jobs[job].ticket < |slots| && slots[jobs[job].ticket] == job
    && jobs[job].kind.Commit? && !jobs[job].ready
  }

  ghost predicate ProducerOk(jobs: map<nat, Job>, slots: seq<nat>, done: nat, pc: Producer) {
    match pc
    case Away => true
    case Prepared(job, kind) => job in jobs && jobs[job] == Job(-1, kind, 0, [], false) && job != 0
    case Linked(job, kind) =>
      slots != [] && job == slots[|slots| - 1] && (kind.Commit? ==> Unfinished(jobs, slots, done, job))
    case Moved(job, kind) => kind.Commit? ==> Unfinished(jobs, slots, done, job)
    case Building(job) => Unfinished(jobs, slots, done, job)
  }

  /** The job a producer still owns. */
  predicate Owns(pc: Producer, job: nat) {
    match pc
    case Away => false
    case Building(j) => j == job
    case Prepared(j, _) => j == job
    case _ => pc.job == job && pc.kind.Commit?
  }

  ghost predicate AllOk(jobs: map<nat, Job>, slots: seq<nat>, done: nat, producers: seq<Producer>) {
    forall p :: 0 <= p < |producers| ==> ProducerOk(jobs, slots, done, producers[p])
  }

  ghost predicate Apart(a: Producer, b: Producer) {
    !(a.Linked? && b.Linked?) && forall job :: !(Owns(a, job) && Owns(b, job))
  }

  ghost predicate AllApart(producers: seq<Producer>) {
    forall p, q :: 0 <= p < |producers| && 0 <= q < |producers| && p != q ==> Apart(producers[p], producers[q])
  }

  /** The cell after the first `n` jobs. */
  function CellAfter(slots: seq<nat>, n: nat): Cell
    requires n <= |slots|
  {
    if n == 0 then Head else NextOf(slots[n - 1])
  }

  ghost predicate Pointers(head: nat, tail: Cell, slots: seq<nat>, free: bool) {
    && head == (if slots == [] then 0 else slots[0])
    && tail == CellAfter(slots, if free || slots == [] then |slots| else |slots| - 1)
  }

  /** Jobs after which everything is on the file. */
  predicate Syncs(kind: Kind) {
    kind == SyncMe || kind == Commit(true)
  }

  ghost predicate ServiceOk(jobs: map<nat, Job>, slots: seq<nat>, done: nat, service: Service, buffer: seq<byte>) {
    match service
    case Resting => done == 0
    case Awake => done == 0
    case Working(job) => done < |slots| && job == slots[done]
    case Pausing(job) =>
      && 0 < done <= |slots| && job == slots[done - 1]
      && job in jobs && (Syncs(jobs[job].kind) ==> buffer == [])
    case Woken(job) => 0 < done <= |slots| && job == slots[done - 1]
    case Freeing(job, next) =>
      && 0 < done <= |slots| && job == slots[done - 1]
      && next == (if done < |slots| then slots[done] else 0)
    case Stopped => done == |slots| && buffer == []
  }

  /** A live job is queued or about to be. */
  ghost predicate Accounted(jobs: map<nat, Job>, slots: seq<nat>, first: nat, producers: seq<Producer>, job: nat)
    requires job in jobs
  {
    || (exists p :: 0 <= p < |producers| && producers[p].Prepared? && producers[p].job == job)
    || (first <= jobs[job].ticket < |slots| && slots[jobs[job].ticket] == job)
  }

  ghost predicate AllAccounted(jobs: map<nat, Job>, slots: seq<nat>, first: nat, producers: seq<Producer>) {
    forall job :: job in jobs ==> Accounted(jobs, slots, first, producers, job)
  }

  ghost predicate SentOk(stream: Stream, slots: seq<nat>, texts: seq<seq<byte>>, served: seq<nat>, sent: seq<seq<byte>>) {
    sent <= texts && |served| == |sent| && served <= slots && stream.All() == Concat(sent) && |stream.buffer| <= WRITE_BUFFER_SIZE
  }

  /** The ticket of the first job that is not freed. */
  function First(s: State): nat
    requires Kept(s.service) <= |s.sent|
  {
    |s.sent| - Kept(s.service)
  }

  ghost predicate Inv(s: State) {
    && Counted(s)
    && SlotsOk(s.jobs, s.slots, s.texts, First(s))
    && AllOk(s.jobs, s.slots, |s.sent|, s.producers) && AllApart(s.producers)
    && Pointers(s.head, s.tail, s.slots, MutexFree(s.producers))
    && ServiceOk(s.jobs, s.slots, |s.sent|, s.service, s.stream.buffer)
    && AllAccounted(s.jobs, s.slots, First(s), s.producers)
    && SentOk(s.stream, s.slots, s.texts, s.served, s.sent)
  }

  lemma InitInv(s: State)
    requires Init(s)
    ensures Inv(s)
  {
    UncountedNone(s.producers);
  }

  // ----- producers one by one

  /** One producer moves on; the others see no change of what they rely on. */
  lemma ProducerMoves(jobs: map<nat, Job>, slots: seq<nat>, jobs': map<nat, Job>, slots': seq<nat>, done: nat,
                      producers: seq<Producer>, p: nat, next: Producer)
    requires p < |producers| && AllOk(jobs, slots, done, producers) && AllApart(producers)
    requires ProducerOk(jobs', slots', done, next)
    requires forall q :: 0 <= q < |producers| && q != p ==>
      ProducerOk(jobs', slots', done, producers[q]) && Apart(producers[q], next)
    ensures AllOk(jobs', slots', done, producers[p := next]) && AllApart(producers[p := next])
  {
    var after := producers[p := next];
    forall q, r | 0 <= q < |after| && 0 <= r < |after| && q != r ensures Apart(after[q], after[r]) {
      assert Apart(producers[q], producers[r]);
    }
  }

  lemma MutexMoves(producers: seq<Producer>, p: nat, next: Producer)
    requires p < |producers| && AllApart(producers)
    ensures next.Linked? ==> !MutexFree(producers[p := next])
    ensures producers[p].Linked? && !next.Linked? ==> MutexFree(producers[p := next]) && !MutexFree(producers)
    ensures !producers[p].Linked? && !next.Linked? ==> (MutexFree(producers[p := next]) <==> MutexFree(producers))
  {
    assert producers[p := next][p] == next;
    forall q | 0 <= q < |producers| && q != p
      ensures producers[p := next][q] == producers[q] && Apart(producers[q], producers[p])
    {
    }
  }

  /** Accounts that do not depend on the moving producer. */
  lemma AccountsMove(jobs: map<nat, Job>, slots: seq<nat>, jobs': map<nat, Job>, slots': seq<nat>, first: nat,
                     producers: seq<Producer>, p: nat, next: Producer, job: nat)
    requires p < |producers| && AllAccounted(jobs, slots, first, producers) && slots <= slots'
    requires forall j :: j in jobs' && j != job ==> j in jobs && jobs[j].ticket == jobs'[j].ticket
    requires producers[p].Prepared? ==> producers[p].job == job
    requires job in jobs' ==> Accounted(jobs', slots', first, producers[p := next], job)
    ensures AllAccounted(jobs', slots', first, producers[p := next])
  {
    forall j | j in jobs' && j != job ensures Accounted(jobs', slots', first, producers[p := next], j) {
      assert Accounted(jobs, slots, first, producers, j);
      if q :| 0 <= q < |producers| && producers[q].Prepared? && producers[q].job == j {
        assert producers[p := next][q] == producers[q];
      }
    }
  }

  lemma PrepareProducers(s: State, p: nat, job: nat, next: Producer, jobs: map<nat, Job>)
    requires Inv(s) && p < |s.producers| && s.producers[p].Away? && job != 0 && job !in s.jobs
    requires next.Prepared? && next.job == job && jobs == s.jobs[job := Job(-1, next.kind, 0, [], false)]
    ensures AllOk(jobs, s.slots, |s.sent|, s.producers[p := next]) && AllApart(s.producers[p := next])
  {
    forall q | 0 <= q < |s.producers| && q != p
      ensures ProducerOk(jobs, s.slots, |s.sent|, s.producers[q]) && Apart(s.producers[q], next)
    {
      assert ProducerOk(s.jobs, s.slots, |s.sent|, s.producers[q]);
    }
    ProducerMoves(s.jobs, s.slots, jobs, s.slots, |s.sent|, s.producers, p, next);
  }

  lemma PrepareKept(s: State, p: nat, job: nat, kind: Kind)
    requires Inv(s) && Enabled(s, Prepare(p, job, kind))
    ensures Inv(Do(s, Prepare(p, job, kind)))
  {
    var s', next := Do(s, Prepare(p, job, kind)), Prepared(job, kind);
    UncountedUpdate(s.producers, p, next);
    MutexMoves(s.producers, p, next);
    forall i | First(s) <= i < |s.slots| ensures SlotOk(s'.jobs, s.slots, s.texts, i) {
      assert SlotOk(s.jobs, s.slots, s.texts, i);
    }
    PrepareProducers(s, p, job, next, s'.jobs);
    assert s'.producers[p] == next;
    AccountsMove(s.jobs, s.slots, s'.jobs, s.slots, First(s), s.producers, p, next, job);
  }

  /** While a producer is at work the service thread has not stopped or seen the end. */
  lemma NotOver(s: State, p: nat)
    requires Inv(s) && p < |s.producers| && !s.producers[p].Away?
    ensures !s.service.Stopped? && !s.closing
    ensures s.slots != [] ==> First(s) < |s.slots|
    ensures s.service.Freeing? ==> |s.sent| < |s.slots|
  {
  }

  /** The live jobs after a new one is stored behind the last one. */
  function Chained(jobs: map<nat, Job>, slots: seq<nat>, job: nat): map<nat, Job>
    requires job in jobs && (slots != [] ==> slots[|slots| - 1] in jobs && slots[|slots| - 1] != job)
  {
    var marked := jobs[job := jobs[job].(ticket := |slots|)];
    if slots == [] then marked
    else marked[slots[|slots| - 1] := jobs[slots[|slots| - 1]].(next := job)]
  }

  lemma ChainedSlots(jobs: map<nat, Job>, slots: seq<nat>, texts: seq<seq<byte>>, first: nat, job: nat, kind: Kind)
    requires SlotsOk(jobs, slots, texts, first) && first <= |slots| && (slots != [] ==> first < |slots|)
    requires job != 0 && job in jobs && jobs[job] == Job(-1, kind, 0, [], false)
    ensures slots != [] ==> slots[|slots| - 1] in jobs && slots[|slots| - 1] != job
    ensures SlotsOk(Chained(jobs, slots, job), slots + [job], texts + [[]], first)
    ensures var jobs' := Chained(jobs, slots, job);
      && jobs'.Keys == jobs.Keys && jobs'[job] == jobs[job].(ticket := |slots|)
      && (forall j :: j in jobs && j != job ==> jobs'[j].(next := jobs[j].next) == jobs[j])
      && (forall j :: j in jobs && j != job && jobs[j].ticket < 0 ==> jobs'[j] == jobs[j])
  {
    if slots != [] {
      assert SlotOk(jobs, slots, texts, |slots| - 1);
    }
    forall i | first <= i < |slots| + 1 ensures SlotOk(Chained(jobs, slots, job), slots + [job], texts + [[]], i) {
      if i < |slots| {
        assert SlotOk(jobs, slots, texts, i);
      }
    }
  }

  lemma LinkJobs(s: State, p: nat)
    requires Inv(s) && Enabled(s, Link(p))
    ensures s.slots != [] ==> First(s) < |s.slots|
    ensures s.producers[p].job in s.jobs && s.jobs[s.producers[p].job] == Job(-1, s.producers[p].kind, 0, [], false)
    ensures s.slots != [] ==> s.slots[|s.slots| - 1] in s.jobs && s.slots[|s.slots| - 1] != s.producers[p].job
    ensures Do(s, Link(p)).jobs == Chained(s.jobs, s.slots, s.producers[p].job)
  {
    LinkEnds(s, p);
  }

  lemma LinkEnds(s: State, p: nat)
    requires Inv(s) && Enabled(s, Link(p))
    ensures s.slots != [] ==> First(s) < |s.slots|
    ensures s.producers[p].job in s.jobs && s.jobs[s.producers[p].job] == Job(-1, s.producers[p].kind, 0, [], false)
    ensures s.slots != [] ==> s.slots[|s.slots| - 1] in s.jobs && s.slots[|s.slots| - 1] != s.producers[p].job
  {
    assert ProducerOk(s.jobs, s.slots, |s.sent|, s.producers[p]);
    NotOver(s, p);
    if s.slots != [] {
      assert SlotOk(s.jobs, s.slots, s.texts, |s.slots| - 1);
    }
  }

  lemma LinkProducers(jobs: map<nat, Job>, slots: seq<nat>, done: nat, producers: seq<Producer>, p: nat,
                      jobs': map<nat, Job>, next: Producer)
    requires p < |producers| && AllOk(jobs, slots, done, producers) && AllApart(producers) && done <= |slots|
    requires producers[p].Prepared? && MutexFree(producers) && next == Linked(producers[p].job, producers[p].kind)
    requires next.job in jobs && jobs'.Keys == jobs.Keys && jobs'[next.job] == jobs[next.job].(ticket := |slots|)
    requires forall j :: j in jobs && j != next.job ==> jobs'[j].(next := jobs[j].next) == jobs[j]
    requires forall j :: j in jobs && j != next.job && jobs[j].ticket < 0 ==> jobs'[j] == jobs[j]
    ensures AllOk(jobs', slots + [next.job], done, producers[p := next]) && AllApart(producers[p := next])
  {
    assert ProducerOk(jobs, slots, done, producers[p]);
    forall q | 0 <= q < |producers| && q != p
      ensures ProducerOk(jobs', slots + [next.job], done, producers[q]) && Apart(producers[q], next)
    {
      assert ProducerOk(jobs, slots, done, producers[q]) && Apart(producers[q], producers[p]);
      assert Owns(producers[p], next.job);
    }
    ProducerMoves(jobs, slots, jobs', slots + [next.job], done, producers, p, next);
  }

  /** What the link changes for the list, the producers and the accounts. */
  lemma LinkLists(s: State, p: nat, next: Producer, jobs: map<nat, Job>)
    requires Inv(s) && Enabled(s, Link(p)) && next == Linked(s.producers[p].job, s.producers[p].kind)
    requires jobs == Do(s, Link(p)).jobs
    ensures SlotsOk(jobs, s.slots + [next.job], s.texts + [[]], First(s))
    ensures AllOk(jobs, s.slots + [next.job], |s.sent|, s.producers[p := next]) && AllApart(s.producers[p := next])
    ensures AllAccounted(jobs, s.slots + [next.job], First(s), s.producers[p := next])
    ensures forall j :: j in s.jobs ==> j in jobs && jobs[j].kind == s.jobs[j].kind
  {
    LinkJobs(s, p);
    ChainedSlots(s.jobs, s.slots, s.texts, First(s), next.job, next.kind);
    LinkProducers(s.jobs, s.slots, |s.sent|, s.producers, p, jobs, next);
    AccountsMove(s.jobs, s.slots, jobs, s.slots + [next.job], First(s), s.producers, p, next, next.job);
  }

  lemma LinkCounts(s: State, p: nat, next: Producer, s': State)
    requires Inv(s) && Enabled(s, Link(p)) && s' == Do(s, Link(p))
    requires next == Linked(s.producers[p].job, s.producers[p].kind)
    ensures Counted(s') && First(s') == First(s)
  {
    UncountedUpdate(s.producers, p, next);
  }

  lemma LinkPointers(s: State, p: nat, next: Producer, s': State)
    requires Inv(s) && Enabled(s, Link(p)) && s' == Do(s, Link(p))
    requires next == Linked(s.producers[p].job, s.producers[p].kind)
    ensures Pointers(s'.head, s'.tail, s'.slots, MutexFree(s'.producers))
  {
    MutexMoves(s.producers, p, next);
  }

  lemma LinkKept(s: State, p: nat)
    requires Inv(s) && Enabled(s, Link(p))
    ensures Inv(Do(s, Link(p)))
  {
    var s', next := Do(s, Link(p)), Linked(s.producers[p].job, s.producers[p].kind);
    LinkCounts(s, p, next, s');
    LinkPointers(s, p, next, s');
    LinkLists(s, p, next, s'.jobs);
    assert ServiceOk(s'.jobs, s'.slots, |s.sent|, s.service, s.stream.buffer) by {
      NotOver(s, p);
    }
  }

  /** Another phase of the same push: the list stays, and so do the other producers. */
  lemma PhaseProducers(s: State, p: nat, next: Producer)
    requires Inv(s) && p < |s.producers| && !s.producers[p].Prepared? && !next.Prepared? && !next.Linked?
    requires ProducerOk(s.jobs, s.slots, |s.sent|, next)
    requires forall job :: Owns(next, job) ==> Owns(s.producers[p], job)
    ensures AllOk(s.jobs, s.slots, |s.sent|, s.producers[p := next]) && AllApart(s.producers[p := next])
    ensures AllAccounted(s.jobs, s.slots, First(s), s.producers[p := next])
  {
    forall q | 0 <= q < |s.producers| && q != p
      ensures ProducerOk(s.jobs, s.slots, |s.sent|, s.producers[q]) && Apart(s.producers[q], next)
    {
      assert Apart(s.producers[q], s.producers[p]);
    }
    ProducerMoves(s.jobs, s.slots, s.jobs, s.slots, |s.sent|, s.producers, p, next);
    AccountsStay(s.jobs, s.slots, s.jobs, First(s), s.producers, p, next);
  }

  lemma MoveKept(s: State, p: nat)
    requires Inv(s) && Enabled(s, Move(p))
    ensures Inv(Do(s, Move(p)))
  {
    var s', next := Do(s, Move(p)), Moved(s.producers[p].job, s.producers[p].kind);
    assert ProducerOk(s.jobs, s.slots, |s.sent|, s.producers[p]);
    PhaseProducers(s, p, next);
    assert Counted(s') by {
      UncountedUpdate(s.producers, p, next);
      NotOver(s, p);
    }
    assert Pointers(s'.head, s'.tail, s'.slots, MutexFree(s'.producers)) by {
      MutexMoves(s.producers, p, next);
    }
  }

  lemma PostKept(s: State, p: nat)
    requires Inv(s) && Enabled(s, Post(p))
    ensures Inv(Do(s, Post(p)))
  {
    var s' := Do(s, Post(p));
    var next := s'.producers[p];
    assert ProducerOk(s.jobs, s.slots, |s.sent|, s.producers[p]);
    PhaseProducers(s, p, next);
    assert Counted(s') by {
      UncountedUpdate(s.producers, p, next);
      NotOver(s, p);
    }
    assert Pointers(s'.head, s'.tail, s'.slots, MutexFree(s'.producers)) by {
      MutexMoves(s.producers, p, next);
    }
  }

  /** Accounts, when the moving producer's job is in the queue already. */
  lemma AccountsStay(jobs: map<nat, Job>, slots: seq<nat>, jobs': map<nat, Job>, first: nat,
                     producers: seq<Producer>, p: nat, next: Producer)
    requires p < |producers| && AllAccounted(jobs, slots, first, producers) && !producers[p].Prepared?
    requires forall j :: j in jobs' ==> j in jobs && jobs[j].ticket == jobs'[j].ticket
    ensures AllAccounted(jobs', slots, first, producers[p := next])
  {
    forall j | j in jobs' ensures Accounted(jobs', slots, first, producers[p := next], j) {
      assert Accounted(jobs, slots, first, producers, j);
      if q :| 0 <= q < |producers| && producers[q].Prepared? && producers[q].job == j {
        assert producers[p := next][q] == producers[q];
      }
    }
  }

  /** What a producer does to the job it builds concerns no other producer. */
  lemma BuildProducers(s: State, p: nat, jobs: map<nat, Job>, next: Producer)
    requires Inv(s) && p < |s.producers| && s.producers[p].Building?
    requires next == Away || next == s.producers[p]
    requires jobs.Keys == s.jobs.Keys
    requires forall j :: j in jobs && j != s.producers[p].job ==> jobs[j] == s.jobs[j]
    requires ProducerOk(jobs, s.slots, |s.sent|, next)
    ensures AllOk(jobs, s.slots, |s.sent|, s.producers[p := next]) && AllApart(s.producers[p := next])
  {
    forall q | 0 <= q < |s.producers| && q != p
      ensures ProducerOk(jobs, s.slots, |s.sent|, s.producers[q]) && Apart(s.producers[q], next)
    {
      assert ProducerOk(s.jobs, s.slots, |s.sent|, s.producers[q]) && Apart(s.producers[q], s.producers[p]);
      assert ProducerOk(s.jobs, s.slots, |s.sent|, s.producers[p]);
      assert Owns(s.producers[p], s.producers[p].job);
    }
    ProducerMoves(s.jobs, s.slots, jobs, s.slots, |s.sent|, s.producers, p, next);
  }

  lemma FillKept(s: State, p: nat, text: seq<byte>)
    requires Inv(s) && Enabled(s, Fill(p, text))
    ensures Inv(Do(s, Fill(p, text)))
  {
    var s', job := Do(s, Fill(p, text)), s.producers[p].job;
    assert ProducerOk(s.jobs, s.slots, |s.sent|, s.producers[p]);
    BuildProducers(s, p, s'.jobs, s.producers[p]);
    assert s.producers[p := s.producers[p]] == s.producers;
    forall i | First(s) <= i < |s.slots| ensures SlotOk(s'.jobs, s.slots, s'.texts, i) {
      assert SlotOk(s.jobs, s.slots, s.texts, i);
    }
    AccountsStay(s.jobs, s.slots, s'.jobs, First(s), s.producers, p, s.producers[p]);
  }

  lemma ReadyKept(s: State, p: nat)
    requires Inv(s) && Enabled(s, Ready(p))
    ensures Inv(Do(s, Ready(p)))
  {
    var s', job := Do(s, Ready(p)), s.producers[p].job;
    UncountedUpdate(s.producers, p, Away);
    MutexMoves(s.producers, p, Away);
    assert ProducerOk(s.jobs, s.slots, |s.sent|, s.producers[p]);
    BuildProducers(s, p, s'.jobs, Away);
    NotOver(s, p);
    forall i | First(s) <= i < |s.slots| ensures SlotOk(s'.jobs, s.slots, s.texts, i) {
      assert SlotOk(s.jobs, s.slots, s.texts, i);
    }
    AccountsStay(s.jobs, s.slots, s'.jobs, First(s), s.producers, p, Away);
  }

  lemma CloseKept(s: State)
    requires Inv(s) && Enabled(s, SignalClose)
    ensures Inv(Do(s, SignalClose))
  {
  }

  // ----- the service thread

  lemma ConcatOne(parts: seq<seq<byte>>, part: seq<byte>)
    ensures Concat(parts + [part]) == Concat(parts) + part
  {
    assert (parts + [part])[..|parts|] == parts;
  }

  /** A job adds its record to the stream; records of other jobs than commits are empty. */
  lemma AfterJobAll(stream: Stream, job: Job)
    requires |stream.buffer| <= WRITE_BUFFER_SIZE && (job.kind.Commit? || job.text == [])
    ensures AfterJob(stream, job).All() == stream.All() + job.text
    ensures |AfterJob(stream, job).buffer| <= WRITE_BUFFER_SIZE
    ensures Syncs(job.kind) ==> AfterJob(stream, job).buffer == []
    ensures stream.file <= AfterJob(stream, job).file
  {
    WrittenKeeps(stream, job.text);
  }

  lemma WakeKept(s: State, step: Step)
    requires Inv(s) && Enabled(s, step) && (step.WakeFirst? || step.Wake?)
    ensures Inv(Do(s, step))
  {
  }

  lemma ReadHeadKept(s: State)
    requires Inv(s) && Enabled(s, ReadHead)
    ensures Inv(Do(s, ReadHead))
  {
    if s.slots != [] {
      assert SlotOk(s.jobs, s.slots, s.texts, 0);
    }
  }

  /** A processed job adds the record that its producer left. */
  lemma ProcessSends(s: State, s': State, job: nat)
    requires Inv(s) && Enabled(s, Process) && s' == Do(s, Process) && job == s.service.job
    ensures job in s.jobs && s'.service == Pausing(job) && |s'.sent| == |s.sent| + 1 && job == s.slots[|s.sent|]
    ensures SentOk(s'.stream, s.slots, s.texts, s'.served, s'.sent)
    ensures Syncs(s.jobs[job].kind) ==> s'.stream.buffer == []
  {
    assert SlotOk(s.jobs, s.slots, s.texts, |s.sent|);
    AfterJobAll(s.stream, s.jobs[job]);
    ConcatOne(s.sent, s.jobs[job].text);
  }

  /** It is not one that a producer still writes to. */
  lemma ProcessSpares(s: State, job: nat)
    requires Inv(s) && Enabled(s, Process) && job == s.service.job
    ensures AllOk(s.jobs, s.slots, |s.sent| + 1, s.producers)
  {
    assert SlotOk(s.jobs, s.slots, s.texts, |s.sent|);
    forall p | 0 <= p < |s.producers| ensures ProducerOk(s.jobs, s.slots, |s.sent| + 1, s.producers[p]) {
      assert ProducerOk(s.jobs, s.slots, |s.sent|, s.producers[p]);
    }
  }

  lemma ProcessKept(s: State)
    requires Inv(s) && Enabled(s, Process)
    ensures Inv(Do(s, Process))
  {
    var s', job := Do(s, Process), s.service.job;
    ProcessSends(s, s', job);
    ProcessSpares(s, job);
    assert Counted(s') && First(s') == First(s);
  }

  lemma ReadNextKept(s: State)
    requires Inv(s) && Enabled(s, ReadNext)
    ensures Inv(Do(s, ReadNext))
  {
    assert SlotOk(s.jobs, s.slots, s.texts, |s.sent| - 1);
  }

  /** The job that is freed is nobody's: it is processed, and queued no more. */
  lemma FreeOthers(s: State, jobs: map<nat, Job>)
    requires Inv(s) && s.service.Freeing? && jobs == s.jobs - {s.service.job}
    ensures SlotsOk(jobs, s.slots, s.texts, |s.sent|) && AllOk(jobs, s.slots, |s.sent|, s.producers)
    ensures AllAccounted(jobs, s.slots, |s.sent|, s.producers)
  {
    assert SlotOk(s.jobs, s.slots, s.texts, |s.sent| - 1);
    forall i | |s.sent| <= i < |s.slots| ensures SlotOk(jobs, s.slots, s.texts, i) {
      assert SlotOk(s.jobs, s.slots, s.texts, i);
    }
    forall p | 0 <= p < |s.producers| ensures ProducerOk(jobs, s.slots, |s.sent|, s.producers[p]) {
      assert ProducerOk(s.jobs, s.slots, |s.sent|, s.producers[p]);
    }
    forall j | j in jobs ensures Accounted(jobs, s.slots, |s.sent|, s.producers, j) {
      assert Accounted(s.jobs, s.slots, First(s), s.producers, j);
    }
  }

  lemma FreeKept(s: State)
    requires Inv(s) && Enabled(s, Free)
    ensures Inv(Do(s, Free))
  {
    FreeOthers(s, s.jobs - {s.service.job});
    if |s.sent| < |s.slots| {
      assert SlotOk(s.jobs, s.slots, s.texts, |s.sent|);
    }
  }

  lemma StepKept(s: State, step: Step)
    requires Inv(s) && Enabled(s, step)
    ensures Inv(Do(s, step))
  {
    match step
    case Prepare(p, job, kind) => PrepareKept(s, p, job, kind);
    case Link(p) => LinkKept(s, p);
    case Move(p) => MoveKept(s, p);
    case Post(p) => PostKept(s, p);
    case Fill(p, text) => FillKept(s, p, text);
    case Ready(p) => ReadyKept(s, p);
    case SignalClose => CloseKept(s);
    case WakeFirst => WakeKept(s, step);
    case ReadHead => ReadHeadKept(s);
    case Process => ProcessKept(s);
    case Wake => WakeKept(s, step);
    case ReadNext => ReadNextKept(s);
    case Free => FreeKept(s);
  }

  lemma {:induction false} RunInv(run: seq<State>, i: nat)
    requires Run(run) && i < |run|
    ensures Inv(run[i])
  {
    if i == 0 {
      InitInv(run[0]);
    } else {
      RunInv(run, i - 1);
      assert Stepped(run[i - 1], run[i - 1 + 1]);
      var step :| Enabled(run[i - 1], step) && run[i] == Do(run[i - 1], step);
      StepKept(run[i - 1], step);
    }
  }

  // ----- theorems

  /** Every job queued is processed once, in the order of the queue, with the record that the
      producer of this very job left in it; and the file with the buffer is exactly these
      records. */
  lemma Fifo(run: seq<State>, i: nat)
    requires Run(run) && i < |run|
    ensures run[i].sent <= run[i].texts && |run[i].texts| == |run[i].slots|
    ensures |run[i].served| == |run[i].sent| && run[i].served <= run[i].slots
    ensures run[i].stream.file + run[i].stream.buffer == Concat(run[i].sent)
  {
    RunInv(run, i);
  }

  lemma StepGrows(s: State, step: Step)
    requires Inv(s) && Enabled(s, step)
    ensures s.sent <= Do(s, step).sent && s.slots <= Do(s, step).slots && s.stream.file <= Do(s, step).stream.file
  {
    if step.Process? {
      assert SlotOk(s.jobs, s.slots, s.texts, |s.sent|);
      AfterJobAll(s.stream, s.jobs[s.service.job]);
    }
  }

  /** What was sent stays sent, and what is in the file stays there. */
  lemma {:induction false} SentGrows(run: seq<State>, i: nat, j: nat)
    requires Run(run) && i <= j < |run|
    ensures run[i].sent <= run[j].sent && run[i].slots <= run[j].slots && run[i].stream.file <= run[j].stream.file
    decreases j
  {
    if i < j {
      SentGrows(run, i, j - 1);
      RunInv(run, j - 1);
      assert Stepped(run[j - 1], run[j - 1 + 1]);
      var step :| Enabled(run[j - 1], step) && run[j] == Do(run[j - 1], step);
      StepGrows(run[j - 1], step);
    }
  }

  /** `tail` does not point into freed memory. */
  ghost predicate TailAlive(s: State) {
    s.tail.NextOf? ==> s.tail.job in s.jobs
  }

  lemma TailKeptAlive(s: State)
    requires Inv(s) && !s.service.Stopped?
    ensures TailAlive(s)
  {
    if s.slots != [] {
      if p :| 0 <= p < |s.producers| && s.producers[p].Linked? {
        UncountedSome(s.producers, p);
        if |s.slots| > 1 {
          assert SlotOk(s.jobs, s.slots, s.texts, |s.slots| - 2);
        }
      } else {
        assert SlotOk(s.jobs, s.slots, s.texts, |s.slots| - 1);
      }
    }
  }

  /** No job is used after it was freed: not through `tail` while the service thread lives, and
      it lives while anybody pushes; not by its producer; not by the service thread. */
  lemma NothingDangles(run: seq<State>, i: nat)
    requires Run(run) && i < |run|
    ensures !run[i].service.Stopped? ==> TailAlive(run[i])
    ensures run[i].service.Stopped? ==> AllAway(run[i].producers)
    ensures forall pc :: pc in run[i].producers && (pc.Prepared? || pc.Building?) ==> pc.job in run[i].jobs
    ensures var sv := run[i].service; sv.Working? || sv.Pausing? || sv.Woken? || sv.Freeing? ==> sv.job in run[i].jobs
  {
    RunInv(run, i);
    var s := run[i];
    if !s.service.Stopped? {
      TailKeptAlive(s);
    }
    forall p | 0 <= p < |s.producers| && (s.producers[p].Prepared? || s.producers[p].Building?)
      ensures s.producers[p].job in s.jobs
    {
      assert ProducerOk(s.jobs, s.slots, |s.sent|, s.producers[p]);
    }
    if s.slots != [] && First(s) < |s.slots| {
      assert SlotOk(s.jobs, s.slots, s.texts, First(s));
    }
  }

  /** The service thread ends only after the close signal, with every job processed and freed
      and every record in the file. */
  lemma ClosedAfterAll(run: seq<State>, i: nat)
    requires Run(run) && i < |run| && run[i].service.Stopped?
    ensures run[i].closing && run[i].sent == run[i].texts && run[i].jobs == map[]
    ensures run[i].stream == Stream(Concat(run[i].texts), [])
  {
    RunInv(run, i);
    var s := run[i];
    assert s.jobs.Keys == {};
    assert s.stream.file + [] == s.stream.file;
  }

  /** A service thread that waits for the counter has nothing to do: no job is overlooked. */
  lemma NoJobOverlooked(run: seq<State>, i: nat)
    requires Run(run) && i < |run|
    requires (run[i].service.Resting? || run[i].service.Pausing?) && run[i].counter == 0
    requires AllAway(run[i].producers)
    ensures run[i].sent == run[i].texts && !run[i].closing
  {
    RunInv(run, i);
    UncountedNone(run[i].producers);
  }

  /** When a synchronous job is done, its record and all before it are in the file. */
  lemma SyncIsDurable(run: seq<State>, i: nat)
    requires Run(run) && i < |run| && run[i].service.Pausing?
    requires Syncs(At(run[i], run[i].service.job).kind)
    ensures 0 < |run[i].sent| <= |run[i].slots| && run[i].slots[|run[i].sent| - 1] == run[i].service.job
    ensures run[i].stream.file == Concat(run[i].sent)
  {
    RunInv(run, i);
    assert run[i].stream.file + [] == run[i].stream.file;
  }
}
