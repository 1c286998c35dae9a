/** What the invariant means for a user: serializability, consistent snapshots,
    the order of the disk queue, real-time order and lock discipline. */
module StmTheorems {
  import opened StmModel
  import opened StmInvariant
  import opened StmValues
  import opened StmShape
  import opened StmSteps

  // ----- a serial machine, the reference the interleaved one is compared with

  /** Memory after one transaction's writes, executed alone. */
  ghost function RunLog(mem: Memory, log: seq<LogItem>): Memory {
    if log == [] then mem
    else
      var before := RunLog(mem, DropLast(log));
      if Last(log).Wrote? then before[Last(log).loc := Last(log).newVal] else before
  }

  /** Executed alone on `mem`, the transaction would read exactly what `r` recorded. */
  ghost predicate SeesSerially(mem: Memory, log: seq<LogItem>, r: ReadEv) {
    r.at <= |log| && RunLog(mem, log[..r.at])[r.loc] == r.val
  }

  /** Memory after executing, one after another, the committed records listed in `order`. */
  ghost function SerialMem(init: Memory, hist: seq<Rec>, order: seq<nat>): Memory
    requires forall p :: 0 <= p < |order| ==> order[p] < |hist|
  {
    if order == [] then init
    else
      var before := SerialMem(init, hist, DropLast(order));
      if hist[Last(order)].status.Committed? then RunLog(before, hist[Last(order)].log) else before
  }

  /** The order of end times: 0, 1, .., k - 1. */
  function Ticks(k: nat): (order: seq<nat>)
    ensures |order| == k && forall p :: 0 <= p < k ==> order[p] == p
  {
    if k == 0 then [] else Ticks(k - 1) + [k - 1]
  }

  lemma {:induction false} RunLogAt(mem: Memory, log: seq<LogItem>, loc: Loc)
    ensures RunLog(mem, log)[loc] == ApplyAt(log, loc, mem[loc])
  {
    if log != [] {
      RunLogAt(mem, DropLast(log), loc);
    }
  }

  lemma {:induction false} TickMem(init: Memory, hist: seq<Rec>, k: nat, loc: Loc)
    requires k <= |hist|
    ensures SerialMem(init, hist, Ticks(k))[loc] == ValueAt(init, hist, k, loc)
  {
    if k > 0 {
      assert DropLast(Ticks(k)) == Ticks(k - 1);
      TickMem(init, hist, k - 1, loc);
      RunLogAt(SerialMem(init, hist, Ticks(k - 1)), hist[k - 1].log, loc);
    }
  }

  lemma SeesValue(init: Memory, hist: seq<Rec>, k: nat, log: seq<LogItem>, r: ReadEv)
    requires k <= |hist| && r.at <= |log|
    requires r.val == ApplyAt(log[..r.at], r.loc, ValueAt(init, hist, k, r.loc))
    ensures SeesSerially(SerialMem(init, hist, Ticks(k)), log, r)
  {
    TickMem(init, hist, k, r.loc);
    RunLogAt(SerialMem(init, hist, Ticks(k)), log[..r.at], r.loc);
  }

  /** Serializability by end time.  In every state of every run each committed writer's
      surviving reads are those of its serial execution after all earlier end times, each
      read-only commit's are those of its start time, and unlocked memory is what the
      serial execution of all committed transactions leaves. */
  lemma Serializable(run: seq<State>, n: nat)
    requires Run(run) && n < |run|
    ensures var s := run[n];
      && (forall i, k :: 0 <= i < |s.hist| && s.hist[i].status.Committed? && 0 <= k < |s.hist[i].readSet| ==>
            SeesSerially(SerialMem(s.init, s.hist, Ticks(i)), s.hist[i].log, s.hist[i].readSet[k]))
      && (forall i, k :: 0 <= i < |s.hist| && s.hist[i].status.Snapshot? && 0 <= k < |s.hist[i].readSet| ==>
            Upto(s.hist[i].start) <= i
            && SeesSerially(SerialMem(s.init, s.hist, Ticks(Upto(s.hist[i].start))), s.hist[i].log, s.hist[i].readSet[k]))
      && (forall loc: Loc :: !s.locks[loc.obj].Held? ==>
            s.mem[loc] == SerialMem(s.init, s.hist, Ticks(|s.hist|))[loc])
  {
    var s := run[n];
    RunInv(run, n);
    forall i, k | 0 <= i < |s.hist| && s.hist[i].status.Committed? && 0 <= k < |s.hist[i].readSet|
      ensures SeesSerially(SerialMem(s.init, s.hist, Ticks(i)), s.hist[i].log, s.hist[i].readSet[k])
    {
      CommittedRead(s, i, k);
      SeesValue(s.init, s.hist, i, s.hist[i].log, s.hist[i].readSet[k]);
    }
    forall i, k | 0 <= i < |s.hist| && s.hist[i].status.Snapshot? && 0 <= k < |s.hist[i].readSet|
      ensures SeesSerially(SerialMem(s.init, s.hist, Ticks(Upto(s.hist[i].start))), s.hist[i].log, s.hist[i].readSet[k])
    {
      assert RecOk(s, i);
      SeesValue(s.init, s.hist, Upto(s.hist[i].start), s.hist[i].log, s.hist[i].readSet[k]);
    }
    forall loc: Loc | !s.locks[loc.obj].Held?
      ensures s.mem[loc] == SerialMem(s.init, s.hist, Ticks(|s.hist|))[loc]
    {
      assert LockOk(s, loc.obj);
      assert loc == Loc(loc.obj, loc.attr);
      TickMem(s.init, s.hist, |s.hist|, loc);
    }
  }

  lemma CommittedRead(s: State, i: nat, k: nat)
    requires Inv(s) && i < |s.hist| && s.hist[i].status.Committed? && k < |s.hist[i].readSet|
    ensures var r := s.hist[i].readSet[k];
      r.at <= |s.hist[i].log| && r.val == ApplyAt(s.hist[i].log[..r.at], r.loc, ValueAt(s.init, s.hist, i, r.loc))
  {
    assert RecOk(s, i);
    var r := s.hist[i].readSet[k];
    assert ValidatedRead(s, s.hist[i].start, i, r.loc.obj);
    ValueSkip(s.init, s.hist, Upto(s.hist[i].start), i, r.loc);
  }

  /** Consistent snapshots, also for transactions that will fail: every read whose check
      passed returned the transaction's own write or what the commits with an end time
      at most its start time left, in one and the same memory. */
  lemma ConsistentSnapshot(run: seq<State>, n: nat, h: nat, k: nat)
    requires Run(run) && n < |run| && h < |run[n].handles|
    requires Active(run[n].handles[h].pc) && k < run[n].handles[h].good
    ensures var s := run[n]; var hd := s.handles[h];
      && Upto(hd.start) <= |s.hist| && k < |hd.readSet|
      && SeesSerially(SerialMem(s.init, s.hist, Ticks(Upto(hd.start))), hd.log, hd.readSet[k])
  {
    var s := run[n];
    RunInv(run, n);
    Facts(s, h);
    var hd := s.handles[h];
    assert ReadOk(s.init, s.hist, hd.start, hd.log, hd.readSet[k]);
    SeesValue(s.init, s.hist, Upto(hd.start), hd.log, hd.readSet[k]);
  }

  // ----- the disk queue

  ghost predicate Conflicts(a: Rec, b: Rec) {
    exists o: nat ::
      || (Touches(a.log, o) && Touches(b.log, o))
      || (Touches(a.log, o) && ReadsObj(b, o))
      || (ReadsObj(a, o) && Touches(b.log, o))
  }

  ghost predicate ReadsObj(r: Rec, o: nat) {
    exists k :: 0 <= k < |r.readSet| && r.readSet[k].loc.obj == o
  }

  /** Two committed transactions that conflict are queued in the order of their end times. */
  lemma QueueFollowsTime(run: seq<State>, n: nat, p: nat, q: nat)
    requires Run(run) && n < |run| && p < q < |run[n].queue|
    ensures var s := run[n];
      && s.queue[p] < |s.hist| && s.queue[q] < |s.hist|
      && var (i, j) := (s.queue[p], s.queue[q]);
         s.hist[i].status.Committed? && s.hist[j].status.Committed? && Conflicts(s.hist[i], s.hist[j]) ==> i < j
  {
    var s := run[n];
    RunInv(run, n);
    var i, j := s.queue[p], s.queue[q];
    if s.hist[i].status.Committed? && s.hist[j].status.Committed? && Conflicts(s.hist[i], s.hist[j]) && j < i {
      var o: nat :| (Touches(s.hist[i].log, o) && Touches(s.hist[j].log, o))
                    || (Touches(s.hist[i].log, o) && ReadsObj(s.hist[j], o))
                    || (ReadsObj(s.hist[i], o) && Touches(s.hist[j].log, o));
      QueuedBefore(s, j, i, p, o);
    }
  }

  /** An earlier conflicting commit is queued before position `p` of the later one. */
  lemma QueuedBefore(s: State, i: nat, j: nat, p: nat, o: nat)
    requires Inv(s) && p < |s.queue| && s.queue[p] == j && i < j < |s.hist|
    requires s.hist[i].status.Committed? && s.hist[j].status.Committed?
    requires
      || (Touches(s.hist[i].log, o) && Touches(s.hist[j].log, o))
      || (Touches(s.hist[i].log, o) && ReadsObj(s.hist[j], o))
      || (ReadsObj(s.hist[i], o) && Touches(s.hist[j].log, o))
    ensures i in s.queue[..p]
  {
    assert WritersFirst(s.hist, s.queue, p);
    if Touches(s.hist[i].log, o) && Touches(s.hist[j].log, o) {
    } else if Touches(s.hist[i].log, o) {
      var k :| 0 <= k < |s.hist[j].readSet| && s.hist[j].readSet[k].loc.obj == o;
      assert RecOk(s, j);
      assert ValidatedRead(s, s.hist[j].start, j, s.hist[j].readSet[k].loc.obj);
    } else {
      var k :| 0 <= k < |s.hist[i].readSet| && s.hist[i].readSet[k].loc.obj == o;
      assert RecOk(s, i);
      assert ValidatedRead(s, s.hist[i].start, i, s.hist[i].readSet[k].loc.obj);
    }
  }

  /** The value at `loc` after the committed transactions of a list of records. */
  ghost function QueueValue(init: Memory, hist: seq<Rec>, order: seq<nat>, loc: Loc): int
    requires forall p :: 0 <= p < |order| ==> order[p] < |hist|
  {
    if order == [] then init[loc]
    else
      var before := QueueValue(init, hist, DropLast(order), loc);
      if hist[Last(order)].status.Committed? then ApplyAt(hist[Last(order)].log, loc, before) else before
  }

  lemma {:induction false} SerialMemAt(init: Memory, hist: seq<Rec>, order: seq<nat>, loc: Loc)
    requires forall p :: 0 <= p < |order| ==> order[p] < |hist|
    ensures SerialMem(init, hist, order)[loc] == QueueValue(init, hist, order, loc)
  {
    if order != [] {
      SerialMemAt(init, hist, DropLast(order), loc);
      RunLogAt(SerialMem(init, hist, DropLast(order)), hist[Last(order)].log, loc);
    }
  }

  ghost predicate Writer(hist: seq<Rec>, i: nat, o: nat) {
    i < |hist| && hist[i].status.Committed? && Touches(hist[i].log, o)
  }

  /** A queue prefix that holds exactly the writers of `o` below `j`, in end-time order,
      leaves at `o` what the end-time order leaves. */
  lemma {:induction false} PrefixValue(init: Memory, hist: seq<Rec>, order: seq<nat>, j: nat, loc: Loc)
    requires j <= |hist| && forall p :: 0 <= p < |order| ==> order[p] < |hist|
    requires forall p, q :: 0 <= p < q < |order| && Writer(hist, order[p], loc.obj) && Writer(hist, order[q], loc.obj) ==>
               order[p] < order[q]
    requires forall p :: 0 <= p < |order| && Writer(hist, order[p], loc.obj) ==> order[p] < j
    requires forall i :: 0 <= i < j && Writer(hist, i, loc.obj) ==> i in order
    ensures QueueValue(init, hist, order, loc) == ValueAt(init, hist, j, loc)
  {
    if order == [] {
      forall i | 0 <= i < j && hist[i].status.Committed? ensures !Touches(hist[i].log, loc.obj) {
        assert !Writer(hist, i, loc.obj);
      }
      ValueSkip(init, hist, 0, j, loc);
    } else {
      var rest, e := DropLast(order), Last(order);
      forall i | 0 <= i < |hist| && i in order && i != e ensures i in rest {
        var p :| 0 <= p < |order| && order[p] == i;
        assert rest[p] == i;
      }
      if Writer(hist, e, loc.obj) {
        forall i | i in rest && Writer(hist, i, loc.obj) ensures i < e {
          var p :| 0 <= p < |rest| && rest[p] == i;
          assert order[p] < order[|order| - 1];
        }
        forall i | e < i < j && hist[i].status.Committed? ensures !Touches(hist[i].log, loc.obj) {
          assert Writer(hist, i, loc.obj) ==> i in rest;
        }
        ValueSkip(init, hist, e + 1, j, loc);
        PrefixValue(init, hist, rest, e, loc);
      } else {
        PrefixValue(init, hist, rest, j, loc);
        if hist[e].status.Committed? {
          ApplyUntouched(hist[e].log, loc, QueueValue(init, hist, rest, loc));
        }
      }
    }
  }

  lemma QueueWritersInOrder(s: State, p: nat, q: nat, o: nat)
    requires Inv(s) && p < q < |s.queue|
    requires Writer(s.hist, s.queue[p], o) && Writer(s.hist, s.queue[q], o)
    ensures s.queue[p] < s.queue[q]
  {
    if s.queue[q] < s.queue[p] {
      QueuedBefore(s, s.queue[q], s.queue[p], p, o);
    }
  }

  /** The queue is itself a serialization: executing its committed transactions in queue
      order gives each the reads it observed, so every prefix of the queue is a serial state;
      and the whole queue leaves the memory that end-time order leaves. */
  lemma QueueIsSerial(run: seq<State>, n: nat)
    requires Run(run) && n < |run|
    ensures var s := run[n];
      && (forall p :: 0 <= p < |s.queue| ==> s.queue[p] < |s.hist|)
      && (forall p, k ::
            (0 <= p < |s.queue| && s.hist[s.queue[p]].status.Committed? && 0 <= k < |s.hist[s.queue[p]].readSet|) ==>
            SeesSerially(SerialMem(s.init, s.hist, s.queue[..p]), s.hist[s.queue[p]].log, s.hist[s.queue[p]].readSet[k]))
      && (forall loc: Loc :: SerialMem(s.init, s.hist, s.queue)[loc] == SerialMem(s.init, s.hist, Ticks(|s.hist|))[loc])
  {
    var s := run[n];
    RunInv(run, n);
    forall p, k | 0 <= p < |s.queue| && s.hist[s.queue[p]].status.Committed? && 0 <= k < |s.hist[s.queue[p]].readSet|
      ensures SeesSerially(SerialMem(s.init, s.hist, s.queue[..p]), s.hist[s.queue[p]].log, s.hist[s.queue[p]].readSet[k])
    {
      QueuedRead(s, p, k);
    }
    forall loc: Loc
      ensures SerialMem(s.init, s.hist, s.queue)[loc] == SerialMem(s.init, s.hist, Ticks(|s.hist|))[loc]
    {
      forall p, q | 0 <= p < q < |s.queue| && Writer(s.hist, s.queue[p], loc.obj) && Writer(s.hist, s.queue[q], loc.obj)
        ensures s.queue[p] < s.queue[q]
      {
        QueueWritersInOrder(s, p, q, loc.obj);
      }
      PrefixValue(s.init, s.hist, s.queue, |s.hist|, loc);
      SerialMemAt(s.init, s.hist, s.queue, loc);
      TickMem(s.init, s.hist, |s.hist|, loc);
    }
  }

  lemma QueuedRead(s: State, p: nat, k: nat)
    requires Inv(s) && p < |s.queue| && s.queue[p] < |s.hist| && s.hist[s.queue[p]].status.Committed?
    requires k < |s.hist[s.queue[p]].readSet|
    requires forall q :: 0 <= q < |s.queue| ==> s.queue[q] < |s.hist|
    ensures SeesSerially(SerialMem(s.init, s.hist, s.queue[..p]), s.hist[s.queue[p]].log, s.hist[s.queue[p]].readSet[k])
  {
    var j := s.queue[p];
    var r := s.hist[j].readSet[k];
    var order := s.queue[..p];
    CommittedRead(s, j, k);
    assert ReadsObj(s.hist[j], r.loc.obj);
    forall x, y | 0 <= x < y < |order| && Writer(s.hist, order[x], r.loc.obj) && Writer(s.hist, order[y], r.loc.obj)
      ensures order[x] < order[y]
    {
      QueueWritersInOrder(s, x, y, r.loc.obj);
    }
    forall x | 0 <= x < |order| && Writer(s.hist, order[x], r.loc.obj) ensures order[x] < j {
      if j < order[x] {
        QueuedBefore(s, j, order[x], x, r.loc.obj);
      }
    }
    forall i | 0 <= i < j && Writer(s.hist, i, r.loc.obj) ensures i in order {
      QueuedBefore(s, i, j, p, r.loc.obj);
    }
    PrefixValue(s.init, s.hist, order, j, r.loc);
    SerialMemAt(s.init, s.hist, order, r.loc);
    RunLogAt(SerialMem(s.init, s.hist, order), s.hist[j].log[..r.at], r.loc);
  }

  // ----- real-time order

  ghost predicate BegunSince(s: State, h: nat, len: nat) {
    && h < |s.handles| && len <= |s.hist|
    && (!s.handles[h].pc.Idle? ==> Upto(s.handles[h].start) >= len)
    && forall j :: len <= j < |s.hist| && s.hist[j].owner == h ==> Upto(s.hist[j].start) >= len
  }

  lemma HistEffect(s: State, step: Step)
    requires Enabled(s, step)
    ensures var s' := Do(s, step);
      && |s.hist| <= |s'.hist|
      && (forall j :: 0 <= j < |s.hist| ==> s'.hist[j].owner == s.hist[j].owner && s'.hist[j].start == s.hist[j].start)
      && (forall j :: |s.hist| <= j < |s'.hist| ==>
            HandleStep(step) && s'.hist[j].owner == step.h && s'.hist[j].start == s.handles[step.h].start
            && !s.handles[step.h].pc.Idle?)
  {
  }

  lemma StartNests(s: State, step: Step)
    requires Enabled(s, step) && (Nests(step) || step.Push? || step.Decide?)
    ensures DoHandle(s, step).start == s.handles[step.h].start && !s.handles[step.h].pc.Idle?
  {
  }

  lemma StartReads(s: State, step: Step)
    requires Enabled(s, step) && (step.Load? || step.Check? || step.ReadLock?)
    ensures DoHandle(s, step).start == s.handles[step.h].start && !s.handles[step.h].pc.Idle?
  {
  }

  lemma StartWrites(s: State, step: Step)
    requires Enabled(s, step) && (step.Cas? || step.WriteStep? || step.Annotate? || step.Abort?)
    ensures DoHandle(s, step).start == s.handles[step.h].start && !s.handles[step.h].pc.Idle?
  {
  }

  lemma StartEnds(s: State, step: Step)
    requires Enabled(s, step) && (step.UndoItem? || step.AbortStamp? || step.CommitReadOnly? || step.CommitStamp?
                                  || step.Validate? || step.Release?)
    ensures DoHandle(s, step).start == s.handles[step.h].start && !s.handles[step.h].pc.Idle?
  {
  }

  lemma StartLast(s: State, step: Step)
    requires Enabled(s, step) && (step.Begin? || step.Released? || step.Post?)
    ensures DoHandle(s, step).pc.Idle? || DoHandle(s, step).start == s.time
            || (step.Released? && DoHandle(s, step).start == s.handles[step.h].start)
  {
  }

  /** A running transaction keeps its start time; a new one takes the clock. */
  lemma StartKept(s: State, step: Step)
    requires Enabled(s, step) && HandleStep(step)
    ensures var hd, hd' := s.handles[step.h], DoHandle(s, step);
      || (!hd.pc.Idle? && hd'.start == hd.start)
      || ((step.Begin? || step.Released? || step.Post?) && (hd'.pc.Idle? || hd'.start == s.time))
  {
    if Nests(step) || step.Push? || step.Decide? {
      StartNests(s, step);
    } else if step.Load? || step.Check? || step.ReadLock? {
      StartReads(s, step);
    } else if Accesses(step) || step.Abort? {
      StartWrites(s, step);
    } else if step.Begin? || step.Released? || step.Post? {
      StartLast(s, step);
    } else {
      StartEnds(s, step);
    }
  }

  lemma HandlesOf(s: State, step: Step)
    requires Enabled(s, step) && HandleStep(step)
    ensures Do(s, step).handles == s.handles[step.h := DoHandle(s, step)]
  {
  }

  lemma HandlesStay(s: State, step: Step)
    requires Enabled(s, step) && !HandleStep(step)
    ensures Do(s, step).handles == s.handles
  {
  }

  lemma StartLater(hd: Handle, hd': Handle, time: nat, len: nat)
    requires !hd.pc.Idle? ==> Upto(hd.start) >= len
    requires Upto(time) >= len
    requires (!hd.pc.Idle? && hd'.start == hd.start) || hd'.pc.Idle? || hd'.start == time
    ensures !hd'.pc.Idle? ==> Upto(hd'.start) >= len
  {
  }

  lemma StartsLater(s: State, step: Step, s': State, h: nat, len: nat)
    requires Clock(s) && Enabled(s, step) && s' == Do(s, step) && h < |s.handles| && len <= |s.hist|
    requires !s.handles[h].pc.Idle? ==> Upto(s.handles[h].start) >= len
    ensures |s'.handles| == |s.handles|
    ensures !s'.handles[h].pc.Idle? ==> Upto(s'.handles[h].start) >= len
  {
    if !HandleStep(step) {
      HandlesStay(s, step);
    } else {
      HandlesOf(s, step);
      StartKept(s, step);
      StartLater(s.handles[step.h], DoHandle(s, step), s.time, if step.h == h then len else 0);
    }
  }

  lemma BegunSinceKept(s: State, step: Step, h: nat, len: nat)
    requires Clock(s) && Enabled(s, step) && BegunSince(s, h, len)
    ensures BegunSince(Do(s, step), h, len)
  {
    HistEffect(s, step);
    StartsLater(s, step, Do(s, step), h, len);
  }

  /** The step between two states of a run, from a state whose clock counts its history. */
  lemma StepOf(run: seq<State>, n: nat) returns (step: Step)
    requires Run(run) && n + 1 < |run|
    ensures Enabled(run[n], step) && run[n + 1] == Do(run[n], step) && Clock(run[n])
  {
    RunInv(run, n);
    assert StepAt(run, n);
    step :| Enabled(run[n], step) && run[n + 1] == Do(run[n], step);
  }

  /** Strictness.  A transaction that a handle begins after some moment is serialized, at its
      end time or its snapshot, after every clock increment of before that moment. */
  lemma {:induction false} RealTimeOrder(run: seq<State>, a: nat, b: nat, h: nat)
    requires Run(run) && a <= b < |run| && h < |run[a].handles| && run[a].handles[h].pc.Idle?
    ensures |run[a].hist| <= |run[b].hist| && h < |run[b].handles|
    ensures forall j :: |run[a].hist| <= j < |run[b].hist| && run[b].hist[j].owner == h ==>
              Upto(run[b].hist[j].start) >= |run[a].hist|
    ensures !run[b].handles[h].pc.Idle? ==> Upto(run[b].handles[h].start) >= |run[a].hist|
  {
    assert BegunSince(run[b], h, |run[a].hist|) by {
      RealTime(run, a, b, h);
    }
  }

  lemma {:induction false} RealTime(run: seq<State>, a: nat, b: nat, h: nat)
    requires Run(run) && a <= b < |run| && h < |run[a].handles| && run[a].handles[h].pc.Idle?
    ensures BegunSince(run[b], h, |run[a].hist|)
    decreases b
  {
    if a < b {
      RealTime(run, a, b - 1, h);
      BegunSinceNext(run, b - 1, b, h, |run[a].hist|);
    }
  }

  lemma BegunSinceNext(run: seq<State>, n: nat, m: nat, h: nat, len: nat)
    requires Run(run) && m == n + 1 < |run| && BegunSince(run[n], h, len)
    ensures BegunSince(run[m], h, len)
  {
    var step := StepOf(run, n);
    BegunSinceKept(run[n], step, h, len);
  }

  // ----- lock discipline

  /** A lower bound of every later version of the lock. */
  ghost function Floor(s: State, o: nat): nat
    requires s.locks[o].Held? ==> s.locks[o].owner < |s.handles|
  {
    match s.locks[o]
    case Free(version) => version
    case Held(h) => s.handles[h].start
    case Dumping => if s.dumper.DumpHolds? then s.dumper.version else 0
  }

  ghost predicate FloorDefined(s: State, o: nat) {
    s.locks[o].Held? ==> s.locks[o].owner < |s.handles|
  }

  /** The version does not fall.  It rises strictly when a handle gives back the lock, and is the
      same when the dumping thread does. */
  ghost predicate FloorRises(s: State, s': State, o: nat) {
    && FloorDefined(s, o) && FloorDefined(s', o)
    && Floor(s, o) <= Floor(s', o)
    && (s.locks[o].Held? && s'.locks[o].Free? ==> Floor(s, o) < Floor(s', o))
    && (s.locks[o].Dumping? ==> Floor(s, o) == Floor(s', o))
  }

  lemma LocksSame(s: State, step: Step)
    requires Enabled(s, step) && HandleStep(step) && !step.Cas? && !step.Release?
    ensures Do(s, step).locks == s.locks && Do(s, step).dumper == s.dumper
    ensures Do(s, step).handles == s.handles[step.h := DoHandle(s, step)]
  {
  }

  /** A step of handle `h` that leaves the locks, and the start time unless it is idle before or after. */
  lemma FloorSame(s: State, s': State, h: nat, o: nat)
    requires h < |s.handles| == |s'.handles| && LockOk(s, o) && Phase(s.handles[h])
    requires s'.locks == s.locks && s'.dumper == s.dumper
    requires forall k :: 0 <= k < |s.handles| && k != h ==> s'.handles[k] == s.handles[k]
    requires s.handles[h].acquired == [] || s'.handles[h].start == s.handles[h].start
    ensures FloorRises(s, s', o)
  {
  }

  lemma StartHeld(s: State, step: Step)
    requires Enabled(s, step) && HandleStep(step) && Phase(s.handles[step.h])
    ensures s.handles[step.h].acquired == [] || DoHandle(s, step).start == s.handles[step.h].start
  {
    StartKept(s, step);
  }

  lemma FloorDump(s: State, step: Step, o: nat)
    requires Enabled(s, step) && !HandleStep(step) && LockOk(s, o) && LocksOk(s)
    ensures FloorRises(s, Do(s, step), o)
  {
  }

  /** Versions never fall; a transaction's release raises the version strictly above its start
      time, hence above the version it locked; the dumping thread puts back the version it took. */
  lemma VersionRises(s: State, step: Step, o: nat)
    requires Inv(s) && Enabled(s, step)
    ensures FloorRises(s, Do(s, step), o)
  {
    assert LockOk(s, o);
    if !HandleStep(step) {
      FloorDump(s, step, o);
    } else {
      Facts(s, step.h);
      FloorHandle(s, step, o);
    }
  }

  lemma FloorHandle(s: State, step: Step, o: nat)
    requires Enabled(s, step) && HandleStep(step) && LockOk(s, o) && Phase(s.handles[step.h]) && Tied(s, step.h)
    ensures FloorRises(s, Do(s, step), o)
  {
    if step.Cas? {
      FloorCas(s, step.h, o);
    } else if step.Release? {
      FloorRelease(s, step.h, o);
    } else {
      LocksSame(s, step);
      StartHeld(s, step);
      FloorSame(s, Do(s, step), step.h, o);
    }
  }

  lemma FloorCas(s: State, h: nat, o: nat)
    requires Enabled(s, Cas(h)) && Phase(s.handles[h]) && LockOk(s, o)
    ensures FloorRises(s, Do(s, Cas(h)), o)
  {
  }

  lemma FloorRelease(s: State, h: nat, o: nat)
    requires Enabled(s, Release(h)) && Tied(s, h) && LockOk(s, o)
    ensures FloorRises(s, Do(s, Release(h)), o)
  {
  }

  /** A free lock holds an odd version at most the clock; a held one is in exactly one
      handle's list of acquired locks, once; otherwise the dumping thread holds it. */
  lemma LockDiscipline(run: seq<State>, n: nat, o: nat)
    requires Run(run) && n < |run|
    ensures var s := run[n];
      && (s.locks[o].Free? ==> s.locks[o].version % 2 == 1 && s.locks[o].version <= s.time)
      && (s.locks[o].Dumping? <==> s.dumper.DumpHolds? && s.dumper.obj == o)
      && (forall h :: 0 <= h < |s.handles| ==> (o in s.handles[h].acquired <==> s.locks[o] == Held(h)))
      && (forall h, i, j :: 0 <= h < |s.handles| && 0 <= i < j < |s.handles[h].acquired| ==>
            s.handles[h].acquired[i] != s.handles[h].acquired[j])
  {
    var s := run[n];
    RunInv(run, n);
    assert LockOk(s, o);
    forall h | 0 <= h < |s.handles|
      ensures o in s.handles[h].acquired <==> s.locks[o] == Held(h)
      ensures forall i, j :: 0 <= i < j < |s.handles[h].acquired| ==> s.handles[h].acquired[i] != s.handles[h].acquired[j]
    {
      Facts(s, h);
    }
  }
}
