/** Deferred reclamation in the generic allocator.

    Freed blocks wait in a list with the end time of the transaction that freed them.  A
    collection scans the start times of the handles one by one (`get_time`), takes the whole
    list, returns the blocks no younger than the least start time to malloc, and puts the
    others back.  Handles begin and end transactions meanwhile, and free blocks; to begin is
    one step, and to end is two, so that blocks of a transaction can be pushed while its own
    handle still shows its start time.  Any thread may collect, the service thread and aborting
    handles alike. */
module Reclamation {

  const NEVER: nat := 0xFFFF_FFFF_FFFF_FFFF

  datatype Item = Item(block: nat, time: nat)

  /** A thread that may collect. */
  datatype Collector =
    | Resting
    | Scanning(next: nat, least: nat)       // start times below `next` have been read
    | Sweeping(bound: nat, items: seq<Item>)

  datatype State = State(
    clock: nat,
    starts: seq<nat>,            // per handle, 0 when no transaction runs
    list: multiset<Item>,
    collectors: seq<Collector>)

  datatype Step =
    | Begin(h: nat)
    | Tick                                   // a commit or an abort takes its end time
    | End(h: nat)                            // and its handle is cleaned up, later
    | Push(item: Item)                       // a block freed by a commit's job, or by an abort
    | Scan(c: nat)                           // `get_time` begins
    | ScanHandle(c: nat)
    | Swap(c: nat, taken: seq<Item>)         // the whole list is taken, in some order
    | Sweep(c: nat)                          // one item is returned or put back

  predicate Enabled(s: State, step: Step) {
    match step
    case Begin(h) => h < |s.starts| && s.starts[h] == 0
    case Tick => true
    case End(h) => h < |s.starts| && s.starts[h] != 0
    case Push(item) => item.time <= s.clock
    case Scan(c) => c < |s.collectors| && s.collectors[c].Resting?
    case ScanHandle(c) => c < |s.collectors| && s.collectors[c].Scanning? && s.collectors[c].next < |s.starts|
    case Swap(c, taken) =>
      c < |s.collectors| && s.collectors[c].Scanning? && s.collectors[c].next >= |s.starts| && multiset(taken) == s.list
    case Sweep(c) => c < |s.collectors| && s.collectors[c].Sweeping?
  }

  function Do(s: State, step: Step): State
    requires Enabled(s, step)
  {
    match step
    case Begin(h) => s.(starts := s.starts[h := s.clock])
    case Tick => s.(clock := s.clock + 2)
    case End(h) => s.(starts := s.starts[h := 0])
    case Push(item) => s.(list := s.list + multiset{item})
    case Scan(c) => s.(collectors := s.collectors[c := Scanning(0, NEVER)])
    case ScanHandle(c) =>
      var Scanning(i, least) := s.collectors[c];
      s.(collectors := s.collectors[c := Scanning(i + 1, if 0 < s.starts[i] < least then s.starts[i] else least)])
    case Swap(c, taken) => s.(list := multiset{}, collectors := s.collectors[c := Sweeping(s.collectors[c].least, taken)])
    case Sweep(c) =>
      var Sweeping(bound, items) := s.collectors[c];
      if items == [] then s.(collectors := s.collectors[c := Resting])
      else if items[0].time > bound
      then s.(list := s.list + multiset{items[0]}, collectors := s.collectors[c := Sweeping(bound, items[1..])])
      else s.(collectors := s.collectors[c := Sweeping(bound, items[1..])])
  }

  /** The block that a step returns to malloc, if any. */
  function Returned(s: State, step: Step): (items: seq<Item>) {
    if step.Sweep? && step.c < |s.collectors| && s.collectors[step.c].Sweeping? then
      var Sweeping(bound, items) := s.collectors[step.c];
      if items != [] && items[0].time <= bound then [items[0]] else []
    else []
  }

  ghost predicate Init(s: State) {
    && s.clock == 1 && s.list == multiset{}
    && (forall h :: 0 <= h < |s.starts| ==> s.starts[h] == 0)
    && forall c :: 0 <= c < |s.collectors| ==> s.collectors[c].Resting?
  }

  ghost predicate Run(run: seq<State>, steps: seq<Step>) {
    && |run| == |steps| + 1 && Init(run[0])
    && forall i :: 0 <= i < |steps| ==> Stepped(run, steps, i)
  }

  ghost predicate Stepped(run: seq<State>, steps: seq<Step>, i: nat)
    requires i < |steps| && |run| == |steps| + 1
  {
    Enabled(run[i], steps[i]) && run[i + 1] == Do(run[i], steps[i])
  }

  /** No running transaction started before `time`. */
  ghost predicate NobodyBefore(s: State, time: nat) {
    forall h :: 0 <= h < |s.starts| && s.starts[h] != 0 ==> time <= s.starts[h]
  }

  // ----- looking back in a run

  /** Step `i` of the run is `step`. */
  ghost predicate Took(steps: seq<Step>, i: nat, step: Step) {
    i < |steps| && steps[i] == step
  }

  lemma {:induction false} ClockGrows(run: seq<State>, steps: seq<Step>, i: nat, j: nat)
    requires Run(run, steps) && i <= j < |run|
    ensures run[i].clock <= run[j].clock && run[i].clock > 0
    ensures |run[j].starts| == |run[i].starts| && |run[j].collectors| == |run[i].collectors|
    decreases j
  {
    if j > 0 {
      ClockGrows(run, steps, if i < j then i else j - 1, j - 1);
      assert Stepped(run, steps, j - 1);
    }
  }

  /** Handle `h` runs one transaction from step `b` on. */
  ghost predicate RunsSince(run: seq<State>, steps: seq<Step>, h: nat, b: nat, i: nat) {
    && b < i < |run| && Took(steps, b, Begin(h))
    && forall j :: b < j <= i ==> h < |run[j].starts| && run[j].starts[h] == run[b].clock
  }

  /** The step at which the running transaction began. */
  lemma {:induction false} BeginOf(run: seq<State>, steps: seq<Step>, i: nat, h: nat) returns (b: nat)
    requires Run(run, steps) && i < |run| && h < |run[i].starts| && run[i].starts[h] != 0
    ensures RunsSince(run, steps, h, b, i) && run[i].starts[h] == run[b].clock
  {
    assert i > 0;
    assert Stepped(run, steps, i - 1);
    if steps[i - 1] == Begin(h) {
      b := i - 1;
    } else {
      b := BeginOf(run, steps, i - 1, h);
    }
  }

  /** A collector sweeps what it took at step `q`, with the bound it had then. */
  ghost predicate SweepsSince(run: seq<State>, steps: seq<Step>, c: nat, q: nat, i: nat) {
    && q < i < |run| && q < |steps| && steps[q].Swap? && steps[q].c == c
    && c < |run[q].collectors| && c < |run[i].collectors|
    && run[q].collectors[c].Scanning? && run[i].collectors[c].Sweeping?
    && run[i].collectors[c].bound == run[q].collectors[c].least
    && (forall item :: item in run[i].collectors[c].items ==> item in run[q].list)
  }

  lemma {:induction false} SwapOf(run: seq<State>, steps: seq<Step>, i: nat, c: nat) returns (q: nat)
    requires Run(run, steps) && i < |run| && c < |run[i].collectors| && run[i].collectors[c].Sweeping?
    ensures SweepsSince(run, steps, c, q, i)
    ensures run[q].collectors[c].next >= |run[q].starts|
  {
    assert i > 0;
    assert Stepped(run, steps, i - 1);
    if steps[i - 1].Swap? && steps[i - 1].c == c {
      q := i - 1;
      forall item | item in steps[q].taken ensures item in run[q].list {
        assert item in multiset(steps[q].taken);
      }
    } else {
      q := SwapOf(run, steps, i - 1, c);
      assert forall item :: item in run[i].collectors[c].items ==> item in run[i - 1].collectors[c].items;
    }
  }

  /** Collector `c` read the start time of `h` at step `a`, and has been scanning since. */
  ghost predicate ScannedAt(run: seq<State>, steps: seq<Step>, c: nat, h: nat, a: nat, i: nat) {
    && a < i < |run| && Took(steps, a, ScanHandle(c))
    && c < |run[a].collectors| && run[a].collectors[c].Scanning? && run[a].collectors[c].next == h
    && forall j :: a < j <= i ==> c < |run[j].collectors| && run[j].collectors[c].Scanning?
  }

  lemma {:induction false} ScanOf(run: seq<State>, steps: seq<Step>, i: nat, c: nat, h: nat) returns (a: nat)
    requires Run(run, steps) && i < |run| && c < |run[i].collectors| && run[i].collectors[c].Scanning?
    requires h < run[i].collectors[c].next
    ensures ScannedAt(run, steps, c, h, a, i) && h < |run[a].starts|
    ensures run[a].starts[h] != 0 ==> run[i].collectors[c].least <= run[a].starts[h]
  {
    assert i > 0;
    assert Stepped(run, steps, i - 1);
    if steps[i - 1] == ScanHandle(c) && run[i - 1].collectors[c].next == h {
      a := i - 1;
    } else {
      a := ScanOf(run, steps, i - 1, c, h);
    }
  }

  /** Items that are not returned: on the list or in a collector's hands. */
  ghost predicate Waiting(s: State, item: Item) {
    item in s.list ||
    exists c :: 0 <= c < |s.collectors| && s.collectors[c].Sweeping? && item in s.collectors[c].items
  }

  /** What waits after a step waited before, unless the step pushed it. */
  lemma WaitedBefore(s: State, step: Step, item: Item)
    requires Enabled(s, step) && Waiting(Do(s, step), item) && step != Push(item)
    ensures Waiting(s, item)
  {
    var s' := Do(s, step);
    if item in s'.list {
      if item !in s.list {
        assert item in s.collectors[step.c].items;
      }
    } else {
      var d :| 0 <= d < |s'.collectors| && s'.collectors[d].Sweeping? && item in s'.collectors[d].items;
      if step.Swap? && step.c == d {
        assert item in multiset(step.taken);
      } else {
        assert s.collectors[d].Sweeping? && item in s.collectors[d].items;
      }
    }
  }

  /** The step at which a waiting item was pushed. */
  lemma {:induction false} PushOf(run: seq<State>, steps: seq<Step>, i: nat, item: Item) returns (p: nat)
    requires Run(run, steps) && i < |run| && Waiting(run[i], item)
    ensures p < i && Took(steps, p, Push(item)) && item.time <= run[p].clock
  {
    assert i > 0;
    assert Stepped(run, steps, i - 1);
    if steps[i - 1] == Push(item) {
      p := i - 1;
    } else {
      WaitedBefore(run[i - 1], steps[i - 1], item);
      p := PushOf(run, steps, i - 1, item);
    }
  }

  // ----- theorems

  /** A collection that overtakes: `c` reads the start time of `h`, then `h` begins, then the
      block is pushed with a later time, then `c` takes the list. */
  ghost predicate Overtakes(run: seq<State>, steps: seq<Step>, c: nat, item: Item, h: nat, a: nat, b: nat, p: nat, q: nat) {
    && a < b < p < q < |steps| && |run| == |steps| + 1
    && Took(steps, b, Begin(h)) && run[b].clock < item.time
    && Took(steps, p, Push(item))
    && ScannedAt(run, steps, c, h, a, q) && steps[q].Swap? && steps[q].c == c && item in run[q].list
  }

  /** The block returned at step `i` was overtaken, and the handle still runs. */
  ghost predicate Overtaken(run: seq<State>, steps: seq<Step>, i: nat, item: Item) {
    exists h: nat, a: nat, b: nat, p: nat, q: nat ::
      i < |steps| && steps[i].Sweep? && Overtakes(run, steps, steps[i].c, item, h, a, b, p, q) && q < i
      && RunsSince(run, steps, h, b, i)
  }

  lemma UnsafeIsOvertaken(run: seq<State>, steps: seq<Step>, i: nat, item: Item)
    requires Run(run, steps) && i < |steps| && item in Returned(run[i], steps[i]) && !NobodyBefore(run[i], item.time)
    ensures Overtaken(run, steps, i, item)
  {
    var c := steps[i].c;
    var h :| 0 <= h < |run[i].starts| && run[i].starts[h] != 0 && run[i].starts[h] < item.time;
    var b := BeginOf(run, steps, i, h);
    var q := SwapOf(run, steps, i, c);
    ClockGrows(run, steps, q, i);
    var a := ScanOf(run, steps, q, c, h);
    assert Waiting(run[q], item);
    var p := PushOf(run, steps, q, item);
    if p <= b {
      ClockGrows(run, steps, p, b);
    }
    ClockGrows(run, steps, b, b);
    assert steps[a] != steps[b];
    assert Overtakes(run, steps, c, item, h, a, b, p, q);
  }

  /** Exactly when the return of a block is unsafe: some handle's start time was read by this
      collection, then the handle began a transaction, then the block was pushed with a later
      time, then the list was taken; and that transaction still runs. */
  lemma UnsafeIff(run: seq<State>, steps: seq<Step>, i: nat, item: Item)
    requires Run(run, steps) && i < |steps| && item in Returned(run[i], steps[i])
    ensures !NobodyBefore(run[i], item.time) <==> Overtaken(run, steps, i, item)
  {
    if !NobodyBefore(run[i], item.time) {
      UnsafeIsOvertaken(run, steps, i, item);
    } else if Overtaken(run, steps, i, item) {
      var h: nat, a: nat, b: nat, p: nat, q: nat :|
        Overtakes(run, steps, steps[i].c, item, h, a, b, p, q) && q < i && RunsSince(run, steps, h, b, i);
      assert run[i].starts[h] == run[b].clock;
      ClockGrows(run, steps, b, b);
    }
  }

  /** Whether some collection is between reading start times and taking the list. */
  predicate Measuring(s: State) {
    exists c :: 0 <= c < |s.collectors| && s.collectors[c].Scanning?
  }

  lemma OvertakenWhileMeasuring(run: seq<State>, steps: seq<Step>, i: nat, item: Item) returns (p: nat)
    requires |run| == |steps| + 1 && Overtaken(run, steps, i, item)
    ensures Took(steps, p, Push(item)) && Measuring(run[p])
  {
    var c := steps[i].c;
    var h: nat, a: nat, b: nat, p0: nat, q: nat :|
      Overtakes(run, steps, c, item, h, a, b, p0, q) && q < i && RunsSince(run, steps, h, b, i);
    p := p0;
    assert run[p].collectors[c].Scanning?;
  }

  /** A block that is not itself pushed while a collection is between reading start times and
      taking the list is returned only when no transaction runs that started before its time.
      Begins, commits and aborts go on meanwhile, and so do the pushes of all other blocks. */
  lemma PushedBetweenSafe(run: seq<State>, steps: seq<Step>, i: nat, item: Item)
    requires Run(run, steps) && i < |steps| && item in Returned(run[i], steps[i])
    requires forall p :: 0 <= p < |steps| && steps[p] == Push(item) ==> !Measuring(run[p])
    ensures NobodyBefore(run[i], item.time)
  {
    if !NobodyBefore(run[i], item.time) {
      UnsafeIsOvertaken(run, steps, i, item);
      var p := OvertakenWhileMeasuring(run, steps, i, item);
    }
  }

  // ----- no block is lost, and none is returned twice

  /** How often an item is in a sequence. */
  function Count(items: seq<Item>, item: Item): nat {
    if items == [] then 0 else Count(items[1..], item) + if items[0] == item then 1 else 0
  }

  lemma {:induction false} CountIs(items: seq<Item>, item: Item)
    ensures multiset(items)[item] == Count(items, item)
  {
    if items != [] {
      assert items == [items[0]] + items[1..];
      CountIs(items[1..], item);
    }
  }

  /** How often a collector has taken an item and not yet dealt with it. */
  function Holds(c: Collector, item: Item): nat {
    if c.Sweeping? then Count(c.items, item) else 0
  }

  function InHands(collectors: seq<Collector>, item: Item): nat {
    if collectors == [] then 0
    else InHands(collectors[..|collectors| - 1], item) + Holds(collectors[|collectors| - 1], item)
  }

  lemma {:induction false} HandsChange(collectors: seq<Collector>, c: nat, to: Collector, item: Item)
    requires c < |collectors|
    ensures InHands(collectors[c := to], item) + Holds(collectors[c], item) == InHands(collectors, item) + Holds(to, item)
  {
    var n := |collectors| - 1;
    if c == n {
      assert collectors[c := to][..n] == collectors[..n];
    } else {
      HandsChange(collectors[..n], c, to, item);
      assert collectors[c := to][..n] == collectors[..n][c := to];
    }
  }

  lemma {:induction false} NoHands(collectors: seq<Collector>, item: Item)
    requires forall c :: 0 <= c < |collectors| ==> collectors[c].Resting?
    ensures InHands(collectors, item) == 0
  {
    if collectors != [] {
      NoHands(collectors[..|collectors| - 1], item);
    }
  }

  /** How often the first `n` steps have pushed an item. */
  function PushedBy(steps: seq<Step>, n: nat, item: Item): nat
    requires n <= |steps|
  {
    if n == 0 then 0 else PushedBy(steps, n - 1, item) + if steps[n - 1] == Push(item) then 1 else 0
  }

  /** How often they have returned it to malloc. */
  ghost function ReturnedBy(run: seq<State>, steps: seq<Step>, n: nat, item: Item): nat
    requires n <= |steps| && |run| == |steps| + 1
  {
    if n == 0 then 0 else ReturnedBy(run, steps, n - 1, item) + Count(Returned(run[n - 1], steps[n - 1]), item)
  }

  lemma SwapConserves(s: State, c: nat, taken: seq<Item>, item: Item)
    requires Enabled(s, Swap(c, taken))
    ensures var s' := Do(s, Swap(c, taken));
      s'.list[item] + InHands(s'.collectors, item) == s.list[item] + InHands(s.collectors, item)
  {
    CountIs(taken, item);
    HandsChange(s.collectors, c, Sweeping(s.collectors[c].least, taken), item);
  }

  lemma SweepConserves(s: State, c: nat, item: Item)
    requires Enabled(s, Sweep(c))
    ensures var s' := Do(s, Sweep(c));
      s'.list[item] + InHands(s'.collectors, item) + Count(Returned(s, Sweep(c)), item) == s.list[item] + InHands(s.collectors, item)
  {
    HandsChange(s.collectors, c, Do(s, Sweep(c)).collectors[c], item);
    assert Do(s, Sweep(c)).collectors == s.collectors[c := Do(s, Sweep(c)).collectors[c]];
    if s.collectors[c].items != [] {
      assert [s.collectors[c].items[0]][1..] == [];
    }
  }

  /** A step moves items between the list and the collectors' hands, adds what it pushes, and
      takes away what it returns. */
  lemma StepConserves(s: State, step: Step, item: Item)
    requires Enabled(s, step)
    ensures var s' := Do(s, step);
      s'.list[item] + InHands(s'.collectors, item) + Count(Returned(s, step), item)
      == s.list[item] + InHands(s.collectors, item) + if step == Push(item) then 1 else 0
  {
    match step
    case Swap(c, taken) => SwapConserves(s, c, taken, item);
    case Sweep(c) => SweepConserves(s, c, item);
    case Scan(c) => HandsChange(s.collectors, c, Scanning(0, NEVER), item);
    case ScanHandle(c) => HandsChange(s.collectors, c, Do(s, step).collectors[c], item);
    case _ =>
  }

  /** At every point of every run: a block is on the list, in some collector's hands or has been
      returned to malloc, altogether as often as it was pushed. */
  lemma {:induction false} Conserved(run: seq<State>, steps: seq<Step>, n: nat, item: Item)
    requires Run(run, steps) && n <= |steps|
    ensures PushedBy(steps, n, item) == run[n].list[item] + InHands(run[n].collectors, item) + ReturnedBy(run, steps, n, item)
  {
    if n == 0 {
      NoHands(run[0].collectors, item);
    } else {
      Conserved(run, steps, n - 1, item);
      assert Stepped(run, steps, n - 1);
      StepConserves(run[n - 1], steps[n - 1], item);
    }
  }

  // ----- a run that is not safe

  const LOST := Item(7, 3)

  const RACE: seq<Step> :=
    [Scan(0), ScanHandle(0), ScanHandle(0), Begin(0), Begin(1), Tick, End(1), Push(LOST), Swap(0, [LOST]), Sweep(0)]

  function RaceState(i: nat): State {
    State(
      if i < 6 then 1 else 3,
      if i < 4 then [0, 0] else if i == 5 || i == 6 then [1, 1] else [1, 0],
      if i == 8 then multiset{LOST} else multiset{},
      [if i == 0 then Resting
       else if i < 9 then Scanning(if i < 3 then i - 1 else 2, NEVER)
       else Sweeping(NEVER, if i == 9 then [LOST] else [])])
  }

  lemma RaceStep(i: nat)
    requires i < |RACE|
    ensures Enabled(RaceState(i), RACE[i]) && Do(RaceState(i), RACE[i]) == RaceState(i + 1)
  {
    var s, s' := RaceState(i), RaceState(i + 1);
    assert s.collectors[0 := s'.collectors[0]] == s'.collectors;
    if i < 3 {
      assert RACE[i] == if i == 0 then Scan(0) else ScanHandle(0);
    } else if i == 3 {
      assert s.starts[0 := 1] == s'.starts;
    } else if i == 4 {
      assert s.starts[1 := 1] == s'.starts;
    } else if i == 6 {
      assert s.starts[1 := 0] == s'.starts;
    } else if i == 7 {
      assert multiset{} + multiset{LOST} == multiset{LOST};
    } else if i == 8 {
      assert multiset([LOST]) == multiset{LOST};
    } else if i == 9 {
      assert [LOST][1..] == [];
    }
  }

  /** A collection reads start times while nobody runs.  Then two transactions begin; one
      deletes a block, commits and frees it.  The collection takes the list and returns the
      block, although the other transaction, which may be reading it, still runs. */
  lemma RaceIsUnsafe()
    ensures exists run ::
      Run(run, RACE) && LOST in Returned(run[9], RACE[9]) && !NobodyBefore(run[9], LOST.time)
  {
    var run := seq(|RACE| + 1, i requires 0 <= i => RaceState(i));
    assert run[0] == RaceState(0) && run[9] == RaceState(9);
    forall i | 0 <= i < |RACE| ensures Stepped(run, RACE, i) {
      RaceStep(i);
    }
    assert Returned(run[9], RACE[9]) == [LOST] && LOST in Returned(run[9], RACE[9]);
    assert run[9].starts[0] == 1 && !NobodyBefore(run[9], LOST.time);
    assert Run(run, RACE);
  }

  // ----- what is put back

  /** Collector `c` has read, in the scan it is in at `i`, a start time below `time`. */
  ghost predicate ReadBelow(run: seq<State>, steps: seq<Step>, c: nat, time: nat, i: nat) {
    exists h: nat, a: nat :: ScannedAt(run, steps, c, h, a, i) && h < |run[a].starts| && 0 < run[a].starts[h] < time
  }

  lemma {:induction false} ReadBelowIff(run: seq<State>, steps: seq<Step>, c: nat, time: nat, i: nat)
    requires Run(run, steps) && i < |run| && c < |run[i].collectors| && run[i].collectors[c].Scanning? && time <= NEVER
    ensures ReadBelow(run, steps, c, time, i) <==> run[i].collectors[c].least < time
  {
    assert i > 0;
    var j := i - 1;
    assert Stepped(run, steps, j);
    if run[j].collectors[c].Scanning? {
      ReadBelowIff(run, steps, c, time, j);
      if ReadBelow(run, steps, c, time, j) {
        var h: nat, a: nat :|
          ScannedAt(run, steps, c, h, a, j) && h < |run[a].starts| && 0 < run[a].starts[h] < time;
        assert ScannedAt(run, steps, c, h, a, i);
      }
      if steps[j] == ScanHandle(c) {
        assert ScannedAt(run, steps, c, run[j].collectors[c].next, j, i);
      }
      if ReadBelow(run, steps, c, time, i) {
        var h: nat, a: nat :|
          ScannedAt(run, steps, c, h, a, i) && h < |run[a].starts| && 0 < run[a].starts[h] < time;
        assert a < j ==> ScannedAt(run, steps, c, h, a, j);
      }
    }
  }

  /** Exactly when a sweep puts an item back: the collection had read, before it took the list, a
      start time below the item's time. */
  lemma KeptIff(run: seq<State>, steps: seq<Step>, i: nat)
    requires Run(run, steps) && i < |steps| && steps[i].Sweep? && Enabled(run[i], steps[i])
    requires run[i].collectors[steps[i].c].items != []
    requires run[i].collectors[steps[i].c].items[0].time <= NEVER
    ensures var c := steps[i].c; var item := run[i].collectors[c].items[0];
      Returned(run[i], steps[i]) == [] <==>
        exists q: nat :: SweepsSince(run, steps, c, q, i) && ReadBelow(run, steps, c, item.time, q)
  {
    var c := steps[i].c;
    var item := run[i].collectors[c].items[0];
    var q := SwapOf(run, steps, i, c);
    ReadBelowIff(run, steps, c, item.time, q);
    if p: nat :| SweepsSince(run, steps, c, p, i) && ReadBelow(run, steps, c, item.time, p) {
      ReadBelowIff(run, steps, c, item.time, p);
    }
  }
}
