/** The singly linked list with atomic operations.

    Whoever takes the head leaves a sentinel there, so others spin until a new head is
    stored.  An operation is two accesses to the head: taking it, and storing it back.  Each
    thread also has a private list, on which it works without atomics.  `list` and `hands`
    are history: the lists as they would be if every operation were one step. */
module SharedLists {

  const LOCKED: nat := 0xFFFF_FFFF_FFFF_FFFF

  datatype Place = InList | With(t: nat)

  datatype Pc =
    | Idle
    | Pushing(item: nat)          // `item->next` holds the old head
    | Popping(first: nat)
    | Swapping(first: nat)

  datatype Thread = Thread(pc: Pc, own: nat, hands: seq<nat>)

  datatype State = State(
    head: nat,
    next: map<nat, nat>,          // the `next` field of every item
    place: map<nat, Place>,       // history: whose item it is
    threads: seq<Thread>,
    list: seq<nat>)

  datatype Step =
    | Acquire(t: nat, item: nat)  // an item from elsewhere is put on the private list
    | Drop(t: nat)                // the first private item goes elsewhere
    | TakePush(t: nat) | TakePop(t: nat) | TakeSwap(t: nat)
    | Store(t: nat)

  predicate Enabled(s: State, step: Step) {
    && step.t < |s.threads|
    && match step
       case Acquire(t, item) => s.threads[t].pc.Idle? && item !in s.place && item != 0 && item != LOCKED
       case Drop(t) => s.threads[t].pc.Idle? && s.threads[t].own != 0
       case TakePush(t) => s.threads[t].pc.Idle? && s.threads[t].own != 0
       case TakePop(t) => s.threads[t].pc.Idle?
       case TakeSwap(t) => s.threads[t].pc.Idle?
       case Store(t) => !s.threads[t].pc.Idle?
  }

  /** The field read, or null when there is no such item. */
  function Next(s: State, item: nat): nat {
    if item in s.next then s.next[item] else 0
  }

  function Tail(items: seq<nat>): seq<nat> {
    if items == [] then [] else items[1..]
  }

  /** An item goes in front of a private list. */
  function Give(s: State, t: nat, thread: Thread, item: nat): State
    requires t < |s.threads|
  {
    s.(next := s.next[item := thread.own], place := s.place[item := With(t)],
       threads := s.threads[t := thread.(own := item, hands := [item] + thread.hands)])
  }

  function Do(s: State, step: Step): State
    requires Enabled(s, step)
  {
    var t := step.t;
    var th := s.threads[t];
    match step
    case Acquire(_, item) => Give(s, t, th, item)
    case Drop(_) =>
      s.(place := s.place - {th.own},
         threads := s.threads[t := th.(own := Next(s, th.own), hands := Tail(th.hands))])
    case TakePush(_) =>
      if s.head == LOCKED then s
      else s.(head := LOCKED, next := s.next[th.own := s.head],
              threads := s.threads[t := Thread(Pushing(th.own), Next(s, th.own), Tail(th.hands))])
    case TakePop(_) =>
      if s.head == LOCKED then s
      else s.(head := LOCKED, threads := s.threads[t := th.(pc := Popping(s.head))])
    case TakeSwap(_) =>
      if s.head == LOCKED then s
      else s.(head := LOCKED, threads := s.threads[t := th.(pc := Swapping(s.head))])
    case Store(_) =>
      match th.pc
      case Pushing(item) =>
        s.(head := item, list := [item] + s.list, place := s.place[item := InList],
           threads := s.threads[t := th.(pc := Idle)])
      case Popping(first) =>
        if first == 0 then s.(head := 0, threads := s.threads[t := th.(pc := Idle)])
        else Give(s.(head := Next(s, first), list := Tail(s.list)), t, th.(pc := Idle), first)
      case Swapping(first) =>
        s.(head := th.own, list := th.hands,
           place := map item | item in s.place ::
             if s.place[item] == InList then With(t) else if s.place[item] == With(t) then InList else s.place[item],
           threads := s.threads[t := Thread(Idle, first, s.list)])
  }

  ghost predicate Init(s: State) {
    && s.head == 0 && s.next == map[] && s.place == map[] && s.list == []
    && forall t :: 0 <= t < |s.threads| ==> s.threads[t] == Thread(Idle, 0, [])
  }

  ghost predicate Stepped(s: State, s': State) {
    exists step :: Enabled(s, step) && s' == Do(s, step)
  }

  ghost predicate Run(run: seq<State>) {
    && run != [] && Init(run[0])
    && forall i :: 0 <= i < |run| - 1 ==> Stepped(run[i], run[i + 1])
  }

  // ----- the invariant

  /** The pointers from `first` on run through exactly these items, all of them `who`'s. */
  ghost predicate Chain(next: map<nat, nat>, place: map<nat, Place>, who: Place, first: nat, items: seq<nat>)
    decreases |items|
  {
    if items == [] then first == 0
    else
      && first == items[0] && first != 0 && first != LOCKED && first !in items[1..]
      && first in next && first in place && place[first] == who
      && Chain(next, place, who, next[first], items[1..])
  }

  /** A chain does not see what happens to items that are not on it. */
  lemma {:induction false} ChainFrame(next: map<nat, nat>, place: map<nat, Place>, who: Place, first: nat,
                                      items: seq<nat>, next': map<nat, nat>, place': map<nat, Place>, who': Place)
    requires Chain(next, place, who, first, items)
    requires forall x :: x in items && x in next ==> x in next' && next'[x] == next[x]
    requires forall x :: x in items && x in place && place[x] == who ==> x in place' && place'[x] == who'
    ensures Chain(next', place', who', first, items)
    decreases |items|
  {
    if items != [] {
      ChainFrame(next, place, who, next[first], items[1..], next', place', who');
    }
  }

  lemma {:induction false} ChainPlace(next: map<nat, nat>, place: map<nat, Place>, who: Place, first: nat, items: seq<nat>)
    requires Chain(next, place, who, first, items)
    ensures forall x :: x in items ==> x in place && place[x] == who && x != 0 && x != LOCKED
    ensures first == 0 <==> items == []
    decreases |items|
  {
    if items != [] {
      ChainPlace(next, place, who, next[first], items[1..]);
    }
  }

  /** The thread between its two accesses, and the head it holds. */
  ghost predicate Holds(s: State, t: nat, first: nat) {
    && t < |s.threads|
    && match s.threads[t].pc
       case Idle => false
       case Pushing(item) =>
         item != 0 && item != LOCKED && item in s.next && s.next[item] == first && item in s.place
         && s.place[item] == With(t) && item !in s.threads[t].hands
       case Popping(f) => f == first
       case Swapping(f) => f == first
  }

  ghost predicate Shared(s: State, t: nat, first: nat) {
    && Chain(s.next, s.place, InList, first, s.list)
    && (forall u :: 0 <= u < |s.threads| && u != t ==> s.threads[u].pc.Idle?)
    && if s.head == LOCKED then Holds(s, t, first) else t == |s.threads| && s.head == first
  }

  ghost predicate Private(s: State, t: nat)
    requires t < |s.threads|
  {
    Chain(s.next, s.place, With(t), s.threads[t].own, s.threads[t].hands)
  }

  ghost predicate Inv(s: State) {
    && (exists t, first :: Shared(s, t, first))
    && forall t :: 0 <= t < |s.threads| ==> Private(s, t)
  }

  lemma InitInv(s: State)
    requires Init(s)
    ensures Inv(s)
  {
    assert Shared(s, |s.threads|, 0);
  }

  /** Private lists of other threads, after a step that leaves their items alone. */
  lemma OthersKept(s: State, s': State, t: nat)
    requires Inv(s) && t < |s.threads| == |s'.threads|
    requires forall u :: 0 <= u < |s.threads| && u != t ==> s'.threads[u] == s.threads[u]
    requires forall x, u :: x in s.place && u != t && s.place[x] == With(u) ==> x in s'.place && s'.place[x] == With(u)
    requires forall x :: x in s.next && x in s.place && s.place[x] != With(t) && s.place[x] != InList ==>
      x in s'.next && s'.next[x] == s.next[x]
    ensures forall u :: 0 <= u < |s.threads| && u != t ==> Private(s', u)
  {
    forall u | 0 <= u < |s.threads| && u != t ensures Private(s', u) {
      assert Private(s, u);
      ChainPlace(s.next, s.place, With(u), s.threads[u].own, s.threads[u].hands);
      ChainFrame(s.next, s.place, With(u), s.threads[u].own, s.threads[u].hands, s'.next, s'.place, With(u));
    }
  }

  lemma PrivateStepKept(s: State, step: Step)
    requires Inv(s) && Enabled(s, step) && (step.Acquire? || step.Drop?)
    ensures Inv(Do(s, step))
  {
    var s', t := Do(s, step), step.t;
    var u, first :| Shared(s, u, first);
    assert Private(s, t);
    ChainPlace(s.next, s.place, With(t), s.threads[t].own, s.threads[t].hands);
    ChainPlace(s.next, s.place, InList, first, s.list);
    ChainFrame(s.next, s.place, InList, first, s.list, s'.next, s'.place, InList);
    assert Shared(s', u, first);
    OthersKept(s, s', t);
    if step.Acquire? {
      ChainFrame(s.next, s.place, With(t), s.threads[t].own, s.threads[t].hands, s'.next, s'.place, With(t));
      assert ([step.item] + s.threads[t].hands)[1..] == s.threads[t].hands;
    } else {
      ChainFrame(s.next, s.place, With(t), s'.threads[t].own, s'.threads[t].hands, s'.next, s'.place, With(t));
    }
  }

  lemma TakeKept(s: State, step: Step)
    requires Inv(s) && Enabled(s, step) && (step.TakePush? || step.TakePop? || step.TakeSwap?)
    ensures Inv(Do(s, step))
  {
    if s.head != LOCKED {
      var s', t := Do(s, step), step.t;
      var u, first :| Shared(s, u, first);
      assert Private(s, t);
      ChainPlace(s.next, s.place, With(t), s.threads[t].own, s.threads[t].hands);
      ChainPlace(s.next, s.place, InList, first, s.list);
      ChainFrame(s.next, s.place, InList, first, s.list, s'.next, s'.place, InList);
      assert Shared(s', t, first);
      OthersKept(s, s', t);
      if step.TakePush? {
        ChainFrame(s.next, s.place, With(t), s'.threads[t].own, s'.threads[t].hands, s'.next, s'.place, With(t));
      }
    }
  }

  /** Both chains of the thread that is about to store, as it sees them. */
  ghost predicate AboutToStore(s: State, t: nat, first: nat) {
    && Inv(s) && Enabled(s, Store(t)) && Shared(s, t, first) && Holds(s, t, first) && Private(s, t)
    && (forall x :: x in s.threads[t].hands ==> x in s.place && s.place[x] == With(t) && x != 0 && x != LOCKED)
    && (forall x :: x in s.list ==> x in s.place && s.place[x] == InList && x != 0 && x != LOCKED)
    && (first == 0 <==> s.list == [])
  }

  /** The lists of the thread that has stored, and the new head. */
  ghost predicate Stored(s: State, t: nat) {
    && t < |s.threads| && Private(s, t)
    && Chain(s.next, s.place, InList, s.head, s.list) && s.head != LOCKED
  }

  lemma StorePush(s: State, t: nat, first: nat)
    requires AboutToStore(s, t, first) && s.threads[t].pc.Pushing?
    ensures Stored(Do(s, Store(t)), t)
  {
    var s', th := Do(s, Store(t)), s.threads[t];
    ChainFrame(s.next, s.place, InList, first, s.list, s'.next, s'.place, InList);
    ChainFrame(s.next, s.place, With(t), th.own, th.hands, s'.next, s'.place, With(t));
    assert s'.list[1..] == s.list;
  }

  lemma StorePop(s: State, t: nat, first: nat)
    requires AboutToStore(s, t, first) && s.threads[t].pc.Popping?
    ensures Stored(Do(s, Store(t)), t)
  {
    var s', th := Do(s, Store(t)), s.threads[t];
    ChainFrame(s.next, s.place, With(t), th.own, th.hands, s'.next, s'.place, With(t));
    if first != 0 {
      var rest := s.list[1..];
      ChainPlace(s.next, s.place, InList, s.next[first], rest);
      ChainFrame(s.next, s.place, InList, s.next[first], rest, s'.next, s'.place, InList);
      assert s'.threads[t].hands[1..] == th.hands;
    }
  }

  lemma StoreSwap(s: State, t: nat, first: nat)
    requires AboutToStore(s, t, first) && s.threads[t].pc.Swapping?
    ensures Stored(Do(s, Store(t)), t)
  {
    var s', th := Do(s, Store(t)), s.threads[t];
    ChainFrame(s.next, s.place, InList, first, s.list, s'.next, s'.place, With(t));
    ChainFrame(s.next, s.place, With(t), th.own, th.hands, s'.next, s'.place, InList);
  }

  lemma StoreKept(s: State, t: nat)
    requires Inv(s) && Enabled(s, Store(t))
    ensures Inv(Do(s, Store(t)))
  {
    var s', th := Do(s, Store(t)), s.threads[t];
    var u, first :| Shared(s, u, first);
    assert u == t && Holds(s, t, first) && Private(s, t);
    ChainPlace(s.next, s.place, With(t), th.own, th.hands);
    ChainPlace(s.next, s.place, InList, first, s.list);
    OthersKept(s, s', t);
    match th.pc {
      case Pushing(_) => StorePush(s, t, first);
      case Popping(_) => StorePop(s, t, first);
      case Swapping(_) => StoreSwap(s, t, first);
    }
    assert Shared(s', |s'.threads|, s'.head);
  }

  lemma {:induction false} RunInv(run: seq<State>, i: nat)
    requires Run(run) && i < |run|
    ensures Inv(run[i])
  {
    if i == 0 {
      InitInv(run[0]);
    } else {
      RunInv(run, i - 1);
      assert Stepped(run[i - 1], run[i - 1 + 1]);
      var step :| Enabled(run[i - 1], step) && run[i] == Do(run[i - 1], step);
      match step
      case Acquire(_, _) => PrivateStepKept(run[i - 1], step);
      case Drop(_) => PrivateStepKept(run[i - 1], step);
      case TakePush(_) => TakeKept(run[i - 1], step);
      case TakePop(_) => TakeKept(run[i - 1], step);
      case TakeSwap(_) => TakeKept(run[i - 1], step);
      case Store(t) => StoreKept(run[i - 1], t);
    }
  }

  // ----- theorems

  /** Whenever nobody holds the head, it starts a chain through exactly the items that atomic
      operations would have left; every private list is a chain as well, and an item is on no
      two lists. */
  lemma PointersAreLists(run: seq<State>, i: nat)
    requires Run(run) && i < |run|
    ensures run[i].head != LOCKED ==> Chain(run[i].next, run[i].place, InList, run[i].head, run[i].list)
    ensures forall t :: 0 <= t < |run[i].threads| ==> Private(run[i], t)
    ensures forall t, x :: 0 <= t < |run[i].threads| && x in run[i].threads[t].hands ==> x !in run[i].list
    ensures forall t, u, x :: 0 <= t < u < |run[i].threads| && x in run[i].threads[t].hands ==>
      x !in run[i].threads[u].hands
  {
    RunInv(run, i);
    var s := run[i];
    var t, first :| Shared(s, t, first);
    ChainPlace(s.next, s.place, InList, first, s.list);
    forall u | 0 <= u < |s.threads| ensures forall x :: x in s.threads[u].hands ==> x in s.place && s.place[x] == With(u) {
      assert Private(s, u);
      ChainPlace(s.next, s.place, With(u), s.threads[u].own, s.threads[u].hands);
    }
  }

  /** One thread at a time is between its two accesses, and exactly while the sentinel is there. */
  lemma OneAtATime(run: seq<State>, i: nat, t: nat, u: nat)
    requires Run(run) && i < |run| && t < |run[i].threads| && u < |run[i].threads|
    requires !run[i].threads[t].pc.Idle?
    ensures run[i].head == LOCKED
    ensures t != u ==> run[i].threads[u].pc.Idle?
  {
    RunInv(run, i);
  }

  /** A pop that finds the list empty is right, and one that does not takes its first item. */
  lemma PopTakesFirst(run: seq<State>, i: nat, t: nat)
    requires Run(run) && i < |run| && t < |run[i].threads| && run[i].threads[t].pc.Popping?
    ensures var s, s' := run[i], Do(run[i], Store(t));
      if s.threads[t].pc.first == 0 then s.list == [] && s' == s.(head := 0, threads := s'.threads)
      else s.list != [] && s'.threads[t].own == s.list[0] && s'.list == s.list[1..]
  {
    RunInv(run, i);
    var u, first :| Shared(run[i], u, first);
    ChainPlace(run[i].next, run[i].place, InList, first, run[i].list);
  }

  // ----- the same lists, by steps that each do a whole operation

  /** The shared list and the private ones. */
  datatype Lists = Lists(shared: seq<nat>, own: seq<seq<nat>>)

  function Change(l: Lists, t: nat, shared: seq<nat>, own: seq<nat>): Lists
    requires t < |l.own|
  {
    Lists(shared, l.own[t := own])
  }

  /** A whole operation: push moves the first private item to the front of the shared list, pop
      the other way, and swap exchanges the two lists. */
  function Whole(l: Lists, step: Step): Lists
    requires step.t < |l.own|
  {
    var t := step.t;
    var own := l.own[t];
    match step
    case Acquire(_, item) => Change(l, t, l.shared, [item] + own)
    case Drop(_) => Change(l, t, l.shared, Tail(own))
    case TakePush(_) => if own == [] then l else Change(l, t, [own[0]] + l.shared, own[1..])
    case TakePop(_) => if l.shared == [] then l else Change(l, t, l.shared[1..], [l.shared[0]] + own)
    case TakeSwap(_) => Change(l, t, own, l.shared)
    case Store(_) => l
  }

  ghost predicate RunBy(run: seq<State>, steps: seq<Step>) {
    && |run| == |steps| + 1 && Init(run[0])
    && forall i :: 0 <= i < |steps| ==> SteppedBy(run, steps, i)
  }

  ghost predicate SteppedBy(run: seq<State>, steps: seq<Step>, i: nat)
    requires i < |steps| && |run| == |steps| + 1
  {
    Enabled(run[i], steps[i]) && run[i + 1] == Do(run[i], steps[i])
  }

  predicate Takes(step: Step) {
    step.TakePush? || step.TakePop? || step.TakeSwap?
  }

  /** What the first `n` steps mean: each operation is done whole where it takes the head, and
      an access that finds the sentinel is none. */
  ghost function Meant(run: seq<State>, steps: seq<Step>, n: nat): (l: Lists)
    requires RunBy(run, steps) && n <= |steps|
    ensures |l.own| == |run[n].threads|
  {
    if n == 0 then Lists([], seq(|run[0].threads|, t => []))
    else
      var l := Meant(run, steps, n - 1);
      assert SteppedBy(run, steps, n - 1);
      if Takes(steps[n - 1]) && run[n - 1].head == LOCKED then l else Whole(l, steps[n - 1])
  }

  lemma IsRun(run: seq<State>, steps: seq<Step>)
    requires RunBy(run, steps)
    ensures Run(run)
  {
    forall i | 0 <= i < |run| - 1 ensures Stepped(run[i], run[i + 1]) {
      assert SteppedBy(run, steps, i);
    }
  }

  /** The lists of whole operations, once the thread that holds the head has stored. */
  function Ahead(s: State, t: nat): Lists
    requires t < |s.threads|
  {
    var own := seq(|s.threads|, u requires 0 <= u < |s.threads| => s.threads[u].hands);
    var th := s.threads[t];
    match th.pc
    case Idle => Lists(s.list, own)
    case Pushing(item) => Lists([item] + s.list, own)
    case Popping(first) => if first == 0 then Lists(s.list, own) else Lists(Tail(s.list), own[t := [first] + th.hands])
    case Swapping(_) => Lists(th.hands, own[t := s.list])
  }

  /** The meant lists, seen by whichever thread may hold the head. */
  ghost predicate AsMeant(s: State, l: Lists) {
    && |l.own| == |s.threads|
    && (s.head != LOCKED ==> l.shared == s.list && forall t :: 0 <= t < |s.threads| ==> l.own[t] == s.threads[t].hands)
    && forall t :: 0 <= t < |s.threads| && !s.threads[t].pc.Idle? ==> l == Ahead(s, t)
  }

  lemma AsMeantTake(s: State, step: Step, l: Lists)
    requires Inv(s) && Enabled(s, step) && AsMeant(s, l) && Takes(step) && s.head != LOCKED
    ensures AsMeant(Do(s, step), Whole(l, step))
  {
    var t := step.t;
    var u, first :| Shared(s, u, first);
    assert Private(s, t);
    ChainPlace(s.next, s.place, With(t), s.threads[t].own, s.threads[t].hands);
    ChainPlace(s.next, s.place, InList, first, s.list);
    assert Whole(l, step) == Ahead(Do(s, step), t);
  }

  lemma AsMeantStore(s: State, t: nat, l: Lists)
    requires Inv(s) && Enabled(s, Store(t)) && AsMeant(s, l)
    ensures AsMeant(Do(s, Store(t)), l)
  {
    var u, first :| Shared(s, u, first);
    ChainPlace(s.next, s.place, InList, first, s.list);
  }

  lemma AsMeantStep(s: State, step: Step, l: Lists)
    requires Inv(s) && Enabled(s, step) && AsMeant(s, l)
    ensures AsMeant(Do(s, step), if Takes(step) && s.head == LOCKED then l else Whole(l, step))
  {
    var u, first :| Shared(s, u, first);
    if step.Store? {
      AsMeantStore(s, step.t, l);
    } else if Takes(step) && s.head != LOCKED {
      AsMeantTake(s, step, l);
    }
  }

  lemma {:induction false} MeantNow(run: seq<State>, steps: seq<Step>, n: nat)
    requires RunBy(run, steps) && n <= |steps|
    ensures AsMeant(run[n], Meant(run, steps, n))
  {
    if n > 0 {
      MeantNow(run, steps, n - 1);
      IsRun(run, steps);
      RunInv(run, n - 1);
      assert SteppedBy(run, steps, n - 1);
      AsMeantStep(run[n - 1], steps[n - 1], Meant(run, steps, n - 1));
    }
  }

  /** The pointers from `first` on run through exactly these items. */
  ghost predicate Runs(next: map<nat, nat>, first: nat, items: seq<nat>)
    decreases |items|
  {
    if items == [] then first == 0
    else first == items[0] && first != 0 && first in next && Runs(next, next[first], items[1..])
  }

  lemma {:induction false} ChainRuns(next: map<nat, nat>, place: map<nat, Place>, who: Place, first: nat, items: seq<nat>)
    requires Chain(next, place, who, first, items)
    ensures Runs(next, first, items)
    decreases |items|
  {
    if items != [] {
      ChainRuns(next, place, who, next[first], items[1..]);
    }
  }

  /** At every point of every run, the pointers are those of the lists that whole operations
      give, each done at the step that took the head. */
  lemma Linearizable(run: seq<State>, steps: seq<Step>, n: nat)
    requires RunBy(run, steps) && n <= |steps|
    ensures run[n].head != LOCKED ==> Runs(run[n].next, run[n].head, Meant(run, steps, n).shared)
    ensures forall t :: 0 <= t < |run[n].threads| && run[n].threads[t].pc.Idle? ==>
      Runs(run[n].next, run[n].threads[t].own, Meant(run, steps, n).own[t])
  {
    MeantNow(run, steps, n);
    IsRun(run, steps);
    RunInv(run, n);
    var s, l := run[n], Meant(run, steps, n);
    var u, first :| Shared(s, u, first);
    ChainRuns(s.next, s.place, InList, first, s.list);
    forall t | 0 <= t < |s.threads| && s.threads[t].pc.Idle? ensures Runs(s.next, s.threads[t].own, l.own[t]) {
      assert Private(s, t);
      ChainRuns(s.next, s.place, With(t), s.threads[t].own, s.threads[t].hands);
    }
  }

  /** Nobody waits for longer than the head is held: an access takes the head exactly when it is
      not the sentinel, and the thread that took it can store, which ends the wait. */
  lemma TakesIff(run: seq<State>, i: nat, step: Step)
    requires Run(run) && i < |run| && Enabled(run[i], step)
    ensures Takes(step) ==> (!Do(run[i], step).threads[step.t].pc.Idle? <==> run[i].head != LOCKED)
    ensures step.Store? ==> Do(run[i], step).head != LOCKED && Do(run[i], step).threads[step.t].pc.Idle?
    ensures run[i].head == LOCKED ==> exists t :: Enabled(run[i], Store(t))
  {
    RunInv(run, i);
    var u, first :| Shared(run[i], u, first);
    assert run[i].head == LOCKED ==> Enabled(run[i], Store(u));
    if step.Store? {
      StoreKept(run[i], step.t);
      var s' := Do(run[i], step);
      var v, f :| Shared(s', v, f);
    }
  }
}
