/** The resizing chained hash table of utils/num_dictionary.h.

    Nodes are addresses; their fields are maps from addresses, and address 0 is null.  A
    bucket is the address of the first node of its chain. */
module NumDictionaries {

  /** The table of capacities: primes, between two zeros. */
  function Capacity(index: nat): nat {
    match index
    case 0 => 0 case 1 => 29 case 2 => 53 case 3 => 89
    case 4 => 137 case 5 => 211 case 6 => 331 case 7 => 499
    case 8 => 727 case 9 => 1061 case 10 => 1543 case 11 => 2239
    case 12 => 3229 case 13 => 4657 case 14 => 6761 case 15 => 9767
    case 16 => 14083 case 17 => 20287 case 18 => 29243 case 19 => 42131
    case 20 => 60703 case 21 => 87433 case 22 => 125927 case 23 => 181361
    case 24 => 261223 case 25 => 376171 case 26 => 541699 case 27 => 780119
    case 28 => 1123391 case 29 => 1617739 case 30 => 2329559 case 31 => 3354581
    case 32 => 4830619 case 33 => 6956203 case 34 => 10017011 case 35 => 14424539
    case 36 => 20771371 case 37 => 29910821 case 38 => 43071601 case 39 => 51685939
    case 40 => 74427803 case 41 => 107176057 case 42 => 154333591 case 43 => 222240413
    case 44 => 320026249 case 45 => 460837813 case 46 => 663606499 case 47 => 955593439
    case 48 => 1376054569 case 49 => 1981518631 case 50 => 2853386881 case 51 => 4108877153
    case 52 => 4294967291 case 53 => 8294967337 case 54 => 12294967297 case 55 => 16294967303
    case 56 => 24294967309 case 57 => 32294967307 case 58 => 48294967321 case 59 => 64294967299
    case _ => 0
  }

  const TWO_64 := 0x1_0000_0000_0000_0000

  /** A hash function: from a capacity and a key to a bucket.  The dictionary works with any. */
  type HashFunction = (nat, nat) -> nat

  ghost predicate InRange(hash: HashFunction) {
    forall capacity, key :: capacity > 0 ==> hash(capacity, key) < capacity
  }

  /** `_ndict_hash`, in 64-bit arithmetic. */
  function NdictHash(capacity: nat, key: nat): nat {
    if capacity == 0 then 0 else (key * 2971215073 % TWO_64) % capacity
  }

  lemma NdictHashInRange()
    ensures InRange(NdictHash)
  {
  }

  predicate Distinct(s: seq<nat>) {
    forall i, j :: 0 <= i < j < |s| ==> s[i] != s[j]
  }

  /** The chain that starts at `head`. */
  ghost predicate Linked(next: map<nat, nat>, head: nat, chain: seq<nat>)
    decreases |chain|
  {
    if chain == [] then head == 0
    else head == chain[0] && head != 0 && head in next && Linked(next, next[head], chain[1..])
  }

  /** Changing the link of a node outside a chain leaves the chain. */
  lemma {:induction false} LinkedFrame(next: map<nat, nat>, head: nat, chain: seq<nat>, a: nat, to: nat)
    requires Linked(next, head, chain) && a !in chain
    ensures Linked(next[a := to], head, chain)
    decreases |chain|
  {
    if chain != [] {
      assert forall x :: x in chain[1..] ==> x in chain;
      LinkedFrame(next, next[head], chain[1..], a, to);
    }
  }

  /** Taking a node out of the middle of a chain. */
  lemma {:induction false} Unlinked(next: map<nat, nat>, head: nat, chain: seq<nat>, p: nat)
    requires Linked(next, head, chain) && Distinct(chain) && 0 < p < |chain|
    ensures chain[p - 1] in next && chain[p] in next
    ensures Linked(next[chain[p - 1] := next[chain[p]]], head, chain[..p] + chain[p + 1..])
    decreases |chain|
  {
    var rest := chain[1..];
    var to := next[head];
    assert Distinct(rest) && chain[0] !in rest by { DistinctTail(chain); }
    if p == 1 {
      assert chain[..1] + chain[2..] == [chain[0]] + rest[1..];
      var after := rest[1..];
      assert Linked(next, next[to], after);
      assert forall x :: x in after ==> x in rest;
      LinkedFrame(next, next[to], after, head, next[to]);
    } else {
      Unlinked(next, to, rest, p - 1);
      assert chain[..p] + chain[p + 1..] == [chain[0]] + (rest[..p - 1] + rest[p..]);
      assert rest[p - 2] in rest;
    }
  }

  lemma DistinctTail(s: seq<nat>)
    requires s != [] && Distinct(s)
    ensures Distinct(s[1..]) && s[0] !in s[1..]
  {
    var t := s[1..];
    forall i, j | 0 <= i < j < |t| ensures t[i] != t[j] {
      assert s[i + 1] != s[j + 1];
    }
  }

  lemma DistinctPush(x: nat, s: seq<nat>)
    requires x !in s && Distinct(s)
    ensures Distinct([x] + s)
  {
    var t := [x] + s;
    forall i, j | 0 <= i < j < |t| ensures t[i] != t[j] {
      assert t[j] == s[j - 1] && (i > 0 ==> t[i] == s[i - 1]);
    }
  }

  lemma DistinctOut(s: seq<nat>, p: nat)
    requires p < |s| && Distinct(s)
    ensures Distinct(s[..p] + s[p + 1..]) && s[p] !in s[..p] + s[p + 1..]
    ensures forall x :: x in s[..p] + s[p + 1..] <==> x in s && x != s[p]
  {
    var t := s[..p] + s[p + 1..];
    forall i, j | 0 <= i < j < |t| ensures t[i] != t[j] {
      assert t[i] == s[if i < p then i else i + 1] && t[j] == s[if j < p then j else j + 1];
    }
    forall x | x in s && x != s[p] ensures x in t {
      var i :| 0 <= i < |s| && s[i] == x;
      assert t[if i < p then i else i - 1] == x;
    }
  }

  // ----- capacities

  /** Capacities are odd, and each is at most twice the one below. */
  ghost predicate StepOk(i: nat)
    requires 0 < i < 59
  {
    Capacity(i) < Capacity(i + 1) <= 2 * Capacity(i) && Capacity(i) % 2 == 1 && Capacity(i + 1) % 2 == 1
  }

  lemma StepsA(i: nat)
    requires 1 <= i < 11
    ensures StepOk(i)
  {
    assert i == 1 || i == 2 || i == 3 || i == 4 || i == 5 || i == 6 || i == 7 || i == 8 || i == 9 || i == 10;
  }

  lemma StepsB(i: nat)
    requires 11 <= i < 21
    ensures StepOk(i)
  {
    assert i == 11 || i == 12 || i == 13 || i == 14 || i == 15 || i == 16 || i == 17 || i == 18 || i == 19 || i == 20;
  }

  lemma StepsC(i: nat)
    requires 21 <= i < 31
    ensures StepOk(i)
  {
    assert i == 21 || i == 22 || i == 23 || i == 24 || i == 25 || i == 26 || i == 27 || i == 28 || i == 29 || i == 30;
  }

  lemma StepsD(i: nat)
    requires 31 <= i < 41
    ensures StepOk(i)
  {
    assert i == 31 || i == 32 || i == 33 || i == 34 || i == 35 || i == 36 || i == 37 || i == 38 || i == 39 || i == 40;
  }

  lemma StepsE(i: nat)
    requires 41 <= i < 51
    ensures StepOk(i)
  {
    assert i == 41 || i == 42 || i == 43 || i == 44 || i == 45 || i == 46 || i == 47 || i == 48 || i == 49 || i == 50;
  }

  lemma StepsF(i: nat)
    requires 51 <= i < 59
    ensures StepOk(i)
  {
    assert i == 51 || i == 52 || i == 53 || i == 54 || i == 55 || i == 56 || i == 57 || i == 58;
  }

  lemma Steps(i: nat)
    requires 0 < i < 59
    ensures StepOk(i)
  {
    if i < 11 {
      StepsA(i);
    } else if i < 21 {
      StepsB(i);
    } else if i < 31 {
      StepsC(i);
    } else if i < 41 {
      StepsD(i);
    } else if i < 51 {
      StepsE(i);
    } else {
      StepsF(i);
    }
  }

  lemma {:induction false} CapacityPositive(i: nat)
    requires 0 < i < 60
    ensures Capacity(i) >= 29
  {
    if i > 1 {
      CapacityPositive(i - 1);
      Steps(i - 1);
    } else {
      assert i == 1;
    }
  }

  function CapacityList(): (c: seq<nat>)
    ensures |c| == 61
  {
    seq(61, i requires 0 <= i < 61 => Capacity(i))
  }

  /** What the dictionary needs of its capacities. */
  ghost predicate Growing(c: seq<nat>) {
    && |c| == 61 && c[0] == 0 && c[60] == 0
    && (forall i :: 0 < i < 60 ==> c[i] >= 29 && c[i] % 2 == 1)
    && (forall i, j :: 0 < i < 59 && j == i + 1 ==> c[i] < c[j] <= 2 * c[i])
  }

  lemma CapacitiesGrow()
    ensures Growing(CapacityList())
  {
    var c := CapacityList();
    forall i | 0 < i < 60 ensures c[i] >= 29 && c[i] % 2 == 1 {
      CapacityPositive(i);
      if i < 59 { Steps(i); } else { Steps(58); }
    }
    forall i, j | 0 < i < 59 && j == i + 1 ensures c[i] < c[j] <= 2 * c[i] {
      Steps(i);
    }
  }

  /** A table that cannot take one more node at a load of one half can after one step up. */
  lemma NextIsEnough(c: seq<nat>, index: nat, size: nat)
    requires Growing(c) && index < 60 && c[index] < 2 * size + 1 && (size > 0 ==> c[index] >= 2 * size - 1)
    ensures index < 59 ==> c[index + 1] >= 2 * size + 1
    ensures index < 59 <==> 2 * size + 1 <= c[59]
  {
    if index < 59 {
      var next := index + 1;
      assert index > 0 ==> c[index] % 2 == 1 && c[next] % 2 == 1;
      CapacityOrder(c, next, 59);
    }
  }

  lemma Enough(c: seq<nat>, index: nat, size: nat)
    requires Growing(c) && index < 60 && c[index] >= 2 * size + 1
    ensures 2 * size + 1 <= c[59]
  {
    CapacityOrder(c, index, 59);
  }

  lemma {:induction false} CapacityOrder(c: seq<nat>, i: nat, j: nat)
    requires Growing(c) && 0 < i <= j <= 59
    ensures c[i] <= c[j]
  {
    if i < j {
      CapacityOrder(c, i, j - 1);
    }
  }

  /** A table with more than four buckets a node has enough of them one step down. */
  lemma PreviousIsEnough(c: seq<nat>, index: nat, size: nat)
    requires Growing(c) && 1 < index < 60 && c[index] > 4 * size
    ensures c[index - 1] >= 2 * size
  {
    var previous := index - 1;
    assert index == previous + 1;
  }

  // ----- tables

  ghost predicate ChainOk(next: map<nat, nat>, head: nat, chain: seq<nat>) {
    Linked(next, head, chain) && Distinct(chain)
  }

  ghost predicate ChainsOk(heads: seq<nat>, chains: seq<seq<nat>>, next: map<nat, nat>) {
    |heads| == |chains| && forall i :: 0 <= i < |heads| ==> ChainOk(next, heads[i], chains[i])
  }

  /** The chains hold exactly `nodes`, each in the chain of its key's hash. */
  ghost predicate Placed(hash: HashFunction, chains: seq<seq<nat>>, keys: map<nat, nat>, nodes: set<nat>)
    requires InRange(hash)
  {
    && (forall a :: a in nodes ==> a != 0 && a in keys && chains != [] && a in chains[hash(|chains|, keys[a])])
    && (forall i :: 0 <= i < |chains| ==> forall a :: a in chains[i] ==> a in nodes && a in keys && hash(|chains|, keys[a]) == i)
  }

  /** Written when a proof has to look inside `TableOk`; elsewhere it stays closed. */
  ghost predicate Open(why: int) {
    true
  }

  ghost predicate TableOk(hash: HashFunction, heads: seq<nat>, chains: seq<seq<nat>>, next: map<nat, nat>,
      keys: map<nat, nat>, nodes: set<nat>)
  {
    InRange(hash) && |heads| == |chains| &&
    forall why {:trigger Open(why)} :: Open(why) ==>
      ChainsOk(heads, chains, next) && Placed(hash, chains, keys, nodes)
  }

  /** Changing one chain, and the link of a node that is in none of the others. */
  lemma OneChain(heads: seq<nat>, chains: seq<seq<nat>>, next: map<nat, nat>, h: nat, head: nat, chain: seq<nat>, a: nat, to: nat)
    requires ChainsOk(heads, chains, next) && h < |heads| && ChainOk(next[a := to], head, chain)
    requires forall i :: 0 <= i < |chains| && i != h ==> a !in chains[i]
    ensures ChainsOk(heads[h := head], chains[h := chain], next[a := to])
  {
    var heads', chains' := heads[h := head], chains[h := chain];
    forall i | 0 <= i < |heads'| ensures ChainOk(next[a := to], heads'[i], chains'[i]) {
      if i != h {
        assert ChainOk(next, heads[i], chains[i]);
        LinkedFrame(next, heads[i], chains[i], a, to);
      }
    }
  }

  lemma PushPlaced(hash: HashFunction, chains: seq<seq<nat>>, keys: map<nat, nat>, nodes: set<nat>, a: nat, h: nat)
    requires InRange(hash) && Placed(hash, chains, keys, nodes) && a !in nodes && a != 0 && a in keys && chains != [] && h == hash(|chains|, keys[a])
    ensures Placed(hash, chains[h := [a] + chains[h]], keys, nodes + {a})
    ensures forall i :: 0 <= i < |chains| ==> a !in chains[i]
  {
  }

  lemma OutPlaced(hash: HashFunction, chains: seq<seq<nat>>, keys: map<nat, nat>, nodes: set<nat>, h: nat, p: nat)
    requires InRange(hash) && Placed(hash, chains, keys, nodes) && h < |chains| && p < |chains[h]| && Distinct(chains[h])
    ensures Placed(hash, chains[h := chains[h][..p] + chains[h][p + 1..]], keys, nodes - {chains[h][p]})
    ensures chains[h][p] in nodes
    ensures forall i :: 0 <= i < |chains| && i != h ==> chains[h][p] !in chains[i]
  {
    DistinctOut(chains[h], p);
    assert chains[h][p] in chains[h];
  }

  /** `*bucket = node` behind `node->next = *bucket`. */
  lemma PushNode(hash: HashFunction, heads: seq<nat>, chains: seq<seq<nat>>, next: map<nat, nat>, keys: map<nat, nat>, nodes: set<nat>, a: nat, h: nat)
    requires TableOk(hash, heads, chains, next, keys, nodes) && a !in nodes && a != 0 && a in keys
    requires chains != [] && h == hash(|chains|, keys[a])
    ensures TableOk(hash, heads[h := a], chains[h := [a] + chains[h]], next[a := heads[h]], keys, nodes + {a})
  {
    assert Open(0);
    PushPlaced(hash, chains, keys, nodes, a, h);
    assert ChainOk(next, heads[h], chains[h]);
    LinkedFrame(next, heads[h], chains[h], a, heads[h]);
    DistinctPush(a, chains[h]);
    assert ([a] + chains[h])[1..] == chains[h];
    OneChain(heads, chains, next, h, a, [a] + chains[h], a, heads[h]);
  }

  /** Taking the first node of a chain. */
  lemma PopNode(hash: HashFunction, heads: seq<nat>, chains: seq<seq<nat>>, next: map<nat, nat>, keys: map<nat, nat>, nodes: set<nat>, h: nat)
    requires TableOk(hash, heads, chains, next, keys, nodes) && h < |chains| && chains[h] != []
    ensures heads[h] == chains[h][0] && heads[h] in nodes && heads[h] in next
    ensures TableOk(hash, heads[h := next[heads[h]]], chains[h := chains[h][1..]], next, keys, nodes - {heads[h]})
  {
    assert Open(0);
    var chain := chains[h];
    assert ChainOk(next, heads[h], chain);
    OutPlaced(hash, chains, keys, nodes, h, 0);
    assert chain[..0] + chain[1..] == chain[1..];
    DistinctTail(chain);
    assert next[chain[0] := next[chain[0]]] == next;
    assert chain[0] in chain;
    OneChain(heads, chains, next, h, next[chain[0]], chain[1..], chain[0], next[chain[0]]);
  }

  /** The link of a node that is in no chain may change. */
  lemma TableFrame(hash: HashFunction, heads: seq<nat>, chains: seq<seq<nat>>, next: map<nat, nat>, keys: map<nat, nat>, nodes: set<nat>, a: nat, to: nat)
    requires TableOk(hash, heads, chains, next, keys, nodes) && a !in nodes
    ensures TableOk(hash, heads, chains, next[a := to], keys, nodes)
  {
    assert Open(0);
    forall i | 0 <= i < |heads| ensures ChainOk(next[a := to], heads[i], chains[i]) {
      assert ChainOk(next, heads[i], chains[i]);
      LinkedFrame(next, heads[i], chains[i], a, to);
    }
  }

  /** Taking a node that is not the first of its chain. */
  lemma RemoveInside(hash: HashFunction, heads: seq<nat>, chains: seq<seq<nat>>, next: map<nat, nat>, keys: map<nat, nat>, nodes: set<nat>, h: nat, p: nat)
    requires TableOk(hash, heads, chains, next, keys, nodes) && h < |chains| && 0 < p < |chains[h]|
    ensures var chain := chains[h];
      && chain[p] in nodes && chain[p - 1] in next && chain[p] in next
      && TableOk(hash, heads, chains[h := chain[..p] + chain[p + 1..]], next[chain[p - 1] := next[chain[p]]], keys, nodes - {chain[p]})
  {
    assert Open(0);
    var chain := chains[h];
    assert ChainOk(next, heads[h], chain);
    Unlinked(next, heads[h], chain, p);
    OutPlaced(hash, chains, keys, nodes, h, p);
    OutPlaced(hash, chains, keys, nodes, h, p - 1);
    DistinctOut(chain, p);
    OneChain(heads, chains, next, h, heads[h], chain[..p] + chain[p + 1..], chain[p - 1], next[chain[p]]);
    assert heads[h := heads[h]] == heads;
  }

  /** Moving the first node of an old chain to the front of a new one. */
  lemma MoveNode(hash: HashFunction, heads: seq<nat>, chains: seq<seq<nat>>, heads': seq<nat>, chains': seq<seq<nat>>,
      next: map<nat, nat>, keys: map<nat, nat>, left: set<nat>, moved: set<nat>, i: nat, h: nat)
    requires TableOk(hash, heads, chains, next, keys, left) && TableOk(hash, heads', chains', next, keys, moved) && left !! moved
    requires i < |chains| && chains[i] != [] && chains' != []
    requires heads[i] in keys && h == hash(|chains'|, keys[heads[i]])
    ensures heads[i] == chains[i][0] && heads[i] in left && heads[i] in next
    ensures var a := heads[i]; var next' := next[a := heads'[h]];
      && TableOk(hash, heads[i := next[a]], chains[i := chains[i][1..]], next', keys, left - {a})
      && TableOk(hash, heads'[h := a], chains'[h := [a] + chains'[h]], next', keys, moved + {a})
  {
    assert Open(0);
    PopNode(hash, heads, chains, next, keys, left, i);
    var a := heads[i];
    TableFrame(hash, heads[i := next[a]], chains[i := chains[i][1..]], next, keys, left - {a}, a, heads'[h]);
    assert a != 0;
    PushNode(hash, heads', chains', next, keys, moved, a, h);
  }

  /** A chain is empty exactly when its bucket is null. */
  lemma NullHead(heads: seq<nat>, chains: seq<seq<nat>>, next: map<nat, nat>, i: nat)
    requires ChainsOk(heads, chains, next) && i < |heads|
    ensures heads[i] == 0 <==> chains[i] == []
  {
    assert ChainOk(next, heads[i], chains[i]);
  }

  lemma NothingLeft(hash: HashFunction, chains: seq<seq<nat>>, keys: map<nat, nat>, nodes: set<nat>)
    requires InRange(hash) && Placed(hash, chains, keys, nodes) && forall i :: 0 <= i < |chains| ==> chains[i] == []
    ensures nodes == {}
  {
  }

  lemma EmptyTable(hash: HashFunction, cap: nat, heads: seq<nat>, next: map<nat, nat>, keys: map<nat, nat>)
    requires InRange(hash) && |heads| == cap && forall i :: 0 <= i < cap ==> heads[i] == 0
    ensures TableOk(hash, heads, seq(cap, _ => []), next, keys, {})
  {
    forall i | 0 <= i < cap ensures ChainOk(next, heads[i], []) {
    }
  }

  /** Every carved node is in a bucket, on the free list or in `extra`, and in one of them only. */
  ghost predicate NodesOk(carved: set<nat>, nodes: set<nat>, free: seq<nat>, extra: set<nat>) {
    && Distinct(free) && (forall a :: a in carved <==> a in nodes || a in free || a in extra)
    && (forall a :: a in free ==> a !in nodes && a !in extra && a != 0)
    && nodes !! extra
  }

  lemma NodeTaken(carved: set<nat>, nodes: set<nat>, free: seq<nat>)
    requires NodesOk(carved, nodes, free, {}) && free != []
    ensures NodesOk(carved, nodes, free[1..], {free[0]}) && free[0] != 0
  {
    DistinctTail(free);
    assert free == [free[0]] + free[1..];
  }

  lemma NodeGiven(carved: set<nat>, nodes: set<nat>, free: seq<nat>, a: nat)
    requires NodesOk(carved, nodes, free, {a}) && a != 0
    ensures NodesOk(carved, nodes, [a] + free, {})
  {
    DistinctPush(a, free);
  }

  lemma PageCut(carved: set<nat>, nodes: set<nat>, page: seq<nat>)
    requires NodesOk(carved, nodes, [], {}) && Distinct(page) && forall a :: a in page ==> a != 0 && a !in carved
    ensures NodesOk(carved + (set a | a in page), nodes, page, {})
  {
  }

  /** `at` finds exactly the nodes by their keys. */
  ghost predicate Keyed<V>(at: map<nat, nat>, nodes: set<nat>, keys: map<nat, nat>, values: map<nat, V>) {
    && (forall k :: k in at ==> at[k] in nodes && at[k] in keys && keys[at[k]] == k)
    && (forall a :: a in nodes ==> a in keys && keys[a] in at && at[keys[a]] == a && a in values)
  }

  lemma PlacedFrame(hash: HashFunction, chains: seq<seq<nat>>, keys: map<nat, nat>, nodes: set<nat>, a: nat, key: nat)
    requires InRange(hash) && Placed(hash, chains, keys, nodes) && a !in nodes
    ensures Placed(hash, chains, keys[a := key], nodes)
  {
  }

  lemma KeysFrame(hash: HashFunction, heads: seq<nat>, chains: seq<seq<nat>>, next: map<nat, nat>, keys: map<nat, nat>,
      nodes: set<nat>, a: nat, key: nat)
    requires TableOk(hash, heads, chains, next, keys, nodes) && a !in nodes
    ensures TableOk(hash, heads, chains, next, keys[a := key], nodes)
  {
    assert Open(0);
    PlacedFrame(hash, chains, keys, nodes, a, key);
  }

  lemma KeyedFrame<V>(at: map<nat, nat>, nodes: set<nat>, keys: map<nat, nat>, values: map<nat, V>, a: nat, key: nat, value: V)
    requires Keyed(at, nodes, keys, values) && a !in nodes
    ensures Keyed(at, nodes, keys[a := key], values[a := value])
  {
  }

  lemma KeyedMore<V>(at: map<nat, nat>, nodes: set<nat>, keys: map<nat, nat>, values: map<nat, V>, a: nat)
    requires Keyed(at, nodes, keys, values) && a !in nodes && a in keys && a in values && keys[a] !in at
    ensures Keyed(at[keys[a] := a], nodes + {a}, keys, values)
  {
  }

  lemma KeyedLess<V>(at: map<nat, nat>, nodes: set<nat>, keys: map<nat, nat>, values: map<nat, V>, a: nat)
    requires Keyed(at, nodes, keys, values) && a in nodes
    ensures Keyed(at - {keys[a]}, nodes - {a}, keys, values) && |at - {keys[a]}| == |at| - 1
  {
    var k := keys[a];
    assert at == (at - {k})[k := a];
  }

  function ContentsOf<V>(at: map<nat, nat>, values: map<nat, V>): map<nat, V> {
    map k | k in at && at[k] in values :: values[at[k]]
  }

  lemma ContentsFrame<V>(at: map<nat, nat>, nodes: set<nat>, keys: map<nat, nat>, values: map<nat, V>, a: nat, v: V)
    requires Keyed(at, nodes, keys, values) && a !in nodes
    ensures ContentsOf(at, values[a := v]) == ContentsOf(at, values)
  {
  }

  lemma ContentsMore<V>(at: map<nat, nat>, values: map<nat, V>, key: nat, a: nat)
    requires a in values
    ensures ContentsOf(at[key := a], values) == ContentsOf(at, values)[key := values[a]]
  {
  }

  lemma ContentsLess<V>(at: map<nat, nat>, values: map<nat, V>, key: nat)
    ensures ContentsOf(at - {key}, values) == ContentsOf(at, values) - {key}
  {
  }

  /** A new node in front of its bucket's chain. */
  lemma LinkAll<V>(hash: HashFunction, heads: seq<nat>, chains: seq<seq<nat>>, next: map<nat, nat>, keys: map<nat, nat>,
      values: map<nat, V>, nodes: set<nat>, at: map<nat, nat>, carved: set<nat>, free: seq<nat>, node: nat, h: nat)
    requires TableOk(hash, heads, chains, next, keys, nodes) && Keyed(at, nodes, keys, values)
    requires NodesOk(carved, nodes, free, {node}) && node != 0 && node in keys && node in values && keys[node] !in at
    requires chains != [] && h == hash(|chains|, keys[node])
    ensures TableOk(hash, heads[h := node], chains[h := [node] + chains[h]], next[node := heads[h]], keys, nodes + {node})
    ensures Keyed(at[keys[node] := node], nodes + {node}, keys, values) && |at[keys[node] := node]| == |at| + 1
    ensures NodesOk(carved, nodes + {node}, free, {})
  {
    PushNode(hash, heads, chains, next, keys, nodes, node, h);
    KeyedMore(at, nodes, keys, values, node);
  }

  /** What is left when node `p` of chain `h` is taken out. */
  ghost predicate TakenOut<V>(hash: HashFunction, heads: seq<nat>, chains: seq<seq<nat>>, next: map<nat, nat>,
      keys: map<nat, nat>, values: map<nat, V>, nodes: set<nat>, at: map<nat, nat>, carved: set<nat>, free: seq<nat>, node: nat)
  {
    && TableOk(hash, heads, chains, next, keys, nodes) && Keyed(at, nodes, keys, values)
    && NodesOk(carved, nodes, free, {node})
  }

  lemma UnlinkFirst<V>(hash: HashFunction, heads: seq<nat>, chains: seq<seq<nat>>, next: map<nat, nat>, keys: map<nat, nat>,
      values: map<nat, V>, nodes: set<nat>, at: map<nat, nat>, carved: set<nat>, free: seq<nat>, node: nat, h: nat)
    requires TableOk(hash, heads, chains, next, keys, nodes) && Keyed(at, nodes, keys, values) && NodesOk(carved, nodes, free, {})
    requires h < |chains| && chains[h] != [] && node == chains[h][0]
    ensures node != 0 && node in nodes && node in next && node in keys && keys[node] in at && |at - {keys[node]}| == |at| - 1
    ensures TakenOut(hash, heads[h := next[node]], chains[h := chains[h][1..]], next, keys, values, nodes - {node},
                     at - {keys[node]}, carved, free, node)
  {
    assert Open(0);
    PopNode(hash, heads, chains, next, keys, nodes, h);
    KeyedLess(at, nodes, keys, values, node);
  }

  lemma UnlinkInner<V>(hash: HashFunction, heads: seq<nat>, chains: seq<seq<nat>>, next: map<nat, nat>, keys: map<nat, nat>,
      values: map<nat, V>, nodes: set<nat>, at: map<nat, nat>, carved: set<nat>, free: seq<nat>, node: nat, h: nat, p: nat)
    requires TableOk(hash, heads, chains, next, keys, nodes) && Keyed(at, nodes, keys, values) && NodesOk(carved, nodes, free, {})
    requires h < |chains| && 0 < p < |chains[h]| && node == chains[h][p]
    ensures node != 0 && node in nodes && node in next && node in keys && keys[node] in at && |at - {keys[node]}| == |at| - 1
    ensures TakenOut(hash, heads, chains[h := chains[h][..p] + chains[h][p + 1..]], next[chains[h][p - 1] := next[node]], keys,
                     values, nodes - {node}, at - {keys[node]}, carved, free, node)
  {
    assert Open(0);
    RemoveInside(hash, heads, chains, next, keys, nodes, h, p);
    KeyedLess(at, nodes, keys, values, node);
  }

  class NumDictionary<V> {
    const hash: HashFunction
    const capacities: seq<nat>
    var buckets: array<nat>        // capacity is its length
    var size: nat
    var index: nat                 // capacity_index
    var next: map<nat, nat>
    var keys: map<nat, nat>
    var values: map<nat, V>
    var freeNodes: seq<nat>
    ghost var chains: seq<seq<nat>>
    ghost var nodes: set<nat>      // nodes in buckets
    ghost var at: map<nat, nat>    // the node of each key
    ghost var carved: set<nat>     // all nodes cut out of pages

    /** Everything but the load factor, with some nodes out of the table and the free list. */
    ghost predicate Core(extra: set<nat>)
      reads this, buckets
    {
      && Growing(capacities) && index < 60 && buckets.Length == capacities[index]
      && TableOk(hash, buckets[..], chains, next, keys, nodes)
      && Keyed(at, nodes, keys, values) && size == |at|
      && NodesOk(carved, nodes, freeNodes, extra)
    }

    ghost predicate Valid()
      reads this, buckets
    {
      Core({}) && (size > 0 ==> buckets.Length >= 2 * size - 1)
    }

    ghost function Contents(): map<nat, V>
      requires Keyed(at, nodes, keys, values)
      reads this
    {
      ContentsOf(at, values)
    }

    constructor (hashing: HashFunction)
      requires InRange(hashing)
      ensures Valid() && Contents() == map[] && carved == {} && fresh(buckets)
    {
      hash := hashing;
      capacities := CapacityList();
      CapacitiesGrow();
      buckets := new nat[0];
      size, index, next, keys, values, freeNodes := 0, 0, map[], map[], map[], [];
      chains, nodes, at, carved := [], {}, map[], {};
    }

    /** A node is found by its key in the bucket of the key's hash. */
    lemma InBucket(key: nat, extra: set<nat>)
      requires Core(extra) && key in at
      ensures buckets.Length > 0 && at[key] in chains[hash(buckets.Length, key)] && at[key] != 0
    {
      assert Open(0);
      assert at[key] in nodes;
    }

    lemma HeadLinked(h: nat, extra: set<nat>)
      requires Core(extra) && h < buckets.Length
      ensures Linked(next, buckets[h], chains[h])
    {
      assert Open(0);
      assert ChainOk(next, buckets[..][h], chains[h]);
    }

    lemma BucketKeys(h: nat, a: nat, extra: set<nat>)
      requires Core(extra) && h < |chains| && a in chains[h]
      ensures a in nodes && a in keys && at[keys[a]] == a
    {
      assert Open(0);
    }

    /** `ndict_generic_get_node`: the node of a key, or null. */
    method GetNode(key: nat, ghost extra: set<nat>) returns (node: nat)
      requires Core(extra)
      ensures node == if key in at then at[key] else 0
    {
      if key in at { InBucket(key, extra); }
      if buckets.Length == 0 { return 0; }
      var h := hash(buckets.Length, key);
      ghost var chain, p: nat := chains[h], 0;
      node := buckets[h];
      HeadLinked(h, extra);
      assert chain[0..] == chain;
      while node != 0
        invariant p <= |chain| && Linked(next, node, chain[p..])
        invariant forall q :: 0 <= q < p ==> chain[q] in keys && keys[chain[q]] != key
        decreases |chain| - p
      {
        assert node == chain[p];
        BucketKeys(h, chain[p], extra);
        if keys[node] == key { return; }
        assert chain[p..][1..] == chain[p + 1..];
        node, p := next[node], p + 1;
      }
    }

    method Present(key: nat, ghost extra: set<nat>) returns (present: bool)
      requires Core(extra)
      ensures present <==> key in at
    {
      if key in at { InBucket(key, extra); }
      var node := GetNode(key, extra);
      present := node != 0;
    }

    /** Lookups agree with the contents. */
    method Get(key: nat) returns (value: V)
      requires Valid() && key in Contents()
      ensures value == Contents()[key]
    {
      var node := GetNode(key, {});
      value := values[node];
    }

    method Contains(key: nat) returns (found: bool)
      requires Valid()
      ensures found <==> key in Contents()
    {
      found := Present(key, {});
    }

    /** Moves the nodes of one old chain, one after the other, to new buckets. */
    method MoveChain(to: array<nat>, links: map<nat, nat>, head: nat, ghost i: nat,
        ghost heads: seq<nat>, ghost old': seq<seq<nat>>, ghost new': seq<seq<nat>>, ghost left: set<nat>, ghost moved: set<nat>)
      returns (links': map<nat, nat>, ghost heads': seq<nat>, ghost rest: seq<seq<nat>>, ghost made: seq<seq<nat>>,
               ghost left': set<nat>, ghost moved': set<nat>)
      requires TableOk(hash, heads, old', links, keys, left) && TableOk(hash, to[..], new', links, keys, moved) && left !! moved
      requires i < |old'| && head == heads[i] && to.Length > 0 && to != buckets
      modifies to
      ensures TableOk(hash, heads', rest, links', keys, left') && TableOk(hash, to[..], made, links', keys, moved') && left' !! moved'
      ensures left' + moved' == left + moved
      ensures |rest| == |old'| && rest[i] == [] && forall j :: 0 <= j < |old'| && j != i ==> rest[j] == old'[j] && heads'[j] == heads[j]
    {
      assert Open(0);
      links', heads', rest, made, left', moved' := links, heads, old', new', left, moved;
      var node := head;
      while node != 0
        invariant TableOk(hash, heads', rest, links', keys, left') && TableOk(hash, to[..], made, links', keys, moved') && left' !! moved'
        invariant left' + moved' == left + moved
        invariant |rest| == |old'| && node == heads'[i]
        invariant forall j :: 0 <= j < |old'| && j != i ==> rest[j] == old'[j] && heads'[j] == heads[j]
        decreases |rest[i]|
      {
        NullHead(heads', rest, links', i);
        PopNode(hash, heads', rest, links', keys, left', i);
        var h := hash(to.Length, keys[node]);
        MoveNode(hash, heads', rest, to[..], made, links', keys, left', moved', i, h);
        var following := links'[node];
        heads', rest := heads'[i := following], rest[i := rest[i][1..]];
        made := made[h := [node] + made[h]];
        left', moved' := left' - {node}, moved' + {node};
        links' := links'[node := to[h]];
        to[h] := node;
        node := following;
      }
      NullHead(heads', rest, links', i);
    }

    /** The loop of `_ndict_resize`. */
    method Rehash(to: array<nat>) returns (links: map<nat, nat>, ghost made: seq<seq<nat>>)
      requires TableOk(hash, buckets[..], chains, next, keys, nodes)
      requires to.Length > 0 && to != buckets && forall i :: 0 <= i < to.Length ==> to[i] == 0
      modifies to
      ensures TableOk(hash, to[..], made, links, keys, nodes)
    {
      assert Open(0);
      links := next;
      ghost var heads, rest, left, moved := buckets[..], chains, nodes, {};
      made := seq(to.Length, _ => []);
      EmptyTable(hash, to.Length, to[..], next, keys);
      var bucket := 0;
      while bucket < buckets.Length
        invariant 0 <= bucket <= buckets.Length
        invariant TableOk(hash, heads, rest, links, keys, left) && TableOk(hash, to[..], made, links, keys, moved) && left !! moved
        invariant left + moved == nodes && |rest| == buckets.Length
        invariant forall j :: 0 <= j < bucket ==> rest[j] == []
        invariant forall j :: bucket <= j < buckets.Length ==> heads[j] == buckets[j]
      {
        links, heads, rest, made, left, moved := MoveChain(to, links, buckets[bucket], bucket, heads, rest, made, left, moved);
        bucket := bucket + 1;
      }
      NothingLeft(hash, rest, keys, left);
      assert moved == nodes;
    }

    /** `_ndict_resize`: all nodes are put into new buckets.  The smallest table does not shrink. */
    method Resize(up: bool, ghost extra: set<nat>)
      requires Core(extra) && (up ==> index < 59) && (!up ==> index > 0)
      modifies this`buckets, this`index, this`next, this`chains
      ensures Core(extra) && (buckets == old(buckets) || fresh(buckets))
      ensures index == if up then old(index) + 1 else if old(index) == 1 then 1 else old(index) - 1
    {
      var target := if up then index + 1 else index - 1;
      if capacities[target] == 0 { return; }
      var to := new nat[capacities[target]](_ => 0);
      var links;
      ghost var made;
      links, made := Rehash(to);
      Install(to, links, made, target, extra);
    }

    /** Puts new buckets in place of the old ones. */
    method Install(to: array<nat>, links: map<nat, nat>, ghost made: seq<seq<nat>>, target: nat, ghost extra: set<nat>)
      requires Growing(capacities) && target < 60 && to.Length == capacities[target]
      requires TableOk(hash, to[..], made, links, keys, nodes)
      requires Keyed(at, nodes, keys, values) && size == |at| && NodesOk(carved, nodes, freeNodes, extra)
      modifies this`buckets, this`index, this`next, this`chains
      ensures Core(extra) && buckets == to && index == target
    {
      buckets, next, chains, index := to, links, made, target;
    }

    /** A node for a new key: from the free list, or else from a page cut into `page`. */
    method AllocNode(page: seq<nat>) returns (node: nat)
      requires Core({}) && page != [] && Distinct(page) && forall a :: a in page ==> a != 0 && a !in carved
      modifies this`freeNodes, this`carved
      ensures Core({node}) && node != 0
      ensures carved == old(carved) || (old(freeNodes) == [] && carved == old(carved) + (set a | a in page))
    {
      if |freeNodes| == 0 {
        PageCut(carved, nodes, page);
        freeNodes := page;
        carved := carved + (set a | a in page);
      }
      node := freeNodes[0];
      NodeTaken(carved, nodes, freeNodes);
      freeNodes := freeNodes[1..];
    }

    /** Fills in a node that is not in the table yet. */
    method SetNode(node: nat, key: nat, value: V)
      requires Core({node})
      modifies this`keys, this`values
      ensures Core({node}) && keys == old(keys)[node := key] && values == old(values)[node := value]
    {
      KeysFrame(hash, buckets[..], chains, next, keys, nodes, node, key);
      KeyedFrame(at, nodes, keys, values, node, key, value);
      keys, values := keys[node := key], values[node := value];
    }

    method SetBucket(h: nat, head: nat)
      requires h < buckets.Length
      modifies buckets
      ensures buckets[..] == old(buckets[..])[h := head]
    {
      buckets[h] := head;
    }

    /** Writes a bucket, links and the counters. */
    method Place(h: nat, head: nat, links: map<nat, nat>, count: nat,
        ghost chains': seq<seq<nat>>, ghost nodes': set<nat>, ghost at': map<nat, nat>)
      requires h < buckets.Length
      modifies this`next, this`size, this`chains, this`nodes, this`at, buckets
      ensures buckets[..] == old(buckets[..])[h := head] && next == links && size == count
      ensures chains == chains' && nodes == nodes' && at == at'
    {
      SetBucket(h, head);
      next, size, chains, nodes, at := links, count, chains', nodes', at';
    }

    /** Puts a node in front of its bucket's chain. */
    method Link(node: nat)
      requires Core({node}) && node != 0 && node in keys && node in values && keys[node] !in at && buckets.Length > 0
      modifies this`next, this`size, this`chains, this`nodes, this`at, buckets
      ensures Core({}) && at == old(at)[keys[node] := node] && size == old(size) + 1
    {
      var h := hash(buckets.Length, keys[node]);
      LinkAll(hash, buckets[..], chains, next, keys, values, nodes, at, carved, freeNodes, node, h);
      Place(h, node, next[node := buckets[h]], size + 1,
            chains[h := [node] + chains[h]], nodes + {node}, at[keys[node] := node]);
    }

    /** `ndict_generic_insert`; fails for a key that is present, and frees the node.  An assertion
        stops the program when there is no greater capacity for one more node. */
    method InsertNode(node: nat) returns (ok: bool, stopped: bool)
      requires Core({node}) && node != 0 && node in keys && node in values
      requires size > 0 ==> buckets.Length >= 2 * size - 1
      modifies this`buckets, this`index, this`next, this`size, this`chains, this`nodes, this`at, this`freeNodes, buckets
      ensures buckets == old(buckets) || fresh(buckets)
      ensures stopped <==> keys[node] !in old(at) && 2 * old(size) + 1 > capacities[59]
      ensures !stopped ==>
        Valid() && (ok <==> keys[node] !in old(at)) && at == if ok then old(at)[keys[node] := node] else old(at)
    {
      stopped := false;
      var present := Present(keys[node], {node});
      if present {
        GiveBack(node);
      } else {
        stopped := LinkNew(node);
      }
      ok := !present;
    }

    /** Links a node with a new key, into a bigger table if this one is full enough. */
    method LinkNew(node: nat) returns (stopped: bool)
      requires Core({node}) && node != 0 && node in keys && node in values && keys[node] !in at
      requires size > 0 ==> buckets.Length >= 2 * size - 1
      modifies this`buckets, this`index, this`next, this`size, this`chains, this`nodes, this`at, buckets
      ensures buckets == old(buckets) || fresh(buckets)
      ensures stopped <==> 2 * old(size) + 1 > capacities[59]
      ensures !stopped ==> Valid() && at == old(at)[keys[node] := node]
    {
      stopped := false;
      if buckets.Length < 2 * size + 1 {
        stopped := Grow(node);
        if stopped { return; }
      } else {
        Enough(capacities, index, size);
      }
      Link(node);
    }

    /** A table that is full enough gets the next capacity, which is enough for one more. */
    method Grow(node: nat) returns (stopped: bool)
      requires Core({node}) && buckets.Length < 2 * size + 1
      requires size > 0 ==> buckets.Length >= 2 * size - 1
      modifies this`buckets, this`index, this`next, this`chains
      ensures Core({node}) && (buckets == old(buckets) || fresh(buckets))
      ensures stopped <==> 2 * size + 1 > capacities[59]
      ensures !stopped ==> buckets.Length >= 2 * size + 1
    {
      NextIsEnough(capacities, index, size);
      if capacities[index + 1] == 0 { return true; }
      Resize(true, {node});
      stopped := false;
    }

    /** `ndict_insert`. */
    method Insert(key: nat, value: V, page: seq<nat>) returns (ok: bool, stopped: bool)
      requires Valid() && page != [] && Distinct(page) && forall a :: a in page ==> a != 0 && a !in carved
      modifies this, buckets
      ensures buckets == old(buckets) || fresh(buckets)
      ensures stopped <==> key !in old(Contents()) && 2 * old(size) + 1 > capacities[59]
      ensures !stopped ==>
        && Valid() && (ok <==> key !in old(Contents()))
        && Contents() == if ok then old(Contents())[key := value] else old(Contents())
    {
      var node := AllocNode(page);
      ContentsFrame(at, nodes, keys, values, node, value);
      SetNode(node, key, value);
      ContentsMore(at, values, key, node);
      ok, stopped := InsertNode(node);
    }

    /** Takes the first node of a chain. */
    method UnlinkHead(h: nat, node: nat)
      requires Core({}) && h < |chains| && chains[h] != [] && node == chains[h][0]
      modifies this`next, this`size, this`chains, this`nodes, this`at, buckets
      ensures Core({node}) && node != 0 && node in keys && at == old(at) - {keys[node]} && size == old(size) - 1
    {
      UnlinkFirst(hash, buckets[..], chains, next, keys, values, nodes, at, carved, freeNodes, node, h);
      Place(h, next[node], next, size - 1, chains[h := chains[h][1..]], nodes - {node}, at - {keys[node]});
    }

    /** Takes the node behind `prev` out of its chain. */
    method UnlinkBehind(h: nat, ghost p: nat, prev: nat, node: nat)
      requires Core({}) && h < |chains| && 0 < p < |chains[h]| && node == chains[h][p] && prev == chains[h][p - 1]
      modifies this`next, this`size, this`chains, this`nodes, this`at, buckets
      ensures Core({node}) && node != 0 && node in keys && at == old(at) - {keys[node]} && size == old(size) - 1
    {
      UnlinkInner(hash, buckets[..], chains, next, keys, values, nodes, at, carved, freeNodes, node, h, p);
      assert buckets[..][h := buckets[h]] == buckets[..];
      Place(h, buckets[h], next[prev := next[node]], size - 1,
            chains[h := chains[h][..p] + chains[h][p + 1..]], nodes - {node}, at - {keys[node]});
    }

    /** Gives a node back to the free list. */
    method GiveBack(node: nat)
      requires Core({node}) && node != 0
      modifies this`freeNodes
      ensures Core({})
    {
      NodeGiven(carved, nodes, freeNodes, node);
      freeNodes := [node] + freeNodes;
    }

    /** Where a key's node is in its chain: its place, and the node before it, or null. */
    method Find(key: nat) returns (node: nat, prev: nat, ghost p: nat)
      requires Core({}) && buckets.Length > 0
      ensures node == 0 <==> key !in at
      ensures node != 0 ==> node == at[key] && node in keys && keys[node] == key && index > 0
      ensures var h := hash(buckets.Length, key);
        node != 0 ==> h < |chains| && p < |chains[h]| && node == chains[h][p]
                      && prev == (if p == 0 then 0 else chains[h][p - 1]) && (p > 0 ==> prev != 0)
    {
      if key in at { InBucket(key, {}); }
      var h := hash(buckets.Length, key);
      ghost var chain := chains[h];
      node, prev, p := buckets[h], 0, 0;
      HeadLinked(h, {});
      assert chain[0..] == chain;
      while node != 0
        invariant p <= |chain| && Linked(next, node, chain[p..])
        invariant prev == (if p == 0 then 0 else chain[p - 1]) && (p > 0 ==> prev != 0)
        invariant forall q :: 0 <= q < p ==> chain[q] in keys && keys[chain[q]] != key
        decreases |chain| - p
      {
        assert node == chain[p];
        BucketKeys(h, chain[p], {});
        if keys[node] == key { return; }
        assert chain[p..][1..] == chain[p + 1..];
        prev, node, p := node, next[node], p + 1;
      }
    }

    /** The table shrinks when it has more than four buckets a node. */
    method Shrink()
      requires Core({}) && index > 0 && buckets.Length >= 2 * size - 1
      modifies this`buckets, this`index, this`next, this`chains
      ensures Valid() && (buckets == old(buckets) || fresh(buckets))
    {
      if buckets.Length > 4 * size {
        if index > 1 { PreviousIsEnough(capacities, index, size); }
        Resize(false, {});
      }
    }

    /** `ndict_generic_remove`. */
    method RemoveNode(key: nat) returns (ok: bool)
      requires Valid()
      modifies this, buckets
      ensures Valid() && (buckets == old(buckets) || fresh(buckets)) && values == old(values)
      ensures ok <==> key in old(at)
      ensures at == old(at) - {key}
    {
      ok := buckets.Length > 0;
      if ok {
        var node, prev;
        ghost var p;
        node, prev, p := Find(key);
        ok := node != 0;
        if ok { RemoveFound(hash(buckets.Length, key), p, prev, node); }
      } else {
        NothingIn(key);
      }
    }

    lemma NothingIn(key: nat)
      requires Core({}) && buckets.Length == 0
      ensures key !in at
    {
      if key in at {
        InBucket(key, {});
        assert false;
      }
    }

    method RemoveFound(h: nat, ghost p: nat, prev: nat, node: nat)
      requires Valid() && index > 0 && h < |chains| && p < |chains[h]| && node == chains[h][p] && node in keys
      requires prev == (if p == 0 then 0 else chains[h][p - 1]) && (p > 0 ==> prev != 0)
      modifies this`buckets, this`index, this`next, this`size, this`chains, this`nodes, this`at, this`freeNodes, buckets
      ensures Valid() && (buckets == old(buckets) || fresh(buckets)) && at == old(at) - {keys[node]}
    {
      TakeAway(h, p, prev, node);
      Shrink();
    }

    /** Takes a node out of the table and frees it. */
    method TakeAway(h: nat, ghost p: nat, prev: nat, node: nat)
      requires Core({}) && h < |chains| && p < |chains[h]| && node == chains[h][p] && node in keys
      requires prev == (if p == 0 then 0 else chains[h][p - 1]) && (p > 0 ==> prev != 0)
      modifies this`next, this`size, this`chains, this`nodes, this`at, this`freeNodes, buckets
      ensures Core({}) && at == old(at) - {keys[node]} && size == old(size) - 1
    {
      if prev == 0 {
        UnlinkHead(h, node);
      } else {
        UnlinkBehind(h, p, prev, node);
      }
      GiveBack(node);
    }

    /** `ndict_remove`. */
    method Remove(key: nat) returns (ok: bool)
      requires Valid()
      modifies this, buckets
      ensures Valid() && (buckets == old(buckets) || fresh(buckets))
      ensures ok <==> key in old(Contents())
      ensures Contents() == old(Contents()) - {key}
    {
      ContentsLess(at, values, key);
      ok := RemoveNode(key);
    }
  }
}
