/** The slab allocator of nodes, and the dump cursor that survives allocations and frees.

    A block is a page of `perBlock` nodes.  `blocks` lists all full blocks and then all
    partial ones; `dumpBlocks` lists blocks in the order they were made, which is the order
    of the dump.  Doubly linked lists are sequences here. */
module NodeAllocators {

  datatype Option<T> = None | Some(value: T)

  datatype Node = Node(block: nat, slot: nat)

  // ----- sequences without repetition

  predicate Distinct<T(==)>(s: seq<T>) {
    forall i, j :: 0 <= i < j < |s| ==> s[i] != s[j]
  }

  lemma DistinctTail(s: seq<nat>)
    requires s != [] && Distinct(s)
    ensures Distinct(s[1..]) && s[0] !in s[1..]
    ensures forall x :: x in s <==> x == s[0] || x in s[1..]
  {
    var t := s[1..];
    forall i, j | 0 <= i < j < |t| ensures t[i] != t[j] {
      assert s[i + 1] != s[j + 1];
    }
    assert s == [s[0]] + t;
  }

  lemma DistinctPush(x: nat, s: seq<nat>)
    requires x !in s && Distinct(s)
    ensures Distinct([x] + s)
  {
    var t := [x] + s;
    forall i, j | 0 <= i < j < |t| ensures t[i] != t[j] {
      assert t[j] == s[j - 1] && (i > 0 ==> t[i] == s[i - 1]);
    }
  }

  function IndexOf(s: seq<nat>, x: nat): (i: nat)
    requires x in s
    ensures i < |s| && s[i] == x
  {
    if s[0] == x then 0 else 1 + IndexOf(s[1..], x)
  }

  function Without(s: seq<nat>, x: nat): (t: seq<nat>)
    requires x in s
    ensures |t| == |s| - 1
  {
    s[..IndexOf(s, x)] + s[IndexOf(s, x) + 1..]
  }

  lemma WithoutMembers(s: seq<nat>, x: nat)
    requires x in s && Distinct(s)
    ensures Distinct(Without(s, x))
    ensures forall y :: y in Without(s, x) <==> y in s && y != x
  {
    var i := IndexOf(s, x);
    forall y | y in s && y != x ensures y in Without(s, x) {
      var j :| 0 <= j < |s| && s[j] == y;
      assert if j < i then Without(s, x)[j] == y else Without(s, x)[j - 1] == y;
    }
  }

  // ----- the dump order

  /** `n` comes before `m` when blocks are walked in the order of `order`. */
  ghost predicate Precedes(order: seq<nat>, n: Node, m: Node) {
    || (n.block == m.block && n.block in order && n.slot < m.slot)
    || (exists i, j :: 0 <= i < j < |order| && order[i] == n.block && order[j] == m.block)
  }

  lemma NotBeforeItself(order: seq<nat>, n: Node)
    requires Distinct(order)
    ensures !Precedes(order, n, n)
  {
  }

  /** A node is before, at or behind another one. */
  lemma Trichotomy(order: seq<nat>, n: Node, m: Node)
    requires Distinct(order) && n.block in order && m.block in order
    ensures Precedes(order, n, m) || n == m || Precedes(order, m, n)
    ensures Precedes(order, n, m) ==> n != m && !Precedes(order, m, n)
  {
    var i, j := IndexOf(order, n.block), IndexOf(order, m.block);
    if i < j {
      assert order[i] == n.block && order[j] == m.block;
    } else if j < i {
      assert order[j] == m.block && order[i] == n.block;
    }
  }

  lemma Transitive(order: seq<nat>, n: Node, m: Node, k: Node)
    requires Distinct(order) && Precedes(order, n, m) && Precedes(order, m, k)
    ensures Precedes(order, n, k)
  {
  }

  /** Removing another block changes nothing between two nodes. */
  lemma PrecedesWithout(order: seq<nat>, b: nat, n: Node, m: Node)
    requires Distinct(order) && b in order && n.block != b && m.block != b
    ensures Precedes(Without(order, b), n, m) <==> Precedes(order, n, m)
  {
    WithoutMembers(order, b);
    var at := IndexOf(order, b);
    var rest := Without(order, b);
    if i, j :| 0 <= i < j < |order| && order[i] == n.block && order[j] == m.block {
      var i', j' := if i < at then i else i - 1, if j < at then j else j - 1;
      assert rest[i'] == n.block && rest[j'] == m.block;
    }
    if i, j :| 0 <= i < j < |rest| && rest[i] == n.block && rest[j] == m.block {
      var i', j' := if i < at then i else i + 1, if j < at then j else j + 1;
      assert order[i'] == n.block && order[j'] == m.block;
    }
  }

  lemma PrecedesMore(order: seq<nat>, b: nat, n: Node, m: Node)
    requires n.block in order && m.block in order && Distinct(order + [b])
    ensures Precedes(order + [b], n, m) <==> Precedes(order, n, m)
  {
    var more := order + [b];
    if i, j :| 0 <= i < j < |order| && order[i] == n.block && order[j] == m.block {
      assert more[i] == n.block && more[j] == m.block;
    }
    if i, j :| 0 <= i < j < |more| && more[i] == n.block && more[j] == m.block {
      var k := IndexOf(order, m.block);
      assert more[k] == more[j];
      assert order[i] == n.block && order[j] == m.block;
    }
  }

  // ----- counting slots

  function Elements(s: seq<nat>): set<nat> {
    if s == [] then {} else {s[0]} + Elements(s[1..])
  }

  lemma {:induction false} ElementsOf(s: seq<nat>)
    ensures forall x :: x in Elements(s) <==> x in s
    ensures Distinct(s) ==> |Elements(s)| == |s|
  {
    if s != [] {
      ElementsOf(s[1..]);
    }
  }

  function Below(n: nat): set<nat> {
    if n == 0 then {} else Below(n - 1) + {n - 1}
  }

  lemma {:induction false} BelowSize(n: nat)
    ensures |Below(n)| == n && forall x: nat :: x in Below(n) <==> x < n
  {
    if n > 0 {
      BelowSize(n - 1);
    }
  }

  /** A free list of all slots but one holds every other slot. */
  lemma AllOthersFree(free: seq<nat>, n: nat, slot: nat)
    requires Distinct(free) && |free| == n - 1 && slot < n && slot !in free
    requires forall x :: x in free ==> x < n
    ensures forall x: nat :: x < n && x != slot ==> x in free
  {
    BelowSize(n);
    ElementsOf(free);
    var others := Below(n) - {slot};
    SubsetFull(Elements(free), others);
    forall x: nat | x < n && x != slot ensures x in free {
      assert x in others;
    }
  }

  lemma SubsetFull(a: set<nat>, b: set<nat>)
    requires a <= b && |a| == |b|
    ensures a == b
  {
    if a != b {
      var x :| x in b && x !in a;
      assert a <= b - {x};
      SubsetSize(a, b - {x});
    }
  }

  lemma SubsetSize(a: set<nat>, b: set<nat>)
    requires a <= b
    ensures |a| <= |b|
  {
    if a != {} {
      var x :| x in a;
      SubsetSize(a - {x}, b - {x});
    }
  }

  /** A block's free list and its number of used nodes make up the block. */
  ghost predicate BlockOk(n: nat, free: seq<nat>, used: nat) {
    used >= 1 && used + |free| == n && Distinct(free) && forall x :: x in free ==> x < n
  }

  // ----- the slab

  ghost predicate SlabOk(n: nat, blocks: seq<nat>, free: map<nat, seq<nat>>, used: map<nat, nat>) {
    Distinct(blocks) && forall b :: b in blocks ==> b in free && b in used && BlockOk(n, free[b], used[b])
  }

  ghost predicate Partial(free: map<nat, seq<nat>>, b: nat) {
    b in free && free[b] != []
  }

  /** All full blocks, and then all partial ones. */
  ghost predicate FullFirst(blocks: seq<nat>, free: map<nat, seq<nat>>) {
    forall i, j :: 0 <= i < j < |blocks| && Partial(free, blocks[i]) ==> Partial(free, blocks[j])
  }

  ghost predicate IsLive(n: nat, blocks: seq<nat>, free: map<nat, seq<nat>>, x: Node) {
    x.block in blocks && x.slot < n && x.block in free && x.slot !in free[x.block]
  }

  ghost predicate LiveOk(n: nat, blocks: seq<nat>, free: map<nat, seq<nat>>, live: set<Node>) {
    forall x :: x in live <==> IsLive(n, blocks, free, x)
  }

  lemma TakeSlab(n: nat, blocks: seq<nat>, free: map<nat, seq<nat>>, used: map<nat, nat>, b: nat, live: set<Node>)
    requires SlabOk(n, blocks, free, used) && LiveOk(n, blocks, free, live) && b in blocks && Partial(free, b)
    ensures SlabOk(n, blocks, free[b := free[b][1..]], used[b := used[b] + 1])
    ensures LiveOk(n, blocks, free[b := free[b][1..]], live + {Node(b, free[b][0])}) && Node(b, free[b][0]) !in live
  {
    var rest := free[b][1..];
    DistinctTail(free[b]);
    forall x ensures IsLive(n, blocks, free[b := rest], x) <==> IsLive(n, blocks, free, x) || x == Node(b, free[b][0]) {
    }
  }

  lemma PartialOthers(free: map<nat, seq<nat>>, b: nat, slots: seq<nat>)
    requires b in free
    ensures forall c :: c != b ==> (Partial(free[b := slots], c) <==> Partial(free, c))
  {
  }

  /** When the last block is full, all are. */
  lemma AllFull(blocks: seq<nat>, free: map<nat, seq<nat>>)
    requires blocks != [] && FullFirst(blocks, free) && (forall b :: b in blocks ==> b in free)
    requires free[blocks[|blocks| - 1]] == []
    ensures forall b :: b in blocks ==> free[b] == []
  {
    forall b | b in blocks ensures free[b] == [] {
      assert !Partial(free, blocks[|blocks| - 1]) && b == blocks[IndexOf(blocks, b)];
    }
  }

  /** The last block goes to the front when it is full. */
  function Rotated(blocks: seq<nat>): seq<nat>
    requires blocks != []
  {
    [blocks[|blocks| - 1]] + blocks[..|blocks| - 1]
  }

  lemma RotatedMembers(blocks: seq<nat>)
    requires blocks != [] && Distinct(blocks)
    ensures Distinct(Rotated(blocks)) && forall b :: b in Rotated(blocks) <==> b in blocks
  {
    forall b | b in blocks ensures b in Rotated(blocks) {
      var i := IndexOf(blocks, b);
      assert i < |blocks| - 1 ==> Rotated(blocks)[i + 1] == b;
    }
  }

  /** The order is kept when only the last block changes, and moves when it gets full. */
  lemma LastChanges(blocks: seq<nat>, free: map<nat, seq<nat>>, free': map<nat, seq<nat>>)
    requires blocks != [] && FullFirst(blocks, free) && Distinct(blocks)
    requires forall i :: 0 <= i < |blocks| - 1 ==> (Partial(free', blocks[i]) <==> Partial(free, blocks[i]))
    ensures Partial(free', blocks[|blocks| - 1]) ==> FullFirst(blocks, free')
    ensures !Partial(free', blocks[|blocks| - 1]) ==> FullFirst(Rotated(blocks), free')
  {
  }

  lemma SameMembers(n: nat, blocks: seq<nat>, blocks': seq<nat>, free: map<nat, seq<nat>>, used: map<nat, nat>, live: set<Node>)
    requires SlabOk(n, blocks, free, used) && LiveOk(n, blocks, free, live)
    requires Distinct(blocks') && forall b :: b in blocks' <==> b in blocks
    ensures SlabOk(n, blocks', free, used) && LiveOk(n, blocks', free, live)
  {
    forall x ensures IsLive(n, blocks', free, x) <==> IsLive(n, blocks, free, x) {
    }
  }

  /** A free slot more in a block that stays in use. */
  lemma PutSlab(n: nat, blocks: seq<nat>, free: map<nat, seq<nat>>, used: map<nat, nat>, live: set<Node>, x: Node)
    requires SlabOk(n, blocks, free, used) && LiveOk(n, blocks, free, live) && x in live && used[x.block] >= 2
    ensures SlabOk(n, blocks, free[x.block := [x.slot] + free[x.block]], used[x.block := used[x.block] - 1])
    ensures LiveOk(n, blocks, free[x.block := [x.slot] + free[x.block]], live - {x})
  {
    assert IsLive(n, blocks, free, x);
    var free' := free[x.block := [x.slot] + free[x.block]];
    forall y ensures IsLive(n, blocks, free', y) <==> IsLive(n, blocks, free, y) && y != x {
    }
  }

  /** The last used node of a block goes, and the block with it. */
  lemma DropSlab(n: nat, blocks: seq<nat>, free: map<nat, seq<nat>>, used: map<nat, nat>, live: set<Node>, x: Node)
    requires SlabOk(n, blocks, free, used) && LiveOk(n, blocks, free, live) && x in live && used[x.block] == 1
    ensures SlabOk(n, Without(blocks, x.block), free, used)
    ensures LiveOk(n, Without(blocks, x.block), free, live - {x})
    ensures forall y :: y in live && y.block == x.block ==> y == x
  {
    assert IsLive(n, blocks, free, x);
    var b := x.block;
    WithoutMembers(blocks, b);
    AllOthersFree(free[b], n, x.slot);
    forall y ensures IsLive(n, Without(blocks, b), free, y) <==> IsLive(n, blocks, free, y) && y != x {
    }
    forall y | y in live && y.block == b ensures y == x {
      assert IsLive(n, blocks, free, y);
    }
  }

  lemma OrderWithout(blocks: seq<nat>, free: map<nat, seq<nat>>, b: nat)
    requires FullFirst(blocks, free) && b in blocks
    ensures FullFirst(Without(blocks, b), free)
  {
    var at, rest := IndexOf(blocks, b), Without(blocks, b);
    forall i, j | 0 <= i < j < |rest| && Partial(free, rest[i]) ensures Partial(free, rest[j]) {
      var i', j' := if i < at then i else i + 1, if j < at then j else j + 1;
      assert rest[i] == blocks[i'] && rest[j] == blocks[j'];
    }
  }

  /** A full block that gets a free node moves to the end; a partial one stays. */
  lemma OrderPut(blocks: seq<nat>, free: map<nat, seq<nat>>, b: nat, free': map<nat, seq<nat>>)
    requires FullFirst(blocks, free) && Distinct(blocks) && b in blocks && Partial(free', b)
    requires forall c :: c != b ==> (Partial(free', c) <==> Partial(free, c))
    ensures if Partial(free, b) then FullFirst(blocks, free') else FullFirst(Without(blocks, b) + [b], free')
  {
    if Partial(free, b) {
      forall i, j | 0 <= i < j < |blocks| && Partial(free', blocks[i]) ensures Partial(free', blocks[j]) {
      }
    } else {
      OrderWithout(blocks, free, b);
      WithoutMembers(blocks, b);
      var rest := Without(blocks, b);
      forall i, j | 0 <= i < j < |rest + [b]| && Partial(free', (rest + [b])[i]) ensures Partial(free', (rest + [b])[j]) {
        if j < |rest| {
          assert rest[i] in rest && rest[j] in rest;
        }
      }
    }
  }

  lemma PageSlab(n: nat, blocks: seq<nat>, free: map<nat, seq<nat>>, used: map<nat, nat>, live: set<Node>,
      page: nat, slots: seq<nat>)
    requires n >= 2 && SlabOk(n, blocks, free, used) && LiveOk(n, blocks, free, live) && FullFirst(blocks, free)
    requires page !in blocks && |slots| == n && Distinct(slots) && forall x: nat :: x in slots <==> x < n
    ensures SlabOk(n, blocks + [page], free[page := slots[1..]], used[page := 1])
    ensures LiveOk(n, blocks + [page], free[page := slots[1..]], live + {Node(page, slots[0])})
    ensures FullFirst(blocks + [page], free[page := slots[1..]]) && Node(page, slots[0]) !in live
  {
    var free' := free[page := slots[1..]];
    DistinctTail(slots);
    forall x ensures IsLive(n, blocks + [page], free', x) <==> IsLive(n, blocks, free, x) || x == Node(page, slots[0]) {
    }
  }

  // ----- the cursor

  ghost predicate Passed(order: seq<nat>, cursor: Option<Node>, n: Node) {
    cursor.Some? ==> Precedes(order, n, cursor.value)
  }

  lemma PageCursor(order: seq<nat>, cursor: Option<Node>, steady: set<Node>, page: nat)
    requires Distinct(order) && page !in order
    requires cursor.Some? ==> cursor.value.block in order
    requires forall n :: n in steady ==> n.block in order
    ensures forall n :: n in steady ==> (Passed(order + [page], cursor, n) <==> Passed(order, cursor, n))
  {
    if cursor.Some? {
      forall n | n in steady ensures Passed(order + [page], cursor, n) <==> Passed(order, cursor, n) {
        PrecedesMore(order, page, n, cursor.value);
      }
    }
  }

  /** `next` is the first node with an id behind `c`, if there is one. */
  ghost predicate NextOf(order: seq<nat>, ids: map<Node, nat>, c: Node, next: Option<Node>) {
    match next
    case None => forall n :: n in ids ==> !Precedes(order, c, n)
    case Some(m) => m in ids && Precedes(order, c, m) && forall n :: n in ids && Precedes(order, c, n) ==> !Precedes(order, n, m)
  }

  /** Nodes of listed blocks. */
  ghost predicate InBlocks(n: nat, order: seq<nat>, ids: map<Node, nat>) {
    forall x :: x in ids ==> x.block in order && x.slot < n
  }

  /** The node behind `cur` in the walk is `cur'`: the next slot, or the first one of the next block. */
  lemma Successor(n: nat, order: seq<nat>, ids: map<Node, nat>, i: nat, slot: nat, cur': Node)
    requires Distinct(order) && InBlocks(n, order, ids) && i < |order| && slot < n
    requires if slot + 1 < n then cur' == Node(order[i], slot + 1) else i + 1 < |order| && cur' == Node(order[i + 1], 0)
    ensures Precedes(order, Node(order[i], slot), cur')
    ensures forall x :: x in ids && Precedes(order, Node(order[i], slot), x) ==> x == cur' || Precedes(order, cur', x)
  {
    var cur := Node(order[i], slot);
    if slot + 1 == n {
      assert order[i] == cur.block && order[i + 1] == cur'.block;
    }
    forall x | x in ids && Precedes(order, cur, x) ensures x == cur' || Precedes(order, cur', x) {
      if x.block != cur.block {
        var j, k :| 0 <= j < k < |order| && order[j] == cur.block && order[k] == x.block;
        assert j == i;
        if slot + 1 < n {
          assert order[i] == cur'.block && order[k] == x.block;
        } else if k > i + 1 {
          assert order[i + 1] == cur'.block && order[k] == x.block;
        }
      }
    }
  }

  lemma NothingBehind(n: nat, order: seq<nat>, ids: map<Node, nat>, slot: nat)
    requires Distinct(order) && InBlocks(n, order, ids) && order != [] && slot + 1 == n
    ensures forall x :: x in ids ==> !Precedes(order, Node(order[|order| - 1], slot), x)
  {
  }

  lemma FirstOfAll(n: nat, order: seq<nat>, ids: map<Node, nat>)
    requires Distinct(order) && InBlocks(n, order, ids) && order != []
    ensures forall x :: x in ids ==> x == Node(order[0], 0) || Precedes(order, Node(order[0], 0), x)
  {
    forall x | x in ids ensures x == Node(order[0], 0) || Precedes(order, Node(order[0], 0), x) {
      var i := IndexOf(order, x.block);
      assert i > 0 ==> order[0] == Node(order[0], 0).block && order[i] == x.block;
    }
  }

  /** When the cursor moves from `c` to the next node, only `c` is passed in addition. */
  lemma CursorMoves(n: nat, order: seq<nat>, ids: map<Node, nat>, c: Node, next: Option<Node>, x: Node)
    requires Distinct(order) && InBlocks(n, order, ids) && c.block in order && NextOf(order, ids, c, next) && x in ids
    ensures x != c ==> (Passed(order, next, x) <==> Precedes(order, x, c))
    ensures Passed(order, next, c)
  {
    if x != c {
      Trichotomy(order, x, c);
      if next.Some? && Precedes(order, x, c) {
        Transitive(order, x, c, next.value);
      }
    }
  }

  lemma CursorKept(order: seq<nat>, b: nat, cursor: Option<Node>, steady: set<Node>)
    requires Distinct(order) && b in order && (cursor.Some? ==> cursor.value.block != b)
    requires forall x :: x in steady ==> x.block != b
    ensures forall x :: x in steady ==> (Passed(Without(order, b), cursor, x) <==> Passed(order, cursor, x))
  {
    if cursor.Some? {
      forall x | x in steady ensures Passed(Without(order, b), cursor, x) <==> Passed(order, cursor, x) {
        PrecedesWithout(order, b, x, cursor.value);
      }
    }
  }

  /** What happens while a dump is under way. */
  datatype Action = Allocate(page: nat) | Name(named: Node, id: nat) | Release(released: Node) | Unlink(unlinked: Node) | Advance

  class NodeAllocator {
    const perBlock: nat
    var blocks: seq<nat>
    var dumpBlocks: seq<nat>
    var free: map<nat, seq<nat>>    // each block's free slots, the next one to hand out first
    var used: map<nat, nat>
    var ids: map<Node, nat>         // ids that are not 0
    var dumpPtr: Option<Node>
    var dying: set<Node>            // whose id was set to 0, and which are not yet on a free list
    ghost var live: set<Node>       // handed out and not freed
    ghost var steady: set<Node>     // with an id since the dump began
    ghost var visited: seq<Node>    // where the cursor has been since the dump began

    /** The blocks, their free slots and the live nodes. */
    ghost predicate Blocks()
      reads this
    {
      SlabOk(perBlock, blocks, free, used) && LiveOk(perBlock, blocks, free, live)
    }

    /** What hangs on blocks and live nodes. */
    ghost predicate Around()
      reads this
    {
      && perBlock >= 2
      && Distinct(dumpBlocks) && (forall b :: b in dumpBlocks <==> b in blocks)
      && (forall n :: n in ids ==> n in live && ids[n] != 0)
      && (forall n :: n in dying ==> n in live && n !in ids)
    }

    ghost predicate Slab()
      reads this
    {
      Blocks() && FullFirst(blocks, free) && Around()
    }

    /** The cursor is on a node with an id, or on one that is about to be freed; the steady nodes
        it has passed are those visited. */
    ghost predicate Cursor()
      reads this
    {
      && (forall n :: n in steady ==> n in ids)
      && (dumpPtr.Some? ==> dumpPtr.value in ids || dumpPtr.value in dying)
      && (forall n :: n in steady ==> (n in visited <==> Passed(dumpBlocks, dumpPtr, n)))
      && (forall i, j :: 0 <= i < j < |visited| && visited[i] in steady ==> visited[i] != visited[j])
    }

    ghost predicate Valid()
      reads this
    {
      Slab() && Cursor()
    }

    constructor (nodesPerBlock: nat)
      requires nodesPerBlock >= 2
      ensures Valid() && live == {} && dumpPtr == None
    {
      perBlock := nodesPerBlock;
      blocks, dumpBlocks, free, used, ids, dumpPtr := [], [], map[], map[], map[], None;
      dying, live, steady, visited := {}, {}, {}, [];
    }

    /** The first half of `node_allocator_alloc`, under the mutex: a node of the last block,
        unless all blocks are full. */
    method TakeFree() returns (node: Option<Node>)
      requires Valid()
      modifies this`blocks, this`free, this`used, this`live
      ensures Valid()
      ensures node.None? <==> forall b :: b in old(blocks) ==> old(free)[b] == []
      ensures node.Some? ==> node.value !in old(live) && live == old(live) + {node.value}
      ensures node.None? ==> live == old(live)
    {
      if |blocks| == 0 { return None; }
      var b := blocks[|blocks| - 1];
      ghost var had := free;
      node := TakeSlot(b);
      if node.None? {
        AllFull(blocks, free);
      }
      Settle(b, had);
    }

    /** The order after a change of the last block: it moves when it has become full. */
    method Settle(b: nat, ghost had: map<nat, seq<nat>>)
      requires Blocks() && Around() && Cursor() && blocks != [] && b == blocks[|blocks| - 1] && FullFirst(blocks, had)
      requires forall c :: c != b ==> (Partial(free, c) <==> Partial(had, c))
      modifies this`blocks
      ensures Valid()
    {
      LastChanges(blocks, had, free);
      if |free[b]| == 0 {
        Rotate();
      }
    }

    /** A node of block `b`, if it has a free one. */
    method TakeSlot(b: nat) returns (node: Option<Node>)
      requires Valid() && b in blocks
      modifies this`free, this`used, this`live
      ensures Blocks() && Around() && Cursor()
      ensures b in free && forall c :: c != b ==> (Partial(free, c) <==> Partial(old(free), c))
      ensures if node.None? then old(free)[b] == [] && live == old(live) && free == old(free)
              else old(free)[b] != [] && node.value !in old(live) && live == old(live) + {node.value}
    {
      if |free[b]| == 0 { return None; }
      node := Some(Node(b, free[b][0]));
      TakeSlab(perBlock, blocks, free, used, b, live);
      PartialOthers(free, b, free[b][1..]);
      free, used := free[b := free[b][1..]], used[b := used[b] + 1];
      live := live + {node.value};
    }

    /** The last block, now full, goes to the front. */
    method Rotate()
      requires Blocks() && Around() && Cursor() && blocks != [] && FullFirst(Rotated(blocks), free)
      modifies this`blocks
      ensures Valid()
    {
      RotatedMembers(blocks);
      SameMembers(perBlock, blocks, Rotated(blocks), free, used, live);
      blocks := Rotated(blocks);
    }

    /** `_node_allocator_alloc_page`: a page cut into nodes, of which one is handed out. */
    method AllocPage(page: nat) returns (node: Node)
      requires Valid() && page !in blocks
      modifies this`blocks, this`dumpBlocks, this`free, this`used, this`live
      ensures Valid() && node !in old(live) && live == old(live) + {node}
      ensures blocks == old(blocks) + [page] && dumpBlocks == old(dumpBlocks) + [page]
    {
      var slots := Carve();
      node := Node(page, slots[0]);
      PageSlab(perBlock, blocks, free, used, live, page, slots);
      PageCursor(dumpBlocks, dumpPtr, steady, page);
      free, used := free[page := slots[1..]], used[page := 1];
      blocks, dumpBlocks := blocks + [page], dumpBlocks + [page];
      live := live + {node};
    }

    /** The free list of a new page: nodes are pushed one by one, so the last one is first. */
    method Carve() returns (slots: seq<nat>)
      ensures |slots| == perBlock && Distinct(slots) && forall x: nat :: x in slots <==> x < perBlock
    {
      slots := [];
      for i := 0 to perBlock
        invariant |slots| == i && Distinct(slots) && forall x: nat :: x in slots <==> x < i
      {
        DistinctPush(i, slots);
        slots := [i] + slots;
      }
    }

    /** `node_allocator_alloc`, run alone: a page is requested only when every block is full. */
    method Alloc(page: nat) returns (node: Node)
      requires Valid() && page !in blocks
      modifies this`blocks, this`dumpBlocks, this`free, this`used, this`live
      ensures Valid() && node !in old(live) && live == old(live) + {node}
      ensures page in blocks <==> forall b :: b in old(blocks) ==> old(free)[b] == []
    {
      var found := TakeFree();
      if found.Some? {
        node := found.value;
      } else {
        node := AllocPage(page);
      }
    }

    /** `tr_node_create` gives a node its id. */
    method SetId(node: Node, id: nat)
      requires Valid() && node in live && node !in dying && id != 0
      modifies this`ids
      ensures Valid() && ids == old(ids)[node := id] && dying == old(dying)
    {
      ids := ids[node := id];
    }

    lemma IdsInBlocks()
      requires Blocks() && Around()
      ensures InBlocks(perBlock, dumpBlocks, ids)
    {
      forall x | x in ids ensures x.block in dumpBlocks && x.slot < perBlock {
        assert IsLive(perBlock, blocks, free, x);
      }
    }

    /** `_node_get_next_step`, repeated until it finds an id. */
    method Walk(from: Node) returns (next: Option<Node>)
      requires Distinct(dumpBlocks) && InBlocks(perBlock, dumpBlocks, ids) && perBlock >= 2
      requires from.block in dumpBlocks && from.slot < perBlock
      ensures NextOf(dumpBlocks, ids, from, next)
    {
      var i: nat, slot: nat := IndexOf(dumpBlocks, from.block), from.slot;
      NotBeforeItself(dumpBlocks, from);
      while true
        invariant i < |dumpBlocks| && slot < perBlock
        invariant Node(dumpBlocks[i], slot) == from || Precedes(dumpBlocks, from, Node(dumpBlocks[i], slot))
        invariant forall x :: x in ids && Precedes(dumpBlocks, from, x) ==> Precedes(dumpBlocks, Node(dumpBlocks[i], slot), x)
        decreases |dumpBlocks| - i, perBlock - slot
      {
        ghost var i', slot' := i, slot;
        slot := slot + 1;
        if slot >= perBlock {
          i := i + 1;
          if i == |dumpBlocks| {
            NothingBehind(perBlock, dumpBlocks, ids, slot');
            return None;
          }
          slot := 0;
        }
        var node := Node(dumpBlocks[i], slot);
        Successor(perBlock, dumpBlocks, ids, i', slot', node);
        Onward(dumpBlocks, from, Node(dumpBlocks[i'], slot'), node);
        if node in ids {
          Found(perBlock, dumpBlocks, ids, from, node);
          return Some(node);
        }
      }
    }

    static lemma Onward(order: seq<nat>, from: Node, cur: Node, cur': Node)
      requires Distinct(order) && (cur == from || Precedes(order, from, cur)) && Precedes(order, cur, cur')
      ensures Precedes(order, from, cur')
    {
      if cur != from {
        Transitive(order, from, cur, cur');
      }
    }

    static lemma Found(n: nat, order: seq<nat>, ids: map<Node, nat>, from: Node, node: Node)
      requires Distinct(order) && InBlocks(n, order, ids) && node in ids && Precedes(order, from, node)
      requires forall x :: x in ids && Precedes(order, from, x) ==> x == node || Precedes(order, node, x)
      ensures NextOf(order, ids, from, Some(node))
    {
      forall x | x in ids && Precedes(order, from, x) ensures !Precedes(order, x, node) {
        if x == node {
          NotBeforeItself(order, node);
        } else {
          Trichotomy(order, node, x);
        }
      }
    }

    /** The first node with an id. */
    method First() returns (cursor: Option<Node>)
      requires Distinct(dumpBlocks) && InBlocks(perBlock, dumpBlocks, ids) && perBlock >= 2
      ensures cursor.Some? ==> cursor.value in ids
      ensures forall x :: x in ids ==> !Passed(dumpBlocks, cursor, x)
    {
      cursor := None;
      if |dumpBlocks| > 0 {
        var first := Node(dumpBlocks[0], 0);
        FirstOfAll(perBlock, dumpBlocks, ids);
        if first in ids {
          cursor := Some(first);
        } else {
          cursor := Walk(first);
        }
        FirstIsFirst(perBlock, dumpBlocks, ids, first, cursor);
      }
    }

    /** `node_allocator_dump_init`: the cursor goes to the first node with an id. */
    method DumpInit()
      requires Valid()
      modifies this`dumpPtr, this`steady, this`visited
      ensures Valid() && steady == ids.Keys && visited == []
      ensures dumpPtr.Some? ==> dumpPtr.value in ids
      ensures forall x :: x in ids ==> !Passed(dumpBlocks, dumpPtr, x)
    {
      IdsInBlocks();
      dumpPtr := First();
      steady := ids.Keys;
      visited := [];
    }

    static lemma FirstIsFirst(n: nat, order: seq<nat>, ids: map<Node, nat>, first: Node, cursor: Option<Node>)
      requires Distinct(order) && InBlocks(n, order, ids) && first.block in order
      requires forall x :: x in ids ==> x == first || Precedes(order, first, x)
      requires if first in ids then cursor == Some(first) else NextOf(order, ids, first, cursor)
      ensures forall x :: x in ids ==> !Passed(order, cursor, x)
    {
      forall x | x in ids ensures !Passed(order, cursor, x) {
        if first in ids {
          if x == first {
            NotBeforeItself(order, x);
          } else {
            Trichotomy(order, first, x);
          }
        }
      }
    }

    lemma CursorInBlocks()
      requires Blocks() && Around() && Cursor() && dumpPtr.Some?
      ensures dumpPtr.value.block in dumpBlocks && dumpPtr.value.slot < perBlock
    {
      assert IsLive(perBlock, blocks, free, dumpPtr.value);
    }

    /** `node_allocator_dump_next`, after the node under the cursor was dumped. */
    method DumpNext()
      requires Valid() && dumpPtr.Some?
      modifies this`dumpPtr, this`visited
      ensures Valid() && visited == old(visited) + [old(dumpPtr.value)]
      ensures NextOf(dumpBlocks, ids, old(dumpPtr.value), dumpPtr)
    {
      var c := dumpPtr.value;
      IdsInBlocks();
      CursorInBlocks();
      dumpPtr := Walk(c);
      VisitedMore(visited, c, steady, dumpBlocks);
      forall x | x in ids
        ensures x != c ==> (Passed(dumpBlocks, dumpPtr, x) <==> Precedes(dumpBlocks, x, c))
        ensures Passed(dumpBlocks, dumpPtr, c)
      {
        CursorMoves(perBlock, dumpBlocks, ids, c, dumpPtr, x);
      }
      visited := visited + [c];
    }

    static lemma VisitedMore(visited: seq<Node>, c: Node, steady: set<Node>, order: seq<nat>)
      requires Distinct(order) && forall i, j :: 0 <= i < j < |visited| && visited[i] in steady ==> visited[i] != visited[j]
      requires c in steady ==> (c in visited <==> Precedes(order, c, c))
      ensures forall i, j :: 0 <= i < j < |visited + [c]| && (visited + [c])[i] in steady ==> (visited + [c])[i] != (visited + [c])[j]
    {
      NotBeforeItself(order, c);
    }

    /** `node_allocator_free` in front of the mutex: the node's id becomes 0.  The cursor may be
        on it.  The dump does not take it meanwhile: the handle that aborts holds its lock, and
        the service thread frees nodes only between dump steps. */
    method ClearId(node: Node)
      requires Valid() && node in live
      modifies this`ids, this`dying, this`steady
      ensures Valid() && ids == old(ids) - {node} && steady == old(steady) - {node} && dying == old(dying) + {node}
    {
      ids, dying, steady := ids - {node}, dying + {node}, steady - {node};
    }

    /** Under the mutex: the cursor, if it is on the node, moves on. */
    method Leave(node: Node)
      requires Valid() && node in dying
      modifies this`dumpPtr, this`dying
      ensures Valid() && dying == old(dying) - {node}
      ensures if old(dumpPtr) == Some(node) then NextOf(dumpBlocks, ids, node, dumpPtr) else dumpPtr == old(dumpPtr)
    {
      IdsInBlocks();
      if dumpPtr == Some(node) {
        CursorInBlocks();
        dumpPtr := Walk(node);
        forall x | x in ids ensures x != node ==> (Passed(dumpBlocks, dumpPtr, x) <==> Precedes(dumpBlocks, x, node)) {
          CursorMoves(perBlock, dumpBlocks, ids, node, dumpPtr, x);
        }
      }
      dying := dying - {node};
    }

    /** The rest of it, under the mutex; a block whose last node goes leaves both lists. */
    method UnlinkNode(node: Node)
      requires Valid() && node in dying
      modifies this`blocks, this`dumpBlocks, this`free, this`used, this`dumpPtr, this`dying, this`live
      ensures Valid() && live == old(live) - {node} && dying == old(dying) - {node}
      ensures node.block !in blocks <==> forall n :: n in old(live) && n.block == node.block ==> n == node
    {
      assert IsLive(perBlock, blocks, free, node);
      Leave(node);
      if used[node.block] == 1 {
        DropBlock(node);
      } else {
        Put(node);
      }
    }

    /** `node_allocator_free`, run alone. */
    method Free(node: Node)
      requires Valid() && node in live
      modifies this`blocks, this`dumpBlocks, this`free, this`used, this`ids, this`dumpPtr, this`dying, this`live, this`steady
      ensures Valid() && live == old(live) - {node} && ids == old(ids) - {node} && steady == old(steady) - {node}
      ensures node.block !in blocks <==> forall n :: n in old(live) && n.block == node.block ==> n == node
    {
      ClearId(node);
      UnlinkNode(node);
    }

    method DropBlock(node: Node)
      requires Valid() && node in live && node !in ids && node !in dying && used[node.block] == 1
      modifies this`blocks, this`dumpBlocks, this`live
      ensures Valid() && live == old(live) - {node} && node.block !in blocks
      ensures forall n :: n in old(live) && n.block == node.block ==> n == node
    {
      assert IsLive(perBlock, blocks, free, node);
      DropSlab(perBlock, blocks, free, used, live, node);
      OrderWithout(blocks, free, node.block);
      WithoutMembers(blocks, node.block);
      WithoutMembers(dumpBlocks, node.block);
      CursorKept(dumpBlocks, node.block, dumpPtr, steady);
      blocks, dumpBlocks := Without(blocks, node.block), Without(dumpBlocks, node.block);
      live := live - {node};
    }

    /** A node of a block that stays goes back to the block's free list. */
    method Put(node: Node)
      requires Valid() && node in live && node !in ids && node !in dying && used[node.block] >= 2
      modifies this`blocks, this`free, this`used, this`live
      ensures Valid() && live == old(live) - {node} && node.block in blocks
      ensures exists n :: n in old(live) && n.block == node.block && n != node
    {
      var b := node.block;
      ghost var had := free;
      PutSlot(node);
      OrderPut(blocks, had, b, free);
      if |free[b]| == 1 {
        ToEnd(b);
      }
    }

    method PutSlot(node: Node)
      requires Valid() && node in live && node !in ids && node !in dying && used[node.block] >= 2
      modifies this`free, this`used, this`live
      ensures Blocks() && Around() && Cursor() && live == old(live) - {node} && node.block in blocks
      ensures node.block in old(free) && free == old(free)[node.block := [node.slot] + old(free)[node.block]]
      ensures exists n :: n in old(live) && n.block == node.block && n != node
    {
      var b := node.block;
      assert IsLive(perBlock, blocks, free, node);
      OtherLive(perBlock, blocks, free, used, live, node);
      PutSlab(perBlock, blocks, free, used, live, node);
      free, used := free[b := [node.slot] + free[b]], used[b := used[b] - 1];
      live := live - {node};
    }

    /** A block that was full goes to the end. */
    method ToEnd(b: nat)
      requires Blocks() && Around() && Cursor() && b in blocks && FullFirst(Without(blocks, b) + [b], free)
      modifies this`blocks
      ensures Valid() && b in blocks
    {
      WithoutMembers(blocks, b);
      SameMembers(perBlock, blocks, Without(blocks, b) + [b], free, used, live);
      blocks := Without(blocks, b) + [b];
    }

    /** At the end of the iteration every node that had an id all along was visited, once. */
    lemma DumpComplete(n: Node)
      requires Valid() && dumpPtr.None? && n in steady
      ensures multiset(visited)[n] == 1
    {
      assert Passed(dumpBlocks, dumpPtr, n);
      CountsOnce(visited, n);
    }

    predicate InUse(node: Node)
      reads this
    {
      node.block in blocks && node.slot < perBlock && node.block in free && node.slot !in free[node.block]
    }

    /** One action, when it is possible; `dumped` is the node that the dump takes, if it does.
        To free a node takes two of them: its id is cleared before the mutex is taken. */
    method Act(action: Action) returns (dumped: Option<Node>)
      requires Valid()
      modifies this
      ensures Valid()
      ensures visited == old(visited) + (if dumped.Some? then [dumped.value] else [])
      ensures steady == if action.Release? then old(steady) - {action.released} else old(steady)
    {
      dumped := None;
      match action {
        case Allocate(page) =>
          if page !in blocks {
            var _ := Alloc(page);
          }
        case Name(node, id) =>
          if InUse(node) && node !in dying && id != 0 {
            SetId(node, id);
          }
        case Release(node) =>
          if InUse(node) {
            ClearId(node);
          }
        case Unlink(node) =>
          if node in dying {
            UnlinkNode(node);
          }
        case Advance =>
          if dumpPtr.Some? && dumpPtr.value in ids {
            dumped := dumpPtr;
            DumpNext();
          }
      }
    }

    /** Actions one after the other, with a dump under way. */
    method Follow(script: seq<Action>) returns (dumped: seq<Node>)
      requires Valid() && visited == []
      modifies this
      ensures Valid() && visited == dumped
      ensures forall n :: n in old(steady) && Release(n) !in script ==> n in steady
    {
      dumped := [];
      for i := 0 to |script|
        invariant Valid() && visited == dumped
        invariant forall n :: n in old(steady) && Release(n) !in script[..i] ==> n in steady
      {
        var taken := Act(script[i]);
        dumped := dumped + if taken.Some? then [taken.value] else [];
        assert script[..i + 1] == script[..i] + [script[i]];
      }
      assert script[..|script|] == script;
    }

    /** A whole iteration under any mix of allocations, namings, frees and dump steps.  When it
        is over, every node that had an id at its start and was not freed was dumped once. */
    method Iterate(script: seq<Action>) returns (dumped: seq<Node>)
      requires Valid()
      modifies this
      ensures Valid()
      ensures dumpPtr.None? ==> forall n :: n in old(ids) && Release(n) !in script ==> multiset(dumped)[n] == 1
    {
      DumpInit();
      dumped := Follow(script);
      if dumpPtr.None? {
        forall n | n in steady ensures multiset(dumped)[n] == 1 {
          DumpComplete(n);
        }
      }
    }
  }

  lemma CountsOnce(s: seq<Node>, n: Node)
    requires n in s && forall i, j :: 0 <= i < j < |s| ==> !(s[i] == n && s[j] == n)
    ensures multiset(s)[n] == 1
  {
    var i :| 0 <= i < |s| && s[i] == n;
    assert s == s[..i] + [n] + s[i + 1..];
    assert n !in s[..i] && n !in s[i + 1..];
    assert multiset(s[..i])[n] == 0 && multiset(s[i + 1..])[n] == 0;
  }

  /** A block with two nodes in use has a live node besides any given one. */
  lemma OtherLive(n: nat, blocks: seq<nat>, free: map<nat, seq<nat>>, used: map<nat, nat>, live: set<Node>, x: Node)
    requires SlabOk(n, blocks, free, used) && LiveOk(n, blocks, free, live) && x in live && used[x.block] >= 2
    ensures exists y :: y in live && y.block == x.block && y != x
  {
    assert IsLive(n, blocks, free, x);
    var list := free[x.block];
    BelowSize(n);
    ElementsOf(list);
    if forall s: nat :: s < n && s != x.slot ==> s in list {
      assert Below(n) - {x.slot} <= Elements(list);
      SubsetSize(Below(n) - {x.slot}, Elements(list));
      assert false;
    }
    var s: nat :| s < n && s != x.slot && s !in list;
    assert IsLive(n, blocks, free, Node(x.block, s));
  }

  /** `used` counts the live nodes of a block. */
  lemma UsedCounts(n: nat, blocks: seq<nat>, free: map<nat, seq<nat>>, used: map<nat, nat>, live: set<Node>, b: nat)
    requires SlabOk(n, blocks, free, used) && LiveOk(n, blocks, free, live) && b in blocks
    ensures used[b] == |set x | x in live && x.block == b|
  {
    BelowSize(n);
    ElementsOf(free[b]);
    var taken := Below(n) - Elements(free[b]);
    SubsetRest(Elements(free[b]), Below(n));
    var here := set x | x in live && x.block == b;
    forall x ensures x in here <==> x.block == b && x.slot in taken {
      assert x in live <==> IsLive(n, blocks, free, x);
    }
    SlotsOf(taken, b, here);
  }

  lemma SubsetRest(a: set<nat>, b: set<nat>)
    requires a <= b
    ensures |b - a| == |b| - |a|
  {
    assert b == a + (b - a);
  }

  lemma {:induction false} SlotsOf(slots: set<nat>, b: nat, nodes: set<Node>)
    requires forall x :: x in nodes <==> x.block == b && x.slot in slots
    ensures |nodes| == |slots|
  {
    if slots == {} {
      assert nodes == {};
    } else {
      var s :| s in slots;
      assert Node(b, s) in nodes;
      SlotsOf(slots - {s}, b, nodes - {Node(b, s)});
    }
  }
}
