/** The block stack of utils/fast_stack.h.

    Elements live in pages that are never moved, so the address of an element is
    stable for as long as the element is on the stack.  Transaction bookmarks are
    such addresses.  Pages given back are reused. */
module FastStacks {

  /** The address of an element: its page and its slot in the page. */
  datatype Address<T> = Address(page: array<T>, slot: nat)

  /** Page number and slot number. */
  datatype Spot = Spot(page: nat, slot: nat)

  /** The spot of the element pushed after `i` others, for pages of `size` slots. */
  ghost function SpotOf(i: nat, size: nat): (s: Spot)
    requires size > 0
    ensures s.slot < size
  {
    if i == 0 then Spot(0, 0)
    else
      var s := SpotOf(i - 1, size);
      if s.slot + 1 < size then Spot(s.page, s.slot + 1) else Spot(s.page + 1, 0)
  }

  lemma {:induction false} SpotIndex(i: nat, size: nat)
    requires size > 0
    ensures SpotOf(i, size).page * size + SpotOf(i, size).slot == i
  {
    if i > 0 {
      SpotIndex(i - 1, size);
    }
  }

  lemma {:induction false} SpotsRise(i: nat, j: nat, size: nat)
    requires size > 0 && i <= j
    ensures SpotOf(i, size).page <= SpotOf(j, size).page
    ensures i < j && SpotOf(i, size).page == SpotOf(j, size).page ==> SpotOf(i, size).slot < SpotOf(j, size).slot
  {
    if i < j {
      SpotsRise(i, j - 1, size);
    }
  }

  /** A page is used up exactly when its slot 0 is the newest: below it is a full page or nothing. */
  lemma Below(i: nat, size: nat)
    requires size > 0 && SpotOf(i, size).slot == 0
    ensures i == 0 <==> SpotOf(i, size).page == 0
    ensures i > 0 ==> SpotOf(i - 1, size) == Spot(SpotOf(i, size).page - 1, size - 1)
  {
    SpotIndex(i, size);
  }

  class FastStack<T(0)> {
    const blockSize: nat
    var blockCount: nat           // pages in use
    var blocks: seq<array<T>>     // pages owned: those in use, or one kept when the stack is empty
    var ptr: nat                  // slots used in the last page
    var cache: seq<array<T>>      // pages given back to the page allocator
    ghost var contents: seq<T>
    ghost var addresses: seq<Address<T>>    // where each element is
    ghost var Repr: set<object>

    ghost predicate Valid()
      reads this, Repr
    {
      && this in Repr && blockSize > 0 && Pages()
      && (if blockCount == 0 then |blocks| <= 1 && ptr == blockSize && contents == []
          else |blocks| == blockCount && 0 < ptr <= blockSize && contents != []
               && SpotOf(|contents| - 1, blockSize) == Spot(blockCount - 1, ptr - 1))
      && |addresses| == |contents|
      && forall i :: 0 <= i < |contents| ==> Holds(i, addresses[i], contents[i])
    }

    /** All pages are distinct and of one size. */
    ghost predicate Pages()
      reads this
    {
      && (forall i :: 0 <= i < |blocks| ==> blocks[i] in Repr && blocks[i].Length == blockSize && blocks[i] !in cache)
      && (forall i :: 0 <= i < |cache| ==> cache[i] in Repr && cache[i].Length == blockSize)
      && (forall i, j :: 0 <= i < j < |blocks| ==> blocks[i] != blocks[j])
      && (forall i, j :: 0 <= i < j < |cache| ==> cache[i] != cache[j])
    }

    /** Element `i` is `x` and is stored at `address`. */
    ghost predicate Holds(i: nat, address: Address<T>, x: T)
      requires blockSize > 0
      reads this, blocks
    {
      var s := SpotOf(i, blockSize);
      && s.page < |blocks| && blocks[s.page].Length == blockSize
      && blocks[s.page][s.slot] == x && address == Address(blocks[s.page], s.slot)
    }

    constructor (size: nat)
      requires size > 0
      ensures Valid() && fresh(Repr) && contents == []
    {
      blockSize, blockCount, blocks, ptr, cache := size, 0, [], size, [];
      contents, addresses := [], [];
      Repr := {this};
    }

    /** Two elements never share an address. */
    lemma Distinct(i: nat, j: nat)
      requires Valid() && i < |contents| && j < |contents| && addresses[i] == addresses[j]
      ensures i == j
    {
      assert Holds(i, addresses[i], contents[i]) && Holds(j, addresses[j], contents[j]);
      SpotIndex(i, blockSize);
      SpotIndex(j, blockSize);
    }

    predicate Empty()
      requires Valid()
      reads this, Repr
      ensures Empty() <==> contents == []
    {
      blockCount == 0
    }

    /** The size, also when the stack is empty and `ptr` is at the end of the kept page. */
    function Size(): (n: int)
      requires Valid()
      reads this, Repr
      ensures n == |contents|
    {
      SpotIndex(if contents == [] then 0 else |contents| - 1, blockSize);
      (blockCount - 1) * blockSize + ptr
    }

    method Expand()
      requires Valid() && ptr == blockSize
      modifies this
      ensures blockCount == old(blockCount) + 1 && ptr == 0
      ensures contents == old(contents) && addresses == old(addresses)
      ensures |blocks| == blockCount && forall i :: 0 <= i < old(blockCount) ==> blocks[i] == old(blocks[i])
      ensures Pages() && this in Repr && old(Repr) <= Repr && fresh(Repr - old(Repr))
    {
      blockCount := blockCount + 1;
      if blockCount != 1 || |blocks| == 0 {
        var page: array<T>;
        if |cache| > 0 {
          page := cache[|cache| - 1];
          cache := cache[..|cache| - 1];
        } else {
          page := new T[blockSize];
          Repr := Repr + {page};
        }
        blocks := blocks + [page];
      }
      ptr := 0;
    }

    method Push(x: T)
      requires Valid()
      modifies Repr
      ensures Valid() && old(Repr) <= Repr && fresh(Repr - old(Repr))
      ensures contents == old(contents) + [x]
      ensures addresses[..|old(addresses)|] == old(addresses)
    {
      ghost var n := |contents|;
      if ptr == blockSize {
        Expand();
      }
      forall i | 0 <= i < n ensures Holds(i, addresses[i], contents[i]) && SpotOf(i, blockSize) != SpotOf(n, blockSize) {
        assert old(Holds(i, addresses[i], contents[i]));
        SpotsRise(i, n, blockSize);
        SpotsRise(i, n - 1, blockSize);
      }
      Store(x, n);
    }

    /** Writes the top slot. */
    method Store(x: T, ghost n: nat)
      requires blockSize > 0 && this in Repr && Pages() && |blocks| == blockCount > 0 && ptr < blockSize
      requires n == |contents| == |addresses| && SpotOf(n, blockSize) == Spot(blockCount - 1, ptr)
      requires forall i :: 0 <= i < n ==>
                 Holds(i, addresses[i], contents[i]) && SpotOf(i, blockSize) != SpotOf(n, blockSize)
      modifies this, blocks[blockCount - 1]
      ensures Valid() && Repr == old(Repr) && contents == old(contents) + [x]
      ensures addresses[..n] == old(addresses)
    {
      var page := blocks[blockCount - 1];
      page[ptr] := x;
      addresses := addresses + [Address(page, ptr)];
      ptr := ptr + 1;
      contents := contents + [x];
      forall i | 0 <= i < |contents| ensures Holds(i, addresses[i], contents[i]) {
        if i < n {
          assert old(Holds(i, addresses[i], contents[i]));
        }
      }
    }

    /** The address of the newest element. */
    method Top() returns (top: Address<T>)
      requires Valid() && contents != []
      ensures |addresses| == |contents| && top == addresses[|contents| - 1]
      ensures top.slot < top.page.Length && top.page[top.slot] == contents[|contents| - 1]
    {
      assert Holds(|contents| - 1, addresses[|contents| - 1], contents[|contents| - 1]);
      top := Address(blocks[blockCount - 1], ptr - 1);
    }

    method Shrink()
      requires blockCount > 0 && |blocks| == blockCount
      modifies this
      ensures blockCount == old(blockCount) - 1 && ptr == blockSize
      ensures contents == old(contents) && addresses == old(addresses) && Repr == old(Repr)
      ensures blocks == (if blockCount == 0 then old(blocks) else old(blocks)[..blockCount])
      ensures cache == (if blockCount == 0 then old(cache) else old(cache) + [old(blocks)[blockCount]])
    {
      blockCount := blockCount - 1;
      if blockCount > 0 {
        cache := cache + [blocks[|blocks| - 1]];
        blocks := blocks[..|blocks| - 1];
      }
      ptr := blockSize;
    }

    /** What is below the newest element, before it is popped. */
    lemma UnderTop(n: nat)
      requires Valid() && n == |contents| && n > 0
      ensures ptr > 1 ==> n > 1
      ensures ptr == 1 ==> (n == 1 <==> blockCount == 1)
      ensures ptr > 1 ==> SpotOf(n - 2, blockSize) == Spot(blockCount - 1, ptr - 2)
      ensures ptr == 1 && n > 1 ==> SpotOf(n - 2, blockSize) == Spot(blockCount - 2, blockSize - 1)
      ensures forall i :: 0 <= i < n - 1 ==> SpotOf(i, blockSize).page <= SpotOf(n - 2, blockSize).page
    {
      if ptr == 1 {
        Below(n - 1, blockSize);
      }
      forall i | 0 <= i < n - 1 ensures SpotOf(i, blockSize).page <= SpotOf(n - 2, blockSize).page {
        SpotsRise(i, n - 2, blockSize);
      }
    }

    method Pop()
      requires Valid() && contents != []
      modifies this
      ensures Valid() && Repr == old(Repr)
      ensures contents == old(contents[..|contents| - 1])
      ensures addresses == old(addresses)[..|contents|]
    {
      ghost var n := |contents|;
      UnderTop(n);
      contents, addresses := contents[..n - 1], addresses[..n - 1];
      ptr := ptr - 1;
      if ptr == 0 {
        Shrink();
      }
      forall i | 0 <= i < n - 1 ensures Holds(i, addresses[i], contents[i]) {
        assert old(Holds(i, addresses[i], contents[i]));
      }
    }

    /** Drops every element, page by page; the last page is kept. */
    method Erase()
      requires Valid()
      modifies this
      ensures Valid() && contents == [] && Repr == old(Repr)
    {
      contents, addresses := [], [];
      while blockCount > 0
        invariant this in Repr && Repr == old(Repr) && blockSize > 0 && contents == [] && addresses == [] && Pages()
        invariant if blockCount == 0 then |blocks| <= 1 && ptr == blockSize else |blocks| == blockCount
      {
        Shrink();
      }
    }

    /** The elements from the oldest to the newest, page after page. */
    method ForEach() returns (visited: seq<T>)
      requires Valid()
      ensures visited == contents
    {
      visited := [];
      if blockCount == 0 { return; }
      SpotIndex(|contents| - 1, blockSize);
      var b := 0;
      while b < |blocks|
        invariant 0 <= b <= |blocks|
        invariant b < |blocks| ==> SpotOf(|visited|, blockSize) == Spot(b, 0)
        invariant |visited| <= |contents| && visited == contents[..|visited|]
        invariant if b < |blocks| then |visited| < |contents| else |visited| == |contents|
      {
        var last := if b == |blocks| - 1 then ptr else blockSize;
        var j := 0;
        while j < last
          invariant 0 <= j <= last
          invariant |visited| <= |contents| && visited == contents[..|visited|]
          invariant if j < blockSize then SpotOf(|visited|, blockSize) == Spot(b, j)
                    else SpotOf(|visited|, blockSize) == Spot(b + 1, 0)
          invariant |visited| == |contents| <==> b == |blocks| - 1 && j == last
        {
          assert Holds(|visited|, addresses[|visited|], contents[|visited|]);
          visited := visited + [blocks[b][j]];
          j := j + 1;
          Reached(|visited|);
        }
        b := b + 1;
      }
    }

    /** The size is where the walk over the pages ends. */
    lemma Reached(n: nat)
      requires Valid() && blockCount > 0 && 0 < n <= |contents|
      ensures n == |contents| <==> SpotOf(n - 1, blockSize) == Spot(blockCount - 1, ptr - 1)
    {
      SpotIndex(n - 1, blockSize);
      SpotIndex(|contents| - 1, blockSize);
    }
  }
}
