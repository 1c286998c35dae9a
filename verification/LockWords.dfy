/** Versioned locks as machine words: an odd version, or the even address of the owner. */
module LockWords {
  import opened StmModel

  /** The address 0 stands for the dumping thread, which accepts every version. */
  const DUMPER: nat := 0
  const ANY_VERSION: nat := 0xFFFF_FFFF_FFFF_FFFF

  /** The test of `l_lock`, `l_lock_` and `l_check` on a raw word. */
  predicate Refused(v: nat, owner: nat, version: nat) {
    if v % 2 == 1 then v > version else v != owner
  }

  /** Addresses of handles are even, not null, and all different. */
  predicate Addresses(at: seq<nat>) {
    && (forall h :: 0 <= h < |at| ==> at[h] % 2 == 0 && at[h] != DUMPER)
    && (forall g, h :: 0 <= g < h < |at| ==> at[g] != at[h])
  }

  predicate Proper(w: LockWord, at: seq<nat>) {
    match w
    case Free(v) => v % 2 == 1 && v < ANY_VERSION
    case Held(h) => h < |at|
    case Dumping => true
  }

  function Word(w: LockWord, at: seq<nat>): nat
    requires Proper(w, at)
  {
    match w
    case Free(v) => v
    case Held(h) => at[h]
    case Dumping => DUMPER
  }

  /** A compare-and-swap that compares words compares locks. */
  lemma WordsDiffer(a: LockWord, b: LockWord, at: seq<nat>)
    requires Addresses(at) && Proper(a, at) && Proper(b, at) && Word(a, at) == Word(b, at)
    ensures a == b
  {
  }

  /** The test on the raw word is the test of the step system, for a handle and for the dumper. */
  lemma TestIsPasses(w: LockWord, at: seq<nat>, h: nat, start: nat)
    requires Addresses(at) && Proper(w, at) && h < |at|
    ensures Refused(Word(w, at), at[h], start) <==> !Passes(w, h, start)
    ensures Refused(Word(w, at), DUMPER, ANY_VERSION) <==> w.Held?
  {
    if w.Held? && at[w.owner] == at[h] {
      WordsDiffer(w, Held(h), at);
    }
  }

  /** What a lock attempt does when other threads store `others[i]` between its read and its
      compare-and-swap in round `i`: whether it took the lock, and the word it leaves. */
  function Outcome(v: nat, owner: nat, version: nat, others: seq<nat>): (bool, nat)
    decreases |others|
  {
    if Refused(v, owner, version) then (false, v)
    else if others == [] || others[0] == v then (true, owner)
    else Outcome(others[0], owner, version, others[1..])
  }

  /** The words an attempt may find. */
  predicate Seen(v: nat, others: seq<nat>, word: nat) {
    word == v || word in others
  }

  /** An attempt takes the lock only from a word that passes the test, and otherwise leaves
      the word of another thread as it is; and if no word passes, it is refused. */
  lemma {:induction false} OutcomeSound(v: nat, owner: nat, version: nat, others: seq<nat>)
    requires owner % 2 == 0
    ensures var (taken, word) := Outcome(v, owner, version, others);
      if taken then word == owner && exists w :: Seen(v, others, w) && !Refused(w, owner, version)
      else Refused(word, owner, version) && Seen(v, others, word)
    ensures Outcome(v, owner, version, others).0 ==> !Refused(v, owner, version)
    decreases |others|
  {
    if !Refused(v, owner, version) {
      assert Seen(v, others, v);
      if others != [] {
        OutcomeSound(others[0], owner, version, others[1..]);
      }
    }
  }

  class Lock {
    var value: nat

    constructor ()
      ensures value == 1
    {
      value := 1;
    }

    /** `l_lock_` and `l_lock`: whether the lock was taken, and from which word. */
    method Take(owner: nat, version: nat, others: seq<nat>) returns (taken: bool, from: nat)
      modifies this
      ensures (taken, value) == Outcome(old(value), owner, version, others)
      ensures Seen(old(value), others, from) && taken == !Refused(from, owner, version)
    {
      var round := 0;
      assert others[0..] == others;
      while true
        invariant 0 <= round <= |others| && Seen(old(value), others, value)
        invariant Outcome(value, owner, version, others[round..]) == Outcome(old(value), owner, version, others)
        decreases |others| - round
      {
        var v := value;
        if Refused(v, owner, version) {
          return false, v;
        }
        if round == |others| {
          value := owner;
          return true, v;
        }
        value := others[round];
        if value == v {
          value := owner;
          return true, v;
        }
        round := round + 1;
      }
    }

    /** `l_unlock`: only the owner's word is replaced. */
    method Unlock(owner: nat, version: nat) returns (ok: bool)
      modifies this
      ensures ok == (old(value) == owner)
      ensures value == if ok then version else old(value)
    {
      ok := value == owner;
      if ok {
        value := version;
      }
    }

    /** `l_check`. */
    method Check(owner: nat, version: nat) returns (ok: bool)
      ensures ok == !Refused(value, owner, version)
    {
      ok := if value % 2 == 1 then value <= version else value == owner;
    }
  }

  /** The part of a handle that locks for a transaction. */
  class Owner {
    const address: nat
    var start: nat
    var acquired: seq<Lock>

    ghost predicate Valid()
      reads this, acquired
    {
      && address % 2 == 0 && address != DUMPER
      && (forall i :: 0 <= i < |acquired| ==> acquired[i].value == address)
      && (forall i, j :: 0 <= i < j < |acquired| ==> acquired[i] != acquired[j])
    }

    constructor (address: nat, start: nat)
      requires address % 2 == 0 && address != DUMPER
      ensures Valid() && this.address == address && this.start == start && acquired == []
    {
      this.address, this.start, this.acquired := address, start, [];
    }

    /** `util_lock`: a lock taken anew is put on the list once. */
    method UtilLock(l: Lock, others: seq<nat>) returns (ok: bool)
      requires Valid() && address !in others && (l.value == address ==> l in acquired && others == [])
      modifies this`acquired, l
      ensures Valid()
      ensures ok == Outcome(old(l.value), address, start, others).0
      ensures ok ==> l.value == address && l in acquired
      ensures acquired == old(acquired) || (ok && acquired == old(acquired) + [l])
      ensures !ok ==> Refused(l.value, address, start) && l !in acquired
    {
      OutcomeSound(l.value, address, start, others);
      var from;
      ok, from := l.Take(address, start, others);
      if ok && from != address {
        acquired := acquired + [l];
      }
    }

    /** `_tr_unlock`: every lock on the list gets the new version, and no other. */
    method UnlockAll(version: nat)
      requires Valid()
      modifies this`acquired, acquired
      ensures Valid() && acquired == []
      ensures forall l :: l in old(acquired) ==> l.value == version
    {
      ghost var n := |acquired|;
      while acquired != []
        invariant n == |old(acquired)| && |acquired| <= n && acquired == old(acquired)[..|acquired|]
        invariant Valid()
        invariant forall i :: |acquired| <= i < n ==> old(acquired)[i].value == version
        decreases |acquired|
      {
        var last := acquired[|acquired| - 1];
        acquired := acquired[..|acquired| - 1];
        var _ := last.Unlock(address, version);
      }
    }
  }
}
