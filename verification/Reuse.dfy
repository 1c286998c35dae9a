/** Why the memory of a deleted node may be used again.

    The step system takes it that the address of a node is not given out again while a
    transaction runs that can reach the node.  Deferred reclamation sees to it, for nodes that
    are not freed while a collection is between reading start times and taking the list. */
module Reuse {
  import opened StmModel
  import opened StmInvariant
  import opened StmSteps
  import opened StmRecords
  import R = Reclamation

  /** The allocator reads the start times of the handles that run a transaction. */
  ghost predicate SameStarts(a: R.State, s: State) {
    forall h :: 0 <= h < |s.handles| && !s.handles[h].pc.Idle? ==> h < |a.starts| && a.starts[h] == s.handles[h].start
  }

  /** Who can reach a node started before the end time of the transaction that deleted it. */
  lemma ReachersAreOlder(r: RState, h: nat, o: nat, i: nat)
    requires Reaches(r, h, o) && o in r.nodes
    requires i < |r.stm.hist| && r.stm.hist[i].status.Committed? && Deletes(r.stm.hist[i].log, o)
    ensures r.stm.handles[h].start < EndTime(i)
  {
    assert i >= Upto(r.stm.handles[h].start);
  }

  /** When the memory of a deleted node goes back to malloc, no running transaction can reach it. */
  lemma ReturnedUnreached(run: seq<R.State>, steps: seq<R.Step>, k: nat, item: R.Item, r: RState, o: nat, i: nat)
    requires R.Run(run, steps) && k < |steps| && item in R.Returned(run[k], steps[k])
    requires forall p :: 0 <= p < |steps| && steps[p] == R.Push(item) ==> !R.Measuring(run[p])
    requires Inv(r.stm) && SameStarts(run[k], r.stm) && o in r.nodes
    requires i < |r.stm.hist| && r.stm.hist[i].status.Committed? && Deletes(r.stm.hist[i].log, o) && item.time == EndTime(i)
    ensures forall h :: 0 <= h < |r.stm.handles| && !r.stm.handles[h].pc.Idle? ==> !Reaches(r, h, o)
  {
    R.PushedBetweenSafe(run, steps, k, item);
    forall h | 0 <= h < |r.stm.handles| && !r.stm.handles[h].pc.Idle? ensures !Reaches(r, h, o) {
      Facts(r.stm, h);
      if Reaches(r, h, o) {
        ReachersAreOlder(r, h, o, i);
      }
    }
  }
}
