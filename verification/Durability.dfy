/** From the output queue to recovery: what a crash leaves of the transactions that were queued. */
module Durability {
  import opened StorageFormat
  import opened DataRecords
  import opened Recovery
  import opened ServiceQueue

  /** What the producer of a job puts in it: the record of a transaction that committed, or
      nothing, for a message or a commit that failed validation. */
  predicate RecordsBy(record: seq<Op> -> seq<byte>, texts: seq<seq<byte>>, txs: seq<Option<seq<Op>>>) {
    |texts| == |txs| && forall q :: 0 <= q < |txs| ==> texts[q] == if txs[q].Some? then record(txs[q].value) else []
  }

  predicate Records(texts: seq<seq<byte>>, txs: seq<Option<seq<Op>>>) {
    RecordsBy(RecordBytes, texts, txs)
  }

  /** The transactions that committed, in the order of the queue. */
  function Committed(txs: seq<Option<seq<Op>>>): seq<seq<Op>> {
    if txs == [] then []
    else
      Committed(txs[..|txs| - 1]) +
      match txs[|txs| - 1]
      case None => []
      case Some(ops) => [ops]
  }

  lemma {:induction false} TextsAreLogBy(record: seq<Op> -> seq<byte>, texts: seq<seq<byte>>, txs: seq<Option<seq<Op>>>)
    requires RecordsBy(record, texts, txs)
    ensures Concat(texts) == Flat(record, Committed(txs))
  {
    if txs != [] {
      var n := |txs| - 1;
      TextsAreLogBy(record, texts[..n], txs[..n]);
      if txs[n].Some? {
        FlatAppend(record, Committed(txs[..n]), [txs[n].value]);
        assert Flat(record, [txs[n].value]) == record(txs[n].value) + [];
      } else {
        assert Concat(texts[..n]) + [] == Concat(texts[..n]) && Committed(txs[..n]) + [] == Committed(txs[..n]);
      }
    }
  }

  lemma TextsAreLog(texts: seq<seq<byte>>, txs: seq<Option<seq<Op>>>)
    requires Records(texts, txs)
    ensures Concat(texts) == LogBytes(Committed(txs))
  {
    TextsAreLogBy(RecordBytes, texts, txs);
  }

  lemma {:induction false} CommittedPrefix(txs: seq<Option<seq<Op>>>, n: nat)
    requires n <= |txs|
    ensures Committed(txs[..n]) <= Committed(txs)
  {
    if n < |txs| {
      CommittedPrefix(txs[..|txs| - 1], n);
      assert txs[..|txs| - 1][..n] == txs[..n];
    } else {
      assert txs[..n] == txs;
    }
  }

  lemma {:induction false} SomeWhole(txs: seq<seq<Op>>, k: nat, n: nat) returns (j: nat)
    requires n <= |txs| && (n < |txs| ==> k < |LogBytes(txs[..n + 1])|)
    ensures Whole(txs, k, j)
  {
    if |LogBytes(txs[..n])| <= k {
      j := n;
    } else {
      assert LogBytes(txs[..0]) == [];
      j := SomeWhole(txs, k, n - 1);
    }
  }

  /** Transactions whose records are within the first `k` bytes are among the whole ones. */
  lemma WholeAtLeastBy(record: seq<Op> -> seq<byte>, txs: seq<seq<Op>>, front: seq<seq<Op>>, k: nat, j: nat)
    requires WholeBy(record, txs, k, j) && front <= txs && |Flat(record, front)| <= k
    ensures |front| <= j
  {
    if j < |front| {
      assert txs[..j + 1] + txs[j + 1..|front|] == front;
      FlatAppend(record, txs[..j + 1], txs[j + 1..|front|]);
    }
  }

  lemma WholeAtLeast(txs: seq<seq<Op>>, front: seq<seq<Op>>, k: nat, j: nat)
    requires Whole(txs, k, j) && front <= txs && |LogBytes(front)| <= k
    ensures |front| <= j
  {
    WholeAtLeastBy(RecordBytes, txs, front, k, j);
  }

  /** The first `j` transactions, at least `least` of them, are recovered. */
  ghost predicate Recovers(schema: Schema, db: Db, txs: seq<seq<Op>>, loaded: Db, least: nat, j: nat) {
    least <= j <= |txs| && loaded == ApplyTxs(schema, db, txs[..j])
  }

  /** A state in which a synchronous job was just done. */
  predicate JustSynced(s: State) {
    s.service.Pausing? && Syncs(At(s, s.service.job).kind)
  }

  /** What is in the file: a part of the log of all transactions sent, and after a synchronous
      job the whole log. */
  lemma FileIsLog(run: seq<State>, i: nat, txs: seq<Option<seq<Op>>>)
    requires Run(run) && i < |run| && Records(run[i].sent, txs)
    ensures run[i].stream.file <= LogBytes(Committed(txs))
    ensures JustSynced(run[i]) ==> run[i].stream.file == LogBytes(Committed(txs))
  {
    Fifo(run, i);
    TextsAreLog(run[i].sent, txs);
    if JustSynced(run[i]) {
      SyncIsDurable(run, i);
    }
  }

  /** What was sent by state `m` is the front of what is sent by state `i`. */
  lemma SentBefore(run: seq<State>, m: nat, i: nat, txs: seq<Option<seq<Op>>>)
    requires Run(run) && m <= i < |run| && Records(run[i].sent, txs)
    ensures |run[m].sent| <= |txs| && Records(run[m].sent, txs[..|run[m].sent|])
  {
    SentGrows(run, m, i);
  }

  /** The number of transactions that must survive when the first `k` bytes do. */
  function Secured(s: State, txs: seq<Option<seq<Op>>>): nat
    requires |s.sent| <= |txs|
  {
    if JustSynced(s) then |Committed(txs[..|s.sent|])| else 0
  }

  lemma SecuredSurvive(run: seq<State>, m: nat, i: nat, k: nat, txs: seq<Option<seq<Op>>>, j: nat)
    requires Run(run) && m <= i < |run| && Records(run[i].sent, txs)
    requires |run[m].stream.file| <= k && Whole(Committed(txs), k, j)
    ensures |run[m].sent| <= |txs| && Secured(run[m], txs) <= j
  {
    SentBefore(run, m, i, txs);
    var n := |run[m].sent|;
    if JustSynced(run[m]) {
      FileIsLog(run, m, txs[..n]);
      CommittedPrefix(txs, n);
      WholeAtLeast(Committed(txs), Committed(txs[..n]), k, j);
    }
  }

  /** Durability.  The machine fails in state `i`, and of the bytes sent to the file only the
      first `k` survive, not less than were there in the earlier state `m`.  Then loading the
      file recovers the node operations of a prefix of the committed transactions, in the
      order of the queue; and if in state `m` a synchronous job was just done, the prefix
      includes its own transaction and all queued before it. */
  lemma CrashRecovers(run: seq<State>, m: nat, i: nat, k: nat, schema: Schema, db: Db, txs: seq<Option<seq<Op>>>)
    requires Run(run) && m <= i < |run| && |run[m].stream.file| <= k <= |run[i].stream.file|
    requires Records(run[i].sent, txs) && NoneEmpty(Committed(txs))
    requires !db.dumpOn && Sound(schema, db, Committed(txs))
    ensures |run[m].sent| <= |txs|
    ensures
      var file := Marker(DUMP_BEGIN) + (Marker(DUMP_END) + run[i].stream.file[..k]);
      exists j :: Recovers(schema, db, Committed(txs), LoadFile(schema, true, db, file).0, Secured(run[m], txs), j)
  {
    var log := Committed(txs);
    FileIsLog(run, i, txs);
    SentBefore(run, m, i, txs);
    assert log[..|log|] == log && run[i].stream.file[..k] == LogBytes(log)[..k];
    var j := SomeWhole(log, k, |log|);
    SecuredSurvive(run, m, i, k, txs, j);
    CrashPrefix(schema, db, log, k, j);
    var file := Marker(DUMP_BEGIN) + (Marker(DUMP_END) + run[i].stream.file[..k]);
    assert Recovers(schema, db, log, LoadFile(schema, true, db, file).0, Secured(run[m], txs), j);
  }
}
