/** New ids are new.

    Loading leaves a counter that no id is above.  A creation adds one to it and takes the sum,
    in one atomic step, so that no two creations take the same. */
module FreshIds {
  import opened StmModel
  import opened StmRecords
  import opened Births
  import DataRecords
  import Counters
  import Recovery
  import StorageFormat

  ghost predicate Creates(step: Step) {
    step.Annotate? && step.note.NodeAlloc?
  }

  /** The ids of creations come from a counter that starts at `counter`; the handles may note them
      in another order than they took them in. */
  ghost predicate Counting(steps: seq<Step>, counter: nat) {
    && (forall k :: 0 <= k < |steps| && Creates(steps[k]) ==> steps[k].note.id > counter)
    && forall j, k :: 0 <= j < k < |steps| && Creates(steps[j]) && Creates(steps[k]) ==> steps[j].note.id != steps[k].note.id
  }

  /** The nodes of a process that was started on a database have the ids of that database. */
  ghost predicate StartsOn(r: RState, db: DataRecords.Db) {
    forall o: nat :: Cell(r.birth, o) == 0 || (Cell(r.birth, o) > 0 && Cell(r.birth, o) as nat in db.nodes)
  }

  /** Ids in use come from the start or from a step before `n`. */
  ghost predicate Known(run: seq<RState>, steps: seq<Step>, counter: nat, n: nat) {
    && n < |run| && n <= |steps|
    && forall o: nat :: Cell(run[n].birth, o) <= counter || Given(steps, n, Cell(run[n].birth, o))
  }

  ghost predicate Given(steps: seq<Step>, n: nat, id: int) {
    exists k :: 0 <= k < n && k < |steps| && Creates(steps[k]) && steps[k].note.id == id
  }

  lemma BirthNext(r: RState, step: Step, r': RState)
    requires RNext(r, step, r')
    ensures r'.birth == if Creates(step) then r.birth[step.obj := step.note.id] else r.birth
  {
    BirthMoves(r, step, r');
  }

  lemma GivenMore(steps: seq<Step>, n: nat, id: int)
    requires n < |steps|
    ensures Given(steps, n, id) ==> Given(steps, n + 1, id)
    ensures Creates(steps[n]) ==> Given(steps, n + 1, steps[n].note.id)
  {
  }

  lemma KnownNext(run: seq<RState>, steps: seq<Step>, counter: nat, n: nat, m: nat)
    requires |run| == |steps| + 1 && n < |steps| && m == n + 1 && Known(run, steps, counter, n)
    requires run[m].birth == if Creates(steps[n]) then run[n].birth[steps[n].obj := steps[n].note.id] else run[n].birth
    ensures Known(run, steps, counter, m)
  {
    forall o: nat ensures Cell(run[m].birth, o) <= counter || Given(steps, m, Cell(run[m].birth, o)) {
      GivenMore(steps, n, Cell(run[n].birth, o));
      GivenMore(steps, n, Cell(run[m].birth, o));
    }
  }

  lemma StepBirth(run: seq<RState>, steps: seq<Step>, n: nat, m: nat)
    requires RRun(run, steps) && n < |steps| && m == n + 1
    ensures m < |run|
    ensures run[m].birth == if Creates(steps[n]) then run[n].birth[steps[n].obj := steps[n].note.id] else run[n].birth
  {
    assert RStepAt(run, steps, n);
    BirthNext(run[n], steps[n], run[m]);
  }

  lemma KnownStep(run: seq<RState>, steps: seq<Step>, counter: nat, n: nat, m: nat)
    requires RRun(run, steps) && n < |steps| && m == n + 1 && Known(run, steps, counter, n)
    ensures Known(run, steps, counter, m)
  {
    StepBirth(run, steps, n, m);
    KnownNext(run, steps, counter, n, m);
  }

  lemma RunKnown(run: seq<RState>, steps: seq<Step>, counter: nat, n: nat)
    requires RRun(run, steps) && n < |run| && forall o: nat :: Cell(run[0].birth, o) <= counter
    ensures Known(run, steps, counter, n)
  {
    forall i: nat | i < n && Known(run, steps, counter, i) ensures Known(run, steps, counter, i + 1) {
      KnownStep(run, steps, counter, i, i + 1);
    }
    Inductive((i: nat) => Known(run, steps, counter, i), n);
  }

  lemma KnownIsFresh(run: seq<RState>, steps: seq<Step>, counter: nat, n: nat)
    requires Counting(steps, counter) && n < |steps| && Known(run, steps, counter, n)
    ensures FreshId(run[n], steps[n])
  {
    if Creates(steps[n]) {
      forall o: nat ensures Cell(run[n].birth, o) != steps[n].note.id {
        if Given(steps, n, Cell(run[n].birth, o)) {
          var k :| 0 <= k < n && k < |steps| && Creates(steps[k]) && steps[k].note.id == Cell(run[n].birth, o);
        }
      }
    }
  }

  /** A process started on what a file left, whatever its bytes, never gives a node an id that a
      node of the database or of the run has or had. */
  lemma LoadedIdsAreFresh(run: seq<RState>, steps: seq<Step>, n: nat, schema: DataRecords.Schema, first: bool,
      before: DataRecords.Db, file: seq<StorageFormat.byte>)
    requires RRun(run, steps) && n < |steps| && Counters.Counted(before)
    requires var db := Recovery.LoadFile(schema, first, before, file).0; StartsOn(run[0], db) && Counting(steps, db.counter)
    ensures FreshId(run[n], steps[n])
  {
    var db := Recovery.LoadFile(schema, first, before, file).0;
    Counters.FileRises(schema, first, before, file);
    RunKnown(run, steps, db.counter, n);
    KnownIsFresh(run, steps, db.counter, n);
  }

  /** In a process started on nothing the same makes the run one of a new database. */
  lemma CountingIsNew(run: seq<RState>, steps: seq<Step>)
    requires RRun(run, steps) && Counting(steps, 1) && forall o: nat :: Cell(run[0].birth, o) == 0
    ensures NewDatabase(run, steps)
  {
    forall i | 0 <= i < |steps| ensures FreshAt(run, steps, i) {
      RunKnown(run, steps, 1, i);
      KnownIsFresh(run, steps, 1, i);
    }
  }
}
