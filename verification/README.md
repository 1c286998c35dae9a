# HybridDatabase, modelled and proved

HybridDatabase is an in-memory object store.  Transactions of many threads work on shared
nodes through a software transactional memory; a service thread appends the committed changes
to a file, dumps the whole database into a new file now and then, and frees what was deleted.
This project models the default configuration of `database.types/enums.h`: in-place locks,
`SIMPLE_SERVICE_THREAD`, `FAST_COMMIT` and `DB_DEFER_DEALLOC`.

`dafny verify dfyconfig.toml` checks everything.

## The parts

**Transactions** (`Stm*.dfy`).  An interleaved step system: any number of handles, the service
thread and the dumping thread.  One step is one access to shared state.  A checked read is a
load and a later check, so dirty loads happen and are shown to be rejected.  A commit takes its
end time, queues its slot, validates one lock per step, and releases one lock per step; a
failed validation rolls back one log item per step, with the slot still in the queue.  `hist`
records the clock increments.  `Serializable`, `ConsistentSnapshot`, `RealTimeOrder` and
`QueueIsSerial` hold in every state of every run.  The invariant behind them
(`StmInvariant.Inv`) is about what history, locks, read sets and logs say of each other while
commits are undecided.  `Serializable` also says that an object the dumping thread holds has
committed values only, which is what a dump record shows.  `Bodies.dfy` says what the records
hold in terms of the steps taken.  `Progress.dfy` and `Endings.dfy` are about success: why a
transaction fails, that one can always be brought to its end, and that the queue goes on.
`StmRecords.dfy` adds node ids and
string blocks, and shows that records built after the locks are released are still right:
a later deleter's garbage is behind this job in the queue.

**Locks** (`LockWords.dfy`).  The 64-bit lock word, its compare-and-swap loops under
interference from other threads, and the step system's decoded lock.

**Nested rollback** (`FastStacks.dfy`, `Rollback.dfy`, `Redo.dfy`).  The log is a stack of pages whose
elements never move; bookmarks are addresses into it.  `Do` says what the operations of a
handle mean, the class does it by comparing addresses, and the theorems are about any
well-bracketed sequence of operations: what an abort restores, and what a commit leaves.

**Queue, buffer and file** (`ServiceQueue.dfy`, `Jobs.dfy`, `Buffering.dfy`, `Durability.dfy`).  The linked
list of jobs with its head and tail cells, the counting semaphore and the `ready` semaphores,
step by step, with freed memory that reads as garbage.  `CrashRecovers` joins the queue to
recovery.  `Waits.dfy` is about the semaphores of the handles and what their waits guarantee.

**From commit to recovery** (`Births.dfy`, `Images.dfy`, `EndToEnd.dfy`).  `CommitsSurvive` joins
the step system, the records built behind it, the queue, the file and loading: what a crash
leaves is the memory of a serial execution of a front of the queue.

**Recovery** (`DataRecords.dfy`, `Recovery.dfy`, `Accepting.dfy`, `Rejections.dfy`, `Loader.dfy`).
What `load_file` does with any bytes, as functions; exactly which bytes it accepts; what a
rejected record leaves; the class `Database` does it with the Reader.

**All files** (`LaterFiles.dfy`, `Generations.dfy`, `Reopening.dfy`, `DataFiles.dfy`, `Counters.dfy`,
`FreshIds.dfy`).  Files behind the first one, footers and the magic numbers that chain them, where
records go after a restart, and the id counter.

**Fuzzy dump** (`FuzzyDump.dfy`, `StrayNodes.dfy`, `Dumping.dfy`, `DumpFiles.dfy`).  A step system in which
commits, records and dump records interleave, and the bytes it leaves.  The dump walks the slab,
so loading also says which slab nodes it leaves behind.  `Dumping.dfy` shows that what the dump
reads under a lock in the step system is a step of this one.

**Storage** (`StorageFormat.dfy`, `RawStrings.dfy`, `Roots.dfy`, `Writers.dfy`, `Readers.dfy`,
`StorageLaws.dfy`, `Gf2.dfy`, `CrcTable.dfy`, `Checksum.dfy`, `Rescuers.dfy`, `Folds.dfy`).
Codes, tokens, arrays, root elements with header and CRC, the classes that write and read them,
and the rescuer.

**Structures** (`NodeAllocators.dfy`, `NumDictionaries.dfy`, `Reclamation.dfy`, `Reuse.dfy`,
`SharedLists.dfy`).

## Where the code differs from its intent

* Memory may be returned too early.  `generic_allocator_collect_garbage` reads the least start
  time and takes the list of freed blocks later.  A block that is freed in between, after the
  scan has passed a handle that then began, can be returned while that handle still runs.
  Aborting handles free blocks at any time and may start a collection themselves.
  `Reclamation.RaceIsUnsafe` is such a run; `Reclamation.UnsafeIff` gives the exact condition for
  each block and each return, and `Reclamation.PushedBetweenSafe` a condition on the moment at
  which the block is freed.
* A dump record for a node that an earlier record created is rejected (`database.include/read.c:111`),
  and with it the file.  `StrayNodes.CreationFirstFails` is a run of the dump, from an empty
  database, that ends in such a file; `FuzzyDump.LoadableIff` says when that happens.
* A creation record for a node that was dumped before it is accepted, but its slab node, with the
  id already in it, is not taken back (`database.include/read.c:100-122`).  The next dump walks
  over it and writes a second record for the node, which makes the file unloadable, or revives a
  node deleted since.  `StrayNodes.SecondDumpFails` shows two such generations.  A file is loadable exactly as
  `StrayNodes.LoadableExactly` says; every complete dump of a process suffices exactly when
  loading left no such node (`StrayNodes.SufficesIff`), and `StrayNodes.StraysIff` says which new
  files leave none.
* `read_string` subtracts 16 from the length code and adds the result to a pointer, both modulo
  2^64 (`storage/storage.include/inline.h:41-69`).  Some corrupt codes pass the comparison with
  the end.  `RawStrings.RawIff` says exactly which; `RawStrings.ShortCodeStrays` and
  `RawStrings.LongCodeStrays` are two of them.  The Reader carries a flag for that; loading and
  rescuing say of which files it can be set, and files that were written are not among them.
* A transaction without a node operation is written as an empty array, which `load_file`
  rejects.  `Recovery.LoadedIff` says that this is the only reason a sound log is rejected.
* When the last data file was closed, `load_data` creates the next one and then opens the closed one
  for appending all the same: the `else` at `database.include/database_create.c:289` belongs to
  `if (!files_count)`.  Records are written behind the footer, where nothing is read.
  `Reopening.ClosedLosesOne` is a transaction that is lost; `Reopening.ReloadedIff` says exactly when
  what is written after a start is there at the next one.
* A transaction is applied before its CRC is checked (`database.include/database_create.c:343-375`).
  `Rejections.WrongCrcApplies` is a file in which a record with one wrong byte in its CRC changes a
  node.  `Rejections.RejectedIsApplied` says exactly what is recovered when the ends of records
  are wrong: the accepted records in front and the first rejected one, too;
  `Rejections.PrefixIff` says when that is the prefix all the same; and
  `Rejections.WholeOperations` that any bytes leave what some whole operations leave.
* A commit that fails validation is still in the queue, and the service thread posts its
  handle's semaphore (`database.include/transaction.c:169-177`, `database.include/threads.c:246`).
  A later synchronous commit of that handle can return before its record is in the file, and the
  handle can be destroyed while a job that will post it is in the queue.
  `Waits.SyncReturnIff` says exactly when a return is early; `Waits.SyncSafeIff` and
  `Waits.DestroySafeIff` say that a handle is safe from that if and only if no attempt of it has
  failed.
* `destroy_pointers` changes Pointer attributes without logging them; deleting nodes that have
  such attributes is not part of the rollback theorems.

## Model

| member | source | states |
|---|---|---|
| StmTheorems.Serializable | database.include/transaction.c:132-222 | in every state of every interleaving, replaying the committed transactions one after the other in end-time order gives each one the values its surviving read set saw, gives read-only commits the values of their start time, and ends in the memory of all unlocked objects, although validation is lock by lock and follows the clock increment |
| StmTheorems.ConsistentSnapshot | database.include/macros.h:101-110 | every checked read of a running transaction, doomed or not, returned its own write or the value of the last commit with an end time at most its start time; never a dirty or rolled-back value |
| StmTheorems.QueueFollowsTime | database.include/transaction.c:163-177 | two committed transactions that conflict on an object are queued in the order of their end times, although increment and push are separate steps |
| StmTheorems.QueuedBefore | database.include/transaction.c:120-129 | an earlier conflicting commit is in the queue before the later one |
| StmTheorems.QueueIsSerial | database.include/threads.c:227-248 | executing the queue in its own order is a serialization too: every prefix of the queue is closed under dependencies and reaches a serial state, and the whole queue reaches the same memory as end-time order |
| StmTheorems.RealTimeOrder | database.include/inline.h:55-73 | a transaction begun after some moment is serialized after every clock increment of before that moment (strictness) |
| StmTheorems.VersionRises | database.include/transaction.c:7-17 | lock versions never fall over any step; a transaction's release raises the version strictly, the dumping thread's release restores it |
| StmTheorems.LockDiscipline | utils/utils.h:26-37 | a free lock holds an odd version at most the clock; a held one is in exactly one handle's list of acquired locks, once; otherwise the dumping thread has it |
| StmSteps.StepKept | database.include/transaction.c:132-222 | the invariant behind these theorems is inductive over every step of every handle, of the service thread and of the dumping thread |
| StmSteps.LoadedValue | database.include/macros.h:160-169 | a value just loaded is the snapshot value, or its object already carries a version or owner that makes every later check fail, or it comes from a commit still pending, whose lock makes the check fail |
| StmSteps.CheckedRead | database.include/macros.h:160-169 | when the check then passes, the loaded value is the snapshot's |
| Progress.RejectedFor | database.include/inline.h:101-116 | an attempt is rejected only when, in that state, an object it read is held by somebody else or the dump, or was released by someone since its transaction began; its own locks never reject it |
| Progress.CheckFailsFor | database.include/macros.h:160-169 | a read fails its check only for such a reason |
| Progress.LockFailsFor | utils/lock.h:74-86 | so does a lock attempt |
| Progress.AloneNothingFails | database.include/transaction.c:132-222 | in a run in which one handle takes all steps, beside the service thread, nothing ever fails: no check, no lock, no validation |
| Progress.CanStep | database.include/transaction.c:132-222 | in every reachable state every handle that runs a transaction can take a step |
| Progress.CommitAlone | database.include/transaction.c:132-222 | a main transaction whose reads pass the test commits by steps of its own: its record is committed and queued, its memory stays, its locks get its end time |
| Progress.ReadWriteCommit | database.include/transaction.c:132-222 | from every reachable state an idle handle can read a word of a free object, write it and commit, whatever other handles are at |
| Endings.AbortAlone | database.include/transaction.c:107-117 | a transaction that runs or has failed can be aborted by steps of its own: what it wrote is as the commits so far left it, its locks get the new time, the handle is idle |
| Endings.NestedAbortAlone | database.include/inline.h:75-81 | a nested transaction can be aborted by steps of its own: reads, log and bookmarks are those of its begin, and what the handle holds is as the log left it then |
| Endings.QueueGoesOn | database.include/threads.c:227-248 | the first job not processed is ready, or the handle that is committing it can go on |
| Bodies.RecordIsBody | database.include/transaction.c:132-222 | every committed or read-only record says what its handle did since its begin, all of it and in order: each read with the value in memory at that step, each value written, each note, but for those inside an aborted nested transaction |
| Bodies.CommitRecords | database.include/inline.h:83-99 | and every commit step appends such a record, which later steps change only in its status |
| StmRecords.RecordsAreRight | database.include/threads.c:14-61 | whenever a transaction builds its record after releasing its locks, every id and every text it reads is the one the transaction left, however many later deleters ran |
| StmRecords.HeadHarmless | database.include/threads.c:232-239 | the job the service thread is about to process frees nothing that an unfinished commit still reads, because that commit's job is behind it or not ready |
| StmRecords.HeadAhead | database.include/threads.c:227-248 | the processed job has an end time below every unfinished commit it conflicts with |
| StmRecords.RStepKept | database.include/transaction.c:206-214 | the invariant of ids and blocks is inductive over every step |
| LockWords.TestIsPasses | utils/lock.h:100-106 | the test on the raw 64-bit word is the test of the step system, for a handle's address and for the dumping thread's null owner |
| LockWords.OutcomeSound | utils/lock.h:51-63 | under any interference between read and compare-and-swap, an attempt takes the lock only from a word that passed the test, and otherwise leaves another thread's word in place |
| LockWords.Lock.Take | utils/lock.h:74-86 | the retry loop computes exactly that outcome, and tells from which word it took the lock |
| LockWords.Lock.Unlock | utils/lock.h:89-91 | only the owner's word is replaced |
| LockWords.Lock.Check | utils/lock.h:100-106 | the check passes exactly for versions up to the given one and for the owner |
| LockWords.Owner.UtilLock | utils/utils.h:26-37 | a lock taken anew is listed once, a lock already held is not listed again, a refused one not at all |
| LockWords.Owner.UnlockAll | database.include/transaction.c:7-17 | every listed lock gets the new version and the list is empty |
| Rollback.NestedAbortRestores | database.include/inline.h:75-81 | after any well-bracketed operations, including inner commits, the abort of a nested transaction restores memory, ids, blocks, read set, log, bookmarks and commit type of its begin; locks stay |
| Rollback.MainAbortRestores | database.include/transaction.c:107-117 | an aborted main transaction, or one whose commit fails validation, leaves the world as it found it and the handle clean; a valid commit keeps the world |
| Redo.CommitLeaves | database.include/macros.h:81-92 | after a valid main commit each cell has the value of the last write to it that is not inside an aborted nested transaction, or what a surviving creation gave it, and its old value otherwise; redoing the log on the old world gives the new one |
| Redo.BodyLeaves | database.include/macros.h:81-92 | before the commit the world, the log, the read set and the commit type are those of the surviving operations |
| Redo.CommitAsks | database.include/inline.h:83-99 | a main commit is synchronous exactly as the last request among the surviving inner commits and its own says |
| Rollback.UndoUndoes | database.include/transaction.c:57-79 | undoing a log item right after its operation gives the world before it, for every kind of item |
| Rollback.UndoStages | database.include/transaction.c:86-104 | rolling back to an inner and then to an outer bookmark is rolling back to the outer one |
| Rollback.Handle.Begin | database.include/inline.h:55-73 | sets the start time, or pushes a bookmark that is the address of the newest log item |
| Rollback.Handle.Abort | database.include/inline.h:75-81 | rolls back to the innermost bookmark by comparing addresses, with the effect of counting items |
| Rollback.Handle.Commit | database.include/inline.h:83-99 | an inner commit forgets its bookmark and passes on its commit type; a main commit with a log succeeds exactly when validation does, and tells whether it is synchronous |
| Rollback.Handle.Rollback | database.include/transaction.c:86-104 | pops and undoes items until the top has the bookmarked address; the new state is that of rolling back to the bookmarked sizes |
| Rollback.Handle.UndoUntil | database.include/transaction.c:93-102 | the loop stops at the bookmarked item and nowhere else, because live items have different addresses |
| Rollback.Handle.AbortMain | database.include/transaction.c:107-117 | everything is undone and the handle is clean |
| Rollback.Handle.Cleanup | database.include/transaction.c:38-54 | the handle is idle and the world unchanged |
| Rollback.Handle.Write | database.include/macros.h:81-92 | the old value is logged and the new one stored, and no bookmark loses its item |
| Rollback.Handle.Create | database.include/node.c:38-54 | a created node is logged so that undoing removes it |
| Rollback.Handle.Delete | database.include/node.c:64-82 | a deletion only logs |
| Rollback.Handle.Alloc | database.include/inline.h:18-27 | an allocated block is logged |
| Rollback.Handle.Free | database.include/inline.h:29-36 | freeing a block only logs |
| FastStacks.FastStack.Push | utils/fast_stack.h:108-116 | appends an element, and the addresses of all older elements stay |
| FastStacks.FastStack.Top | utils/fast_stack.h:119-123 | the address of the newest element, which holds it |
| FastStacks.FastStack.Size | utils/fast_stack.h:88-96 | the number of elements from block count and pointer, also for the empty stack that kept a page |
| FastStacks.FastStack.Pop | utils/fast_stack.h:126-132 | removes the newest element; the others keep value and address |
| FastStacks.FastStack.Erase | utils/fast_stack.h:98-104 | removes every element, page by page |
| FastStacks.FastStack.ForEach | utils/fast_stack.h:165-171 | visits the elements from the oldest to the newest, across pages |
| FastStacks.FastStack.Distinct | utils/fast_stack.h:185-197 | live elements have different addresses, which is what bookmarks need |
| FastStacks.FastStack.Expand | utils/fast_stack.h:185-197 | a page more; the first page is reused when the stack was emptied |
| FastStacks.FastStack.Shrink | utils/fast_stack.h:199-210 | a page less, but the last page is kept for reuse |
| ServiceQueue.Fifo | database.include/threads.c:227-268 | in every interleaving of producers and service thread the jobs are processed once each, in queue order, each with the record its producer left in it, and the file followed by the buffer is exactly the processed records |
| ServiceQueue.NothingDangles | database.include/transaction.c:120-129 | `tail` never points into a freed job while the service thread lives, and neither producers nor the service thread touch a freed job |
| ServiceQueue.ClosedAfterAll | database.include/threads.c:271-285 | the service thread stops only on the close signal, after every job is processed and freed and every record is in the file |
| ServiceQueue.NoJobOverlooked | database.include/threads.c:258-267 | a service thread waiting on the counter with no push under way has processed every job |
| ServiceQueue.SyncIsDurable | database.include/threads.c:245-252 | when a synchronous job is done, its record and all before it are in the file |
| ServiceQueue.SentGrows | database.include/threads.c:227-268 | processed records and file contents are never taken back |
| Jobs.StreamIsTold | database.include/threads.c:227-268 | told from the steps of the producers alone: file and buffer hold what they filled in, in the order in which they linked their jobs, up to the job processed last |
| Jobs.SyncedStays | database.include/threads.c:245-252 | once a job that was prepared as synchronous is processed, what its producer filled in and all records before it are in the file, and stay there |
| Jobs.NeverStuck | database.include/transaction.c:120-129 | a producer at work, or the service thread, can always go on, unless all jobs are processed; no job waits for a `ready` that nobody will post |
| ServiceQueue.StepKept | database.include/transaction.c:120-129 | the invariant of list, counter and `ready` semaphores is inductive over every step |
| Waits.SyncReturnIff | database.include/transaction.c:143-221 | the wait of a synchronous commit ends after its own job if and only if the semaphore holds one more than the failed attempts of its handle; then the record and all before it are in the file |
| Waits.SyncSafeIff | database.include/transaction.c:154-221 | from any reachable state, no later synchronous commit of an idle handle returns too early, as long as no further attempt fails, if and only if none of its synchronous attempts has failed so far |
| Waits.IdleDoneIff | database.include/threads.c:233-252 | all jobs of an idle handle are processed if and only if its semaphores hold one more than at the start for each failed attempt |
| Waits.DestroySafeIff | database.include/handle.c:57-89 | an idle handle cannot be destroyed while one of its jobs is unprocessed, as long as no further attempt fails, if and only if no attempt has failed so far |
| Waits.DurableIs | database.include/threads.c:227-268 | while the write buffer does not fill, what is durable ends with the last processed job that waits for the file; an asynchronous commit behind it can be lost |
| Waits.StepKept | database.include/transaction.c:154-221 | the invariant of queue and semaphores is inductive over every step |
| Buffering.WrittenKeeps | database.include/threads.c:89-106 | no byte is lost, repeated or reordered by the write buffer, which keeps to its size |
| Buffering.Output.BufferedWrite | database.include/threads.c:89-106 | the Writer used as a buffer and the descriptor do this, over all three branches |
| Buffering.Output.BufferedSync | database.include/threads.c:109-116 | everything buffered is in the file and the buffer is empty |
| Durability.CrashRecovers | database.include/database_create.c:323-402 | if the machine fails in any state of the queue and any part of the file behind the last sync is lost, loading the file recovers a prefix of the committed transactions in queue order, which includes every transaction up to a synchronous commit that was done |
| EndToEnd.CommitsSurvive | database.include/database_create.c:323-402 | the same from the transactions themselves: the recovered nodes are those that a front of the output queue made and did not delete, and each attribute has the value that executing the committed transactions of that front one after the other leaves in memory, each of which read what it would have read in that execution |
| EndToEnd.QueueLoaded | database.include/threads.c:14-61 | loading the records of any front of the queue gives the nodes and values of that serial execution |
| EndToEnd.BuiltIsMeant | database.include/threads.c:14-61 | a record built after the locks were released says what the transaction left, also when read much later |
| Births.CStepKept | database.include/node.c:38-54 | every step keeps the creation of a node in front of everything the history says about it, and ids different |
| Images.Image | database.include/read.c:133-188 | what operations leave of a node whose creation is the first of them: it is there when created and not deleted, each attribute with the last value set |
| Images.ContentImage | allocators/node_allocator.include.c:82-122 | the content, which a dump can still show, outlives the deletion with the last values |
| Durability.FileIsLog | database.include/threads.c:227-268 | what is in the file is a front part of the log of committed transactions, and all of it after a synchronous job |
| DataRecords.TransactionRead | database.include/database_create.c:343-375 | loading the record of a transaction applies its operations in order; it is accepted exactly when it holds one |
| DataRecords.TransactionApplied | database.include/database_create.c:343-375 | with any bytes behind its body, the operations of a transaction are applied; it is accepted exactly when it holds one and a dot and the right CRC follow |
| Rejections.RejectedIsApplied | database.include/database_create.c:337-396 | a log of transactions with any ends loads all of them up to the first that is not accepted, and that one, too |
| Rejections.PrefixIff | database.include/database_create.c:337-396 | the accepted records are all that is recovered if and only if the operations of the first rejected one change nothing there |
| Rejections.WrongCrcApplies | database.include/database_create.c:343-375 | a file whose second record has a wrong CRC is called corrupted, and has set an attribute |
| Rejections.WholeOperations | database.include/read.c:133-188 | whatever the bytes of a transaction's record, loading it leaves what some operations leave, none of them in part |
| Accepting.AcceptedIff | database.include/database_create.c:337-396 | any bytes are loaded without being called corrupted if and only if they are root elements that say something that fits where it stands (markers in turn, new nodes between them, operations that fit), and end there or with a footer; the result is the effect of what they say |
| Accepting.FirstAcceptedIff | database.include/database_create.c:323-402 | and of a first file, if and only if it begins with a dump besides |
| Accepting.OperationsIff | database.include/read.c:133-188 | the operations of a record are accepted if and only if the bytes are operations that fit the database, a missing node's change with anything behind it |
| DataRecords.OpRead | database.include/read.c:133-188 | each operation is read back as written, also a change to a missing node, which is skipped |
| DataRecords.OpsRead | database.include/database_create.c:347-361 | the loop over a record applies its operations in order |
| Recovery.CrashPrefix | database.include/database_create.c:323-402 | a file with an empty dump and transactions that each hold a node operation, cut at any byte, recovers exactly the longest prefix of whole transactions, and counts as unfinished only at a record's end |
| Recovery.NoneRejectedCut | database.include/database_create.c:337-396 | loading a cut log rejects no record in the middle, so no read of it strays |
| Recovery.LoadCut | database.include/database_create.c:337-396 | the same for any log, with transactions that hold no operation: loading stops at the first of them |
| Recovery.LoadedIff | database.include/database_create.c:364-369 | a log is loaded to its end if and only if no transaction is without a node operation |
| Recovery.EmptyDump | database.include/write.c:70-80 | the two dump markers of a new file are accepted and change nothing |
| LaterFiles.FooterCloses | database.include/read.c:69-80 | a footer closes the file with its magic number, and what is behind it is not read |
| LaterFiles.ClosedFileLoads | database.include/write.c:61-67 | a later file that was closed loads as its transactions, and as closed |
| LaterFiles.ClosedLogLoads | database.include/write.c:61-67 | a new database's log that was closed loads as its transactions, and as closed |
| Generations.HeaderIsRead | database.include/read.c:52-67 | a file header is read back with its magic number |
| Generations.MagicIff | database.include/database_create.c:323-329 | a file is loaded only with the magic number that the file before it ended with, unless that is 0 |
| Generations.OldFilesRemovable | database.include/database_create.c:239-274 | what a dump is for: when the older files are closed, the dump of a process loaded from them without strays is finished, with no creation in front of a dump record, and more transactions followed, all files together and the new file alone load with the same nodes, and both can be appended to |
| Reopening.ReloadedIff | database.include/database_create.c:277-297 | transactions written after a start are there at the next one if and only if there was no file, or the last one was not closed, or they change nothing |
| Reopening.ClosedLoses | database.include/database_create.c:277-297 | when the last file was closed, everything written to the database until the next start is lost |
| Reopening.ClosedLosesOne | database.include/database_create.c:277-297 | a new database, closed and opened again, in which a node is created that the next start does not find |
| Reopening.AppendedLoads | database.include/database_create.c:277-297 | an unfinished last file goes on with what is appended |
| DataFiles.Directory.LoadData | database.include/database_create.c:239-297 | the method with the Reader computes that: the loop over the files, the new file, and which file is open afterwards |
| DataFiles.Directory.ReadHeader | database.include/read.c:52-67 | reads the header: title, name and version of the database, and the magic number |
| Counters.FileRises | database.include/read.c:100-122 | whatever the bytes of a file, first or later: after loading no node has an id above the counter, if none had before, and the counter has not fallen |
| Counters.NewCounter | database.include/read.c:100-122 | loading a new file alone leaves the counter at the greatest id of its creations and dump records |
| Counters.AfterCounter | database.include/read.c:100-122 | behind older files the counter is the greatest of what it was and the ids of its creations |
| FreshIds.LoadedIdsAreFresh | database.include/node.c:44-45 | a process started on what a file left gives no node an id that a node of the database or of the run has or had |
| FreshIds.CountingIsNew | database.include/node.c:44-45 | so does one started on nothing |
| Loader.Database.LoadFile | database.include/database_create.c:323-402 | the method with the Reader computes that function, error paths included, except when `read_string` leaves the buffer behind a wrapped sum, which the result then tells and `LoadMayStray` says for which files |
| Loader.Database.LoadRoots | database.include/database_create.c:337-396 | the loop over root elements |
| Loader.Database.LoadArrayRoot | database.include/database_create.c:338-375 | a transaction or dump record, with the changes made before its end is checked |
| Loader.Database.LoadString | database.include/database_create.c:377-393 | dump markers switch, the footer ends the file, anything else is corrupted |
| Loader.Database.ReadNodeModify | database.include/read.c:168-188 | changes an attribute, or skips the value when the node is missing |
| Loader.Database.ReadNodeCreate | database.include/read.c:133-148 | creates a node; of one that exists only a slab node with its id stays behind |
| Loader.Database.ReadNodeDelete | database.include/read.c:150-166 | deletes a node, or accepts that it is missing |
| Loader.Database.ReadNodeLoad | database.include/read.c:124-131 | loads a dumped node, and fails when it exists |
| Loader.Database.ReadNodePrepare | database.include/read.c:100-122 | type and id of a node to be created or loaded; the slab node gets its id before the existence test and stays when that fails |
| FuzzyDump.DumpedNode | database.include/threads.c:123-178 | a dump record that shows more commits than the records in front of it, followed by all later records, gives what the whole history gives |
| Dumping.DumpIsEnabled | database.include/threads.c:123-157 | whenever the dump holds the lock of a node with an id, whatever is undecided in the queue then: the dump step that shows the transactions queued by then is enabled, and its record is what the dump reads from memory, as every later state sees these transactions |
| Dumping.DumpedIsMade | database.include/threads.c:131-140 | a node whose lock the dump holds was created by a committed transaction that is in the queue |
| Dumping.DStepKept | database.include/node.c:38-54 | every step keeps that ids belong to creations that were not rolled back and to nodes that were not freed, and that an open or committed transaction created them |
| FuzzyDump.LoadableIff | database.include/read.c:100-131 | when the dumping process was loaded without leaving slab nodes behind, its new file can be loaded if and only if no creation record is in front of its node's dump record |
| FuzzyDump.NewFileSuffices | database.include/database_create.c:337-396 | for such a process, once the dump is finished and every commit it shows is in the file, and no creation is in front of a dump record, loading only the new file gives the same nodes as loading all older files too |
| FuzzyDump.LoadedIsWritten | database.include/database_create.c:337-396 | and these are the nodes that the transactions committed and written in the steps so far make of the old ones |
| StrayNodes.LoadableExactly | database.include/read.c:100-131 | any file of dump records and transactions, however written, can be loaded if and only if no dump record finds its node standing: created or dumped before, and not deleted since |
| StrayNodes.CreationFirstFails | database.include/read.c:100-131 | a run from an empty database whose dump is finished, with all that it shows in the file, and whose file cannot be loaded because a creation is in front of its node's dump record |
| StrayNodes.SufficesIff | allocators/node_allocator.include.c:82-122 | whether every complete dump of a process suffices on its own is settled when the process is loaded: if and only if loading left no slab node that is not in the dictionary |
| StrayNodes.StraysIff | database.include/read.c:100-148 | loading a new file leaves no such slab node if and only if none of its dumped nodes is created by its transactions |
| StrayNodes.SecondDumpFails | database.include/read.c:100-148 | two generations: a new file that suffices and has no creation in front of a dump record is loaded, and the next dump writes a file that cannot be loaded, also with no creation in front of a dump record |
| FuzzyDump.ReplayAll | database.include/threads.c:139-157 | replaying operations on the content they led to changes nothing |
| DumpFiles.DumpRead | database.include/read.c:124-131 | a dump record is rejected exactly when its node exists, leaving the slab node behind, and adds it otherwise |
| DumpFiles.NewFileLoads | database.include/database_create.c:323-402 | loading the bytes of a new file does what `FuzzyDump` says of its records, and fails exactly when that fails |
| LaterFiles.LaterFileLoads | database.include/database_create.c:361-364 | in a file behind the first one the dump is skipped and the transactions are applied to what the older files left |
| LaterFiles.LaterDumpRead | database.include/database_create.c:359-364 | a dump record of a later file is accepted and changes nothing |
| LaterFiles.DumpOutside | database.include/database_create.c:359-361 | outside of a dump a dump record is rejected in every file |
| LaterFiles.NewBytesSuffice | database.include/database_create.c:323-402 | of bytes on both sides: the new file of a finished dump, loaded alone, gives the nodes that loading it behind the older files gives |
| StorageFormat.CodeRoundTrip | storage/storage.include/writer.c:42-60 | the leading ones of the first byte are the number of extra bytes, and decoding inverts coding for every 64-bit number |
| StorageFormat.CodeShortest | storage/storage.include/writer.c:42-60 | no fewer bytes would hold the number |
| StorageFormat.LeadCounts | storage/storage.include/inline.h:41-69 | the leading ones of any first byte say how many bytes follow, and what they decode to |
| StorageFormat.TokenRoundTrip | storage/storage.include/inline.h:109-130 | a token is read back as written, whatever follows |
| StorageFormat.ForestRoundTrip | storage/storage.include/inline.h:28-39 | tokens determine nested arrays: parsing inverts writing up to the enclosing array's end |
| StorageFormat.ForestNesting | storage/storage.include/inline.h:109-119 | the depth never goes below the enclosing array and ends where it began |
| StorageLaws.NumberRoundTrip | storage/storage.include/inline.h:71-85 | `read_number` inverts `write_number` on all of uint64 |
| StorageLaws.ForestRoundTripped | storage/storage.include/reader.c:103-155 | a forest written as one root element is read back as the same forest, with a sound end |
| Roots.RootRoundTrip | storage/storage.include/reader.c:103-128 | a root element is read back, and reading stops right behind it |
| Roots.RootCut | storage/storage.include/reader.c:103-128 | a file cut anywhere inside a root element ends or fails there |
| Roots.HeaderRoundTrip | storage/storage.include/reader.c:92-101 | the length in the header is read back for every 64-bit length |
| Roots.SkipStops | storage/storage.include/reader.c:157-179 | skipping a forest stops exactly at the end of the enclosing array |
| Roots.TakeWhole | storage/rescuer.c:16-42 | from the start of an element exactly that element is taken, whatever follows |
| Readers.Reader.Begin | storage/storage.include/reader.c:103-128 | reads the next root element of the file, or reports its end or a failure |
| Readers.Reader.Finish | storage/storage.include/reader.c:130-155 | accepts exactly a dot behind the body, with a matching CRC when one is there, or is demanded |
| Readers.Reader.SkipRest | storage/storage.include/reader.c:157-179 | moves to the enclosing array's end with the depth unchanged, and stops when a string strays |
| Readers.Reader.ReadString | storage/storage.include/inline.h:41-69 | with 64-bit subtraction and a sum that wraps: reads what `ReadText` says, by counting leading ones and gathering bytes, unless `Strays` holds, and then the pointer has left the buffer |
| RawStrings.RawIff | storage/storage.include/inline.h:41-69 | the word arithmetic reads what is meant, a string or a failure, if and only if the sum of pointer and length does not wrap to within the bound |
| RawStrings.StraysWhen | storage/storage.include/inline.h:41-69 | with the code inside the buffer that is so if and only if the code is below 16 or so large that the sum passes 2^64 |
| RawStrings.ShortCodeStrays | storage/storage.include/inline.h:41-69 | the bytes 0x80 0x05 are accepted and move the pointer back by 11 |
| RawStrings.LongCodeStrays | storage/storage.include/inline.h:41-69 | nine bytes 0xFF are accepted and move the pointer back by 17 |
| Readers.Reader.ReadNumber | storage/storage.include/inline.h:71-85 | reads a number in a string of at most eight bytes |
| Writers.CodeBytes | storage/storage.include/writer.c:42-60 | the shifting loop writes the shortest code |
| Writers.Writer.Finish | storage/storage.include/writer.c:62-83 | adds one whole root element to what is finished, with CRC and header, and starts a new one |
| Writers.Writer.GetSpace | storage/storage.include/writer.c:31-40 | the buffer grows and keeps its contents |
| Writers.Writer.WriteString | storage/storage.include/inline.h:122-130 | appends the code and the bytes of a string |
| Writers.Writer.WriteNumber | storage/storage.include/inline.h:132-137 | appends a number without leading zero bytes |
| Writers.Writer.WriteArray | storage/storage.include/inline.h:109-113 | appends an array's begin, one level deeper |
| Writers.Writer.WriteArrayEnd | storage/storage.include/inline.h:115-119 | appends an array's end, one level higher |
| Writers.Writer.DirectWrite | storage/storage.include/writer.c:116-125 | appends finished root elements |
| Checksum.CrcDivides | storage/storage.include/crc.c:6-59 | the table loop is division bit by bit |
| Checksum.RemainderDivides | storage/storage.include/crc.c:6-59 | the remainder is one: the message times x^32 plus the CRC is a multiple of the Castagnoli polynomial (section 12.1 of RFC 3720) |
| Checksum.CrcConcat | storage/storage.include/crc.c:55-57 | the CRC composes over concatenation |
| Checksum.BurstDetected | storage/storage.include/crc.c:55-57 | two messages of one length that differ only within four consecutive bytes have different codes |
| Checksum.Crc32C | storage/storage.include/crc.c:55-57 | the loop computes the CRC |
| CrcTable.TableOk | storage/storage.include/crc.c:9-53 | all 256 table entries are the remainders of their indices |
| Rescuers.RescueReproduces | storage/rescuer.c:65-94 | the rescuer reproduces a sound file byte for byte |
| StorageLaws.RescueAgain | storage/rescuer.c:65-94 | what the rescuer sends, whatever it read, is rescued again unchanged, and no read of it strays |
| StorageLaws.SentIff | storage/rescuer.c:13-63 | a root element is sent if and only if its body is one element and behind it is a dot, or the right CRC and a dot; it is sent with the same tokens and the same kind of end |
| StorageLaws.DamageStops | storage/rescuer.c:43-54 | damage within four consecutive bytes of a body with a CRC is not sent on, unless the damaged tokens end elsewhere |
| StorageLaws.DamageSeen | storage/storage.include/reader.c:130-155 | the end of a body is not sound behind a body that differs from its own within four consecutive bytes |
| Rescuers.RescueFile | storage/rescuer.c:65-94 | the main loop computes that function, and tells whether a read of a rejected element strayed and whether an assertion stopped it |
| Rescuers.NoneRejected | storage/rescuer.c:65-94 | a file that is rescued to its end has no rejected element, so no read of it strays |
| Rescuers.ProcessElement | storage/rescuer.c:13-63 | one root element is copied exactly when it parses and ends soundly; the Writer's assertion stops the program exactly at an element that begins with an array end |
| NodeAllocators.NodeAllocator.Iterate | allocators/node_allocator.include.c:82-122 | over a whole iteration with any sequence of allocations, new pages, ids, clearings of ids, frees and dump steps in it, every node that had an id at the start and did not lose it is dumped exactly once |
| NodeAllocators.NodeAllocator.DumpInit | allocators/node_allocator.include.c:82-102 | the cursor starts at the first node with an id |
| NodeAllocators.NodeAllocator.DumpNext | allocators/node_allocator.include.c:104-122 | the cursor moves to the next node with an id |
| NodeAllocators.NodeAllocator.Walk | allocators/node_allocator.include.c:63-80 | the walk over slots and blocks stops at the next node with an id, or at the end of the list |
| NodeAllocators.NodeAllocator.TakeFree | allocators/node_allocator.h:63-77 | a node is handed out that was not live, and none exactly when every block is full; full blocks stay in front of partial ones |
| NodeAllocators.NodeAllocator.Alloc | allocators/node_allocator.h:63-77 | with allocations run one at a time, a page is requested exactly when every block is full |
| NodeAllocators.NodeAllocator.AllocPage | allocators/node_allocator.include.c:29-60 | a page is cut into nodes, one of which is handed out, and joins both lists |
| NodeAllocators.NodeAllocator.ClearId | allocators/node_allocator.h:79-84 | the id becomes 0 before the mutex is taken, and the cursor may stand on such a node |
| NodeAllocators.NodeAllocator.UnlinkNode | allocators/node_allocator.h:86-101 | the cursor leaves the node, which is no longer live, and its block is dropped exactly when it was the last one |
| NodeAllocators.NodeAllocator.Free | allocators/node_allocator.h:79-101 | both, run alone |
| NodeAllocators.UsedCounts | allocators/node_allocator.h:79-101 | `used` is the number of live nodes of the block |
| NumDictionaries.NumDictionary.Insert | utils/num_dictionary.h:306-324 | the table refines a finite map: a new key is added, a present one is refused; an assertion stops the program exactly when a new key needs more than the greatest capacity |
| NumDictionaries.NumDictionary.Remove | utils/num_dictionary.h:326-352 | a key is removed, and only that |
| NumDictionaries.NumDictionary.Get | utils/num_dictionary.h:292-304 | lookups agree with the map |
| NumDictionaries.NumDictionary.Contains | utils/num_dictionary.h:106-106 | membership agrees with the map |
| NumDictionaries.NumDictionary.Resize | utils/num_dictionary.h:357-389 | all nodes move to the buckets of their hashes in the new table; the smallest table does not shrink |
| NumDictionaries.NumDictionary.MoveChain | utils/num_dictionary.h:375-384 | one chain's nodes move one by one, none lost or twice |
| NumDictionaries.NumDictionary.AllocNode | utils/num_dictionary.h:391-409 | a node comes from the free list or a freshly cut page; every carved node is in one chain or on the free list |
| NumDictionaries.NumDictionary.InBucket | utils/num_dictionary.h:267-269 | a key's node is in the bucket of its hash |
| NumDictionaries.NdictHashInRange | utils/num_dictionary.h:267-269 | the hash of the program, with its 64-bit product, is one that a table may have |
| NumDictionaries.CapacitiesGrow | utils/num_dictionary.h:197-260 | each capacity is above the last and at most twice it, which keeps the load at most one half |
| NumDictionaries.NextIsEnough | utils/num_dictionary.h:313-313 | one step up is enough for one more node, and there is one exactly when the greatest capacity is |
| NumDictionaries.PreviousIsEnough | utils/num_dictionary.h:349-349 | one step down leaves enough buckets |
| Reclamation.UnsafeIff | allocators/generic_allocator.include.c:25-39 | in every run, the return of a block freed at time E is unsafe if and only if some handle's start time was read by this collection, then the handle began a transaction, then the block was pushed with a time later than that begin, then the list was taken, and that transaction still runs |
| Reclamation.PushedBetweenSafe | allocators/generic_allocator.h:69-82 | a block that is not itself pushed while some collection is between reading start times and taking the list returns to malloc only when no running transaction started before its time, whatever begins, commits, aborts and frees other blocks meanwhile |
| Reclamation.Conserved | allocators/generic_allocator.include.c:25-39 | at every point of every run a block is on the list, in some collector's hands or has been returned, altogether as often as it was pushed |
| Reclamation.KeptIff | allocators/generic_allocator.include.c:32-33 | a block is put back if and only if the collection had read, before it took the list, a start time below the block's time |
| Reclamation.RaceIsUnsafe | allocators/generic_allocator.include.c:25-39 | a run in which a block freed during a collection is returned while an older transaction runs |
| Reuse.ReturnedUnreached | allocators/generic_allocator.include.c:25-39 | when the memory of a deleted node, not pushed during such an interval, goes back to malloc, no running transaction can reach the node |
| SharedLists.PointersAreLists | utils/slist.h:75-90 | whenever the head is not the sentinel, the pointers run through exactly the items that atomic operations would have left, and no item is on two lists |
| SharedLists.Linearizable | utils/slist.h:65-90 | at every point of every run the pointers are those of lists on which each push, pop and swap was one step, done where it took the head |
| SharedLists.TakesIff | utils/slist.h:23-33 | an access takes the head exactly when the sentinel is not there, and whoever took it can store, which ends the wait |
| SharedLists.OneAtATime | utils/slist.h:23-33 | one thread at a time is between taking the head and storing it, exactly while the sentinel is there |
| SharedLists.PopTakesFirst | utils/slist.h:65-72 | a pop returns the first item, or null exactly when the list is empty |

## Left out

- ServiceQueue.NothingDangles: `tail` does dangle after the last job is freed on closing; the claim ends there. Closing takes place with no push under way, as `database_close` arranges by destroying all handles first.
- ServiceQueue.Fifo: dump records and the jobs that change files are not in the stream; the theorem is about runs without a dump.
- EndToEnd.CommitsSurvive: the database was empty at the start; how a word or a text is written is a parameter (`Reading`); that the operations fit the schema and no record is empty are hypotheses.
- Durability.CrashRecovers: the file begins with an empty dump, so it is that of a new database; what a dump adds to a file is in `FuzzyDump` and `DumpFiles`.
- FuzzyDump.NewFileSuffices: node types are known by number and the transactions are those of one database, with no creation of an id that exists; this is what `Legal` asks of a commit.
- StrayNodes.SufficesIff: the attributes of a slab node that was never filled in are any values; index callbacks and `fix_pointers` on such nodes are not part of this model. Ids are not 0.
- NodeAllocators.NodeAllocator.Alloc: runs alone; two threads that both find all blocks full may both request a page. Pages hold two or more nodes.
- Reclamation.PushedBetweenSafe: beginning (reading the clock and publishing the start time) is one step, as the two accesses are not protected against a scan between them.
- Waits.DestroySafeIff: the waits of `db_handle_destroy` are one step, and the queue is a sequence; that the linked list behaves like one is in `ServiceQueue`.
- Reuse.ReturnedUnreached: nodes only; that no transaction reaches a freed text block is not part of this model.
- Rejections.WholeOperations: transactions only; a dump record that fails half-way leaves its node with the attributes read so far, as `DataRecords.LoadNode` says.
- StmRecords.RecordsAreRight: transactions reach only nodes that were created, not rolled back and not deleted by their start time, and store only blocks they allocated; the checked macros and the attribute code do this.
- StmTheorems.Serializable: addresses are not reused while a transaction that could see them runs; values are integers; users read and write through the checked macros.
- StmSteps.StepKept: `tr_node_write` copies the old value before it takes the lock and the step system takes both in one step; a write in between raises the version above the start time, so that the lock is refused.
- LockWords.Lock.Take: other threads store finitely often, so the loop ends; fairness and livelock are not part of this model.
- Rollback.Handle.Create: index callbacks and type lookup are not part of this model.
- NumDictionaries.NumDictionary.Insert: node pages come from the caller.
- Readers.Reader.ReadString: when the pointer has left the buffer, what the program then does (a copy of almost 2^64 bytes, or reading on at an earlier place) is not part of this model. A file and its buffer lie below address 2^63.
- Roots.HeaderRoundTrip: lengths below 2^64.
- The configurations with a lock table, bit-array read sets, a commit critical section, or records built by the service thread.
- DataFiles.Directory.LoadData: the schema file, the directory scan, holes in the file numbers and failures of system calls are not part of this model; nor is what follows when a read strays.
- Reopening.ReloadedIff: what was written is whole and holds no empty transaction; what a crash leaves of it is in `Durability`.
- Bodies.RecordIsBody: a read whose check fails counts as done; its transaction can then only abort, the nested one or the whole.
- RawString, floating point and Pointer attributes, `fix_pointers`, reference counts; integers and strings are modelled.
- Attribute numbers that do not fit an `int`.
- Page caches, doubly linked lists as memory (block lists are sequences), `fstack_swap`.
- The collection threshold and counter of the allocators; a collection may start at any time.
- `VPageAllocator`, `SimpleAllocator`, `PageAllocator`, `Stack`, `InlineStack`, `BitArray`: they would add only easy members.
- Indexes in user code, generators, type-level macros, the timer thread, retry sleeping, debug output, the example program.
