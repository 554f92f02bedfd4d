# A verified model of the iterator, the storage engine and the block caches

The repository holds two storage engines, RocksDB with the ZenFS plugin and a LevelDB-style engine in
`db/db_impl.cc`, and the caches they share. This project models their hardest parts in Dafny 4.11 and
proves what they promise. `dafny verify dfyconfig.toml` checks all of it.

- **The user iterator** (`InternalKeys`, `SnapshotView`, `DbIter`). `DBIter` turns a sorted stream of internal entries
  into the keys and values of one snapshot, in both directions, with merges, deletions, range tombstones, bounds and a
  skip limit that makes it seek instead of step. `SnapshotView` says what a snapshot shows without any of that
  machinery: replay the entries of each key that the snapshot sees, oldest first; and it proves what that comes to,
  for each key, from its newest entry that the snapshot sees. The class `DbIter` is the code, step by step; every
  operation is proved to leave it where a plain cursor over that view would be, and `Drive` proves the same of any
  sequence of calls.
- **The storage engine** (`LsmEntries`, `Compaction`, `Engine`, `EngineDurability`, `EngineBatches`, `EngineReads`,
  `EngineProgress`, `WriteQueue`, `GroupCommit`, `Background`). Writers, the flush, compactions, file deletion,
  readers, a crash at any point and recovery are the steps of one state machine. Over every run, an acknowledged write
  is on disk, what recovery finds reads like the whole durable history, and a read finds the newest entry its snapshot
  sees, however long it takes; and each operation can be carried through to its end. Compaction is a method over its
  merged input, and the theorem that it changes no read is about what that method keeps. Group commit and the
  scheduling of the background job are state machines of their own; `GroupCommit` runs the write queue and the engine
  together and proves that a read finds all of a group of writes or nothing of it, that what was answered OK survives,
  and that of two writes to a key the later one in the queue wins.
- **Thread-local super versions** (`SuperVersion`). The swap, compare-and-swap and scrape protocol by which readers
  cache a reference-counted view of a column family, against installs and the teardown of the family: the counts are
  exact, and no query uses a view older than the one installed when it began.
- **The caches** (`EvictionList`, `LruShard`, `LruViews`, `LruRuns`, `HandleTable`, `ClockProtocol`, `ClockLookups`,
  `ClockEviction`, `Reservation`). The LRU shard with its pointer list, priority boundary, hash table and counters;
  what its clients see of it, from their calls and the answers alone, and the proof that any sequence of calls gets
  these answers; the resumable table scan; the CLOCK shard as a step system over packed flags changed by atomic
  operations, with exactly when a lookup hits or misses while others interfere; sequential CLOCK eviction; and the
  manager that reserves memory in a cache by dummy entries.

Conventions. User keys are integers, their rank in the comparator's order. Atomic operations are single
steps of a sequentially consistent machine. What the code reads from outside (file-system failures, merge
operators, whether a key has data in deeper levels, whether a cache has room) is a parameter, so each
theorem holds for every answer. Large invariants are carried folded up: a predicate `Sound(s)` whose body
is guarded by a trivial trigger such as `Open(s, k)` that a proof mentions when it wants to look inside, or
a negated name such as `Broken`. This only steers the verifier.

Where the code and what is written about it disagree, the model follows the code:

- A write without a batch is documented to force the memtable out, and does not when another write's group swallows it
  (`WriteQueue.EmptyWriteIsSwallowed` is such a run; `EmptyWriteForcesASwitchIffItLeads` says of all runs when it
  does, and `EmptyWriteJoins` of all queues when it is swallowed).
- An insertion into the LRU cache without a handle, for which the pinned entries leave no room, is answered OK as if
  the entry had been inserted and evicted at once; but an older entry of the key that a client holds is then still
  found (`LruViews.OldEntryIsFound` is such a run; `LruRuns.InsertionIsFoundExactly` has the exact condition of one
  call, and `LruViews.LookupFindsTheLatestExactly` that of a lookup in any run).
- CLOCK eviction can report failure although its last probe made the room asked for (`ClockEviction.SaysNoWithRoom`,
  and `SaysNoWithRoomExactly` for all lists).
- The scan over all cache entries clamps the batch size with a minimum where a maximum is meant, so a requested size
  of zero never ends (`HandleTables.ScanOfNothingStalls`; `ScanEndsExactly` for every size and however the table grows
  meanwhile).
- A comment in the CLOCK insert suspects that the store which publishes a recycled handle may wipe out a reference
  taken meanwhile. On a sequentially consistent machine it cannot (`ClockProtocol.NoRunFails`).
- A background job can find the manual compaction it worked on gone, after an error or at shutdown
  (`Background.ManualCanBeGone` and `ManualCanBeGoneAtShutdown`; `ManualIsThere` says exactly when).

## Model

| member | source | states |
|---|---|---|
| `InternalKeys.SeekFrom` | db/dbformat.cc:124-143 | a seek stops at the first entry not before the target: all before it compare less |
| `InternalKeys.SeekBack` | db/dbformat.cc:124-143 | a backward seek stops at the last entry not after the target |
| `InternalKeys.SeekFindsFirst` | db/dbformat.cc:23-30 | a seek to a key with the largest sequence number finds the first entry of the key |
| `InternalKeys.SeekFindsVisible` | db/dbformat.cc:23-30 | a seek to a key at a snapshot finds the newest entry that the snapshot sees |
| `InternalKeys.SeekPassesKey` | db/db_iter.cc:483-497 | a seek to sequence number 0 passes all entries of a key, except a deletion with that number |
| `InternalKeys.SeekForPrevFindsBelow` | db/db_iter.cc:1313-1340 | a backward seek at the edge of a key stands on the last entry of a smaller key |
| `SnapshotView.ViewIsTheSnapshot` | db/db_iter.h:59-70 | the view has, in increasing order, exactly the keys with an outcome in the snapshot, each with it |
| `SnapshotView.OutcomeOfNone` | db/db_iter.cc:259-323 | a key that is out of bounds, or of which the snapshot sees no entry, is absent |
| `SnapshotView.OutcomeOfNewest` | db/db_iter.cc:325-413 | the newest entry of a key that the snapshot sees, by position and number, decides: a deletion, a single deletion or a range tombstone over it makes the key absent, a put not so covered shows its own value |
| `SnapshotView.OutcomeOfOperands` | db/db_iter.cc:536-647 | if it is a merge, the key shows the merge of the longest run of uncovered merges from it down, oldest first, onto the put right below them if that is uncovered, else onto nothing; or the failure of that merge |
| `SnapshotView.NewestAndOperandsExist` | db/db_iter.cc:536-647 | one of these three cases applies to every key |
| `SnapshotView.NextShownIsCursor` | db/db_iter.cc:230-527 | the next key with an outcome is where a forward cursor stands |
| `SnapshotView.NoneFromIsEnd` | db/db_iter.cc:230-527 | no key with an outcome ahead means the cursor is past the end |
| `SnapshotView.PrevShownIsCursor` | db/db_iter.cc:755-808 | the last key with an outcome below is where a backward cursor stands |
| `SnapshotView.NoneBelowIsStart` | db/db_iter.cc:755-808 | no key with an outcome below means the cursor is before the start |
| `DbIterator.NewestDecides` | db/db_iter.cc:332-413 | a newest visible put, or a newest visible entry that is dead, settles what its key shows |
| `DbIterator.CollectStops` | db/db_iter.cc:536-647 | merge operands collected newest first, and the base they stop at, give the same value as replaying the key oldest first |
| `DbIterator.DbIter.constructor` | db/db_iter.cc:39-93 | a new iterator is before the view |
| `DbIterator.DbIter.Next` | db/db_iter.cc:128-172 | moves the cursor one on, in whichever direction the iterator was going |
| `DbIterator.DbIter.Prev` | db/db_iter.cc:649-678 | moves the cursor one back |
| `DbIterator.DbIter.Seek` | db/db_iter.cc:1342-1414 | puts the cursor on the first key shown at or after the target |
| `DbIterator.DbIter.SeekForPrev` | db/db_iter.cc:1416-1484 | puts the cursor on the last key shown at or before the target |
| `DbIterator.DbIter.SeekToFirst` | db/db_iter.cc:1486-1532 | puts the cursor on the first key shown |
| `DbIterator.DbIter.SeekToLast` | db/db_iter.cc:1534-1579 | puts the cursor on the last key shown |
| `DbIterator.DbIter.FindNextUserEntry` | db/db_iter.cc:230-527 | finds the first key shown from a given key on, by stepping or by seeking past long runs |
| `DbIterator.DbIter.Examine` | db/db_iter.cc:259-471 | one entry of the forward scan: either the search is over rightly, or nothing shown has been skipped |
| `DbIterator.DbIter.ShowNewest` | db/db_iter.cc:325-446 | the newest visible entry of a key shows the key, unless it is dead |
| `DbIterator.DbIter.Reseek` | db/db_iter.cc:478-520 | the jump out of a long run never moves back and skips nothing that could be shown |
| `DbIterator.DbIter.MergeValuesNewToOld` | db/db_iter.cc:536-647 | shows the outcome of a key whose newest entry is a merge, or its failure |
| `DbIterator.DbIter.MergeOnto` | db/db_iter.cc:1185-1196 | applies the operands to the base, and reports failure exactly if the operator fails |
| `DbIterator.DbIter.PrevInternal` | db/db_iter.cc:755-808 | finds the last key shown below a given key |
| `DbIterator.DbIter.ShowKeyBackward` | db/db_iter.cc:756-803 | one key of the backward scan: shown, failed, or stepped over because it shows nothing |
| `DbIterator.DbIter.FindValueForCurrentKey` | db/db_iter.cc:821-1001 | reading a key from its oldest entry up gives its outcome, also when it gives up and seeks |
| `DbIterator.DbIter.FoldEntry` | db/db_iter.cc:871-919 | one entry of that reading keeps the fold equal to the replay so far |
| `DbIterator.DbIter.ShowFolded` | db/db_iter.cc:935-1000 | what has been folded of a key is its outcome |
| `DbIterator.DbIter.FindValueForCurrentKeyUsingSeek` | db/db_iter.cc:1007-1183 | reading a key from its newest visible entry down gives the same outcome |
| `DbIterator.DbIter.MergeFromNewest` | db/db_iter.cc:1089-1183 | the third merge scan agrees with the other two |
| `DbIterator.DbIter.FindUserKeyBeforeSavedKey` | db/db_iter.cc:1200-1262 | ends on the last entry below the key, by stepping or by seeking |
| `DbIterator.DbIter.ReverseToForward` | db/db_iter.cc:680-719 | turning round leaves the inner iterator on the first entry of the current key |
| `DbIterator.DbIter.ReverseToBackward` | db/db_iter.cc:722-753 | turning round leaves the inner iterator on the last entry below the current key |
| `DbIterator.Perform` | db/db_iter.h:152-175 | each call moves the iterator as it moves a cursor over the view |
| `DbIterator.Drive` | db/db_iter.h:59-70 | for any calls in any order, what the iterator shows is what a cursor over the snapshot's view shows, whatever the skip limit |
| `LsmEntries.LookupYoungFirst` | db/db_impl.cc:1160-1173 | asking the younger entries first and the older ones if they have nothing finds the newest entry |
| `LsmEntries.LookupIgnoresLater` | db/db_impl.cc:1150-1158 | entries written after a snapshot do not change what it reads |
| `Compaction.HiddenByThePrevious` | db/db_impl.cc:973-984 | in key order, an entry is hidden by a newer one below the oldest snapshot exactly if it is by the entry right before it |
| `Compaction.DropRule` | db/db_impl.cc:964-1003 | the loop's test on the last sequence number and the deletion test drop exactly the entries that no reader needs |
| `Compaction.DoCompactionWork` | db/db_impl.cc:913-1046 | the outputs, however they are cut into files, hold the kept entries in order, each file with its true smallest and largest key and closed as soon as it is full |
| `Compaction.AddToOutput` | db/db_impl.cc:1011-1032 | one kept entry more: it comes last, and a file that it fills is closed and no other |
| `Compaction.OutputsAreTheSurvivors` | db/db_impl.cc:964-1032 | the kept sequence is, as a set, the input without what is hidden or spent |
| `Compaction.KeptExactly` | db/db_impl.cc:964-1003 | an entry of the input is in the outputs exactly if every newer entry of its key is above the oldest snapshot, and it is no deletion at or below that snapshot with no deeper data |
| `Compaction.KeptInOrder` | db/db_impl.cc:1011-1032 | the kept entries are in the order of the input |
| `Compaction.OutputsDoNotOverlap` | db/db_impl.cc:1011-1046 | each output table ends before the next one begins |
| `Compaction.CompactionPreservesReads` | db/db_impl.cc:973-1003 | replacing the input by its survivors changes no read at the oldest live snapshot or later |
| `Compaction.NewestSurvives` | db/db_impl.cc:973-1003 | whichever entry a live snapshot would find, the same value is found after the compaction |
| `EngineDurability.WriteKeeps` | db/db_impl.cc:1223-1315 | every step of a write, with a failed append or sync or a memtable switch, keeps the invariant |
| `EngineDurability.WorkKeeps` | db/db_impl.cc:504-585 | every step of a flush, a compaction and file deletion keeps it, with commits that fail before or after they reach the disk, and with further commits after a failed one, whether they go on from the version in memory or from the manifest on disk |
| `EngineDurability.ReadKeeps` | db/db_impl.cc:1137-1183 | snapshots and reads keep it |
| `EngineDurability.RecoverKeeps` | db/db_impl.cc:283-379 | a crash at any point and each step of recovery keep it |
| `EngineDurability.CreateLogKeeps` | db/db_impl.cc:1556-1570 | so does creating the new log before the manifest that needs it is committed, with a crash in between |
| `EngineDurability.StepKeeps` | db/db_impl.cc:1137-1435 | so does any step |
| `EngineDurability.RunKeeps` | db/db_impl.cc:1137-1435 | and any run |
| `EngineDurability.FlushedTablesMean` | db/db_impl.cc:554-585 | after a flush commits, the tables alone read like the logs it lets go of, also on top of a manifest that an earlier failed commit left with the memtable already in it |
| `EngineDurability.InstalledTablesMean` | db/db_impl.cc:892-911 | after a compaction is installed, on either base, the tables read as before for every live snapshot |
| `EngineDurability.RecoveredTablesMean` | db/db_impl.cc:381-502 | after log files are replayed, the recovered tables and memtable read like the durable history |
| `EngineDurability.DeletionKeepsFiles` | db/db_impl.cc:225-281 | deleting obsolete files deletes none that the manifest, a reader or a running job needs |
| `EngineDurability.AcknowledgedWritesSurvive` | db/db_impl.cc:1243-1315 | over every run with crashes: acknowledged writes are durable, nothing is durable that was not submitted, the manifest's files exist, and what recovery would find reads like all that is durable |
| `EngineDurability.RecoveryReadsDurable` | db/db_impl.cc:283-379 | the tables and logs that recovery looks at read like the durable history |
| `EngineDurability.ReadsAreTheHistory` | db/db_impl.cc:1150-1173 | memtable, frozen memtable and tables together read like everything written, for every live snapshot |
| `EngineDurability.FirstHitIsNewest` | db/db_impl.cc:1160-1173 | the first hit in memtable, frozen memtable, tables is the newest entry |
| `EngineDurability.GetFindsTheNewest` | db/db_impl.cc:1137-1183 | in every reachable state a read finds the newest entry written up to its snapshot |
| `EngineDurability.SlowGetFindsItsSnapshot` | db/db_impl.cc:1137-1183 | over every run: a read under way finds its files still there, and the first hit in its memtable as it has grown, its frozen memtable and its tables is the newest entry of its snapshot among what had been written when it began |
| `EngineReads.RunKeepsAcked` | db/db_impl.cc:1243-1315 | over every run, what was acknowledged stays so, and lies within the last sequence number whenever the engine is up |
| `EngineReads.GetReadsAtItsSnapshot` | db/db_impl.cc:1137-1183 | over every run: a read asked for snapshot t finds, whatever happens between its start and its search but a crash, the newest entry up to t among what had been written when it was called |
| `EngineReads.SnapshotsStay` | db/db_impl.cc:1204-1207 | over every run: a snapshot is taken at the last sequence number, sees all that was acknowledged by then, and until it is released reads of any key give what they gave when it was taken |
| `EngineReads.SnapshotsAreThoseHeld` | db/db_impl.cc:1204-1212 | over every run the snapshots that the engine knows are those taken and not released since the last crash, with their number |
| `EngineProgress.WriteAlone` | db/db_impl.cc:1223-1315 | a write can be carried through, and is then in the log, in the memtable and acknowledged |
| `EngineProgress.SwitchAlone` | db/db_impl.cc:1408-1428 | a full memtable can be frozen as it is, and a new one goes with a new empty log |
| `EngineProgress.FlushAlone` | db/db_impl.cc:554-585 | a flush can be carried through: the frozen memtable is then a table of the version, the manifest says so, nothing written is lost, and the logs before the current one may be deleted |
| `EngineProgress.CompactAlone` | db/db_impl.cc:913-1046 | a compaction can be carried through: the inputs are then replaced by one table of exactly the survivors, and memtables and history are as before |
| `EngineProgress.DeleteAlone` | db/db_impl.cc:225-281 | obsolete files can be deleted; they are gone then, and the others are as before |
| `EngineProgress.RecoveryRestoresAll` | db/db_impl.cc:283-502 | over every run, a crash and any recovery that ends with the engine up leave as written exactly what was on disk, with all that was acknowledged, and reads find it |
| `EngineProgress.RecoverAlone` | db/db_impl.cc:1546-1575 | from any state a crash can be recovered from |
| `EngineProgress.ErrorsStopTheEngine` | db/db_impl.cc:658-675 | after a failed log sync, flush or compaction, until the engine is opened again, no write begins, no memtable is switched, no compaction starts and no file is deleted |
| `EngineBatches.RunKeepsWhole` | db/db_impl.cc:1137-1435 | every run with crashes keeps each batch whole in every log, memtable and flushed history, and no snapshot between its sequence numbers |
| `EngineBatches.CrashesLeaveWholeBatches` | db/db_impl.cc:283-379 | at any time, all of a batch is on disk or nothing of it |
| `EngineBatches.ReadersSeeWholeBatches` | db/db_impl.cc:1137-1183 | in every reachable state a read at any snapshot finds all of a batch, but for what is newer, or reads as if the batch were not there |
| `EngineBatches.SlowReadersSeeWholeBatches` | db/db_impl.cc:1160-1173 | so does a read that has been under way while anything else happened |
| `WriteQueue.BuildBatchGroup` | db/db_impl.cc:1319-1365 | the group is the longest prefix of the queue in which everyone may join; its batch has as many operations as they have together, and each operation of each writer stands right behind those of the writers before and its own earlier ones |
| `WriteQueue.OpsInQueueOrder` | db/db_impl.cc:1351-1358 | appending batch by batch puts operation j of writer i at the number of operations before writer i, plus j |
| `WriteQueue.GroupFits` | db/db_impl.cc:1325-1350 | a group stays under the size cap unless its leader alone is over it |
| `WriteQueue.EmptyWriteJoins` | db/db_impl.cc:1325-1360 | a write without a batch is swallowed by the group ahead of it exactly if all between join and it asks for no more sync than the leader |
| `WriteQueue.SwallowedInAQueueOfTwo` | db/db_impl.cc:1319-1365 | a queue of two whose second writer is swallowed |
| `WriteQueue.EmptyWriteIsSwallowed` | db/db_impl.cc:642-656 | a run in which a write without a batch is answered OK and no memtable has been switched |
| `WriteQueue.EmptyWriteForcesASwitchIffItLeads` | db/db_impl.cc:1228-1246 | over every run, a write without a batch that is answered OK has had a memtable switch forced for it exactly if it led its own group |
| `WriteQueue.StepKeeps` | db/db_impl.cc:1223-1315 | every step of the queue keeps served writers, log records and sequence numbers in line |
| `WriteQueue.RunKeeps` | db/db_impl.cc:1223-1315 | so does every run |
| `WriteQueue.GroupsServeTheQueueInOrder` | db/db_impl.cc:1223-1315 | writers are served in order of arrival, each once, the log is the records of the groups, each with the operations of its members in queue order, and sequence numbers neither overlap nor go back |
| `WriteQueue.WritersAreServedAsTheyArrive` | db/db_impl.cc:1228-1246 | over every run, member j of group g is the writer that arrived with number j after those of the groups before |
| `WriteQueue.QueueDrains` | db/db_impl.cc:1296-1314 | from any state between groups the queue can be drained, and every writer that arrived is answered |
| `WriteQueue.BoundariesSplitNoGroup` | db/db_impl.cc:1252-1256 | the sequence numbers between groups lie inside no group |
| `WriteQueue.SnapshotsSeeWholeGroups` | db/db_impl.cc:1204-1212 | a snapshot taken at any time sees all of a group or none of it |
| `GroupCommit.TurnFollows` | db/db_impl.cc:1223-1315 | each step of the queue is matched by the steps of the engine that write its group, and each step of the background job or of a reader leaves the writer alone |
| `GroupCommit.TurnsAreARun` | db/db_impl.cc:1223-1315 | so any interleaving of both is a run of the engine that keeps the two in step: the groups of the queue are the batches of that run, numbered alike, and those answered OK are acknowledged |
| `GroupCommit.InterleavingsAreRuns` | db/db_impl.cc:1223-1315 | the same from the opening of the engine after any run with crashes |
| `GroupCommit.GroupsAreReadWhole` | db/db_impl.cc:1252-1256 | over every such run after any run with crashes, a read at any snapshot finds all of a group, but for what is newer, or reads as if the group were not there |
| `GroupCommit.GroupsAnsweredOkSurvive` | db/db_impl.cc:1256-1281 | what a group answered OK has written is acknowledged and on disk ever after, through any crashes |
| `GroupCommit.LaterOperationsWin` | db/db_impl.cc:1351-1358 | of two operations, the one in a later group, of a later writer or later in the batch has the larger sequence number, and if both are on one key the earlier is not what a read that sees both finds |
| `Background.RunKeeps` | db/db_impl.cc:658-705 | every run keeps the scheduling invariant |
| `Background.AtMostOneJob` | db/db_impl.cc:666-705 | at most one job is queued or running, and the flag is set exactly then |
| `Background.WorkIsScheduled` | db/db_impl.cc:666-705 | work without error or shutdown always has a job scheduled |
| `Background.WaitersAreWoken` | db/db_impl.cc:1397-1428 | over every run: whoever waits, except at shutdown without a job, is woken by the next steps of the job, which it can take and of which there are at most three |
| `Background.WorkGetsDone` | db/db_impl.cc:658-705 | while there is neither an error nor a shutdown, some run of the job gets all the work done and leaves nothing scheduled |
| `Background.ManualIsThere` | db/db_impl.cc:782-794 | over every run: the request that a job for t will look at in the end is that of t, exactly if t has not taken it back since the job began; if t has, there is none, and there was an error or a shutdown |
| `Background.TakenIsHistory` | db/db_impl.cc:627-640 | the mark that the model puts on a job is true exactly if the run since the job began has its requester taking the request back |
| `Background.ManualCanBeGone` | db/db_impl.cc:627-640 | a run in which that happens after an error |
| `Background.ManualCanBeGoneAtShutdown` | db/db_impl.cc:944-953 | a run in which it happens at shutdown, when a flush in the middle of the compaction wakes the requester |
| `SuperVersion.NoAssertFails` | db/column_family.cc:436-492 | in a sound state no assert on a reference count, a swap or a cleanup fails |
| `SuperVersion.StepKeeps` | db/column_family.cc:1179-1318 | every step of a reader, an install, a thread exit or a release is safe and keeps the invariant |
| `SuperVersion.RunKeeps` | db/column_family.cc:1179-1318 | so does every run |
| `SuperVersion.CountersAreExact` | db/column_family.cc:436-492 | over every run each reference count is the number of holders, and a view is cleaned up exactly once, after its count is zero |
| `SuperVersion.SlotsNeverHoldTheLast` | db/column_family.cc:480-492 | a cached reference is never the last one, and a reader that finds one has a view still fit for use |
| `SuperVersion.QueriesAreUpToDate` | db/column_family.cc:1192-1240 | over every run: the view that a query uses is at least as new as the one current when the query began, the versions number the installs, and the current view is the last installed |
| `SuperVersion.QueryAlone` | db/column_family.cc:1192-1240 | a query with no install under way can be carried through, and uses the current view |
| `SuperVersion.ExitGivesUpItsReference` | db/column_family.cc:479-492 | a thread that exits gives up the one reference that its slot caches, which is never the last, and no other slot changes |
| `SuperVersion.InstallCompletes` | db/column_family.cc:1268-1318 | an install can be carried through, and no slot then caches a view other than the current one |
| `SuperVersion.FreedWithTheLastReference` | db/column_family.cc:673-700 | the column family is freed only when nobody holds it and every view has been cleaned up, and is freed then |
| `SuperVersion.TearDownFrees` | db/column_family.cc:673-700 | once no query is under way, giving up the references that are left frees the column family |
| `EvictionLists.EvictionList.Remove` | cache/lru_cache.cc:215-231 | takes one entry out of the pointer ring, moves the priority boundary with it, and keeps order and sums |
| `EvictionLists.EvictionList.Insert` | cache/lru_cache.cc:233-257 | a high-priority or hit entry becomes the newest of all and the overflow is settled; any other becomes the newest low-priority one |
| `EvictionLists.EvictionList.MaintainPoolSize` | cache/lru_cache.cc:259-270 | ends with the high-priority sum within its bound, having moved the boundary over no more entries than needed and never onto the sentinel |
| `LruShards.LruShard.constructor` | cache/lru_cache.cc:111-132 | a new shard is empty and sound |
| `LruShards.LruShard.ThreeStates` | cache/lru_cache.h:30-50 | every entry in use is in one of the three documented states: in the table exactly if in the cache, on the list exactly if in the cache and unreferenced, and not freed |
| `LruShards.LruShard.EvictFromLru` | cache/lru_cache.cc:272-286 | evicts the oldest entries in order, none while there is room, until there is room or nothing left |
| `LruShards.LruShard.SetCapacity` | cache/lru_cache.cc:288-307 | afterwards usage fits or nothing is left to evict |
| `LruShards.LruShard.SetHighPriorityPoolRatio` | cache/lru_cache.cc:502-507 | afterwards the high-priority part is within its new bound, and shrank no more than needed |
| `LruShards.LruShard.EraseUnRefEntries` | cache/lru_cache.cc:134-155 | frees every entry that nobody holds, oldest first, and nothing else |
| `LruShards.LruShard.Insert` | cache/lru_cache.cc:314-384 | fails exactly if the caller wants a handle, the limit is strict and the pinned charge leaves no room; else stores the new value, or frees it at once; evicts the shortest prefix of the list that makes room; says which entries are freed, in order, the replaced one exactly if nobody holds it; says where the new entry stands on the list; keeps a strict limit |
| `LruShards.LruShard.Lookup` | cache/lru_cache.cc:418-436 | finds what the table has, takes one reference, marks the hit and takes the entry off the list, whose order stays |
| `LruShards.LruShard.Ref` | cache/lru_cache.cc:493-500 | adds a reference to a held entry |
| `LruShards.LruShard.Release` | cache/lru_cache.cc:509-549 | frees exactly on the last release of an entry that is out of the cache, over capacity or forced out; else the entry goes back onto the list in its place |
| `LruShards.LruShard.Erase` | cache/lru_cache.cc:585-610 | the key is gone; an unheld entry is freed, a held one lives on until its last release |
| `LruShards.LruShard.GetPinnedUsage` | cache/lru_cache.cc:629-633 | the difference of the two counters is the charge of the held entries |
| `LruShards.EvictsRoom` | cache/lru_cache.cc:272-286 | eviction makes room exactly if the pinned charge leaves room |
| `LruShards.SumSplits` | cache/lru_cache.cc:629-633 | the charge of all entries is that of the list and that of the rest |
| `LruRuns.Perform` | cache/lru_cache.cc:288-549 | any one call gets the answer that its clients can work out from the calls and answers before, and leaves the shard as they then see it: handle returned, entry taken charge of, entries evicted and freed in order, list, table, counters, marks and settings |
| `LruRuns.Run` | include/rocksdb/cache.h:245-300 | for any calls in any order on a new shard: each call gets such an answer, so the handles held, the entries taken charge of, what is cached, held or freed, and the settings are those that follow from calls and answers; no held value is freed and none twice; usage stays within the capacity if the limit is strict throughout and the capacity never lowered, and whenever no handle is held |
| `LruRuns.HeldByMe` | include/rocksdb/cache.h:275-295 | an entry is held exactly if a client has a handle of it, and its count is how many |
| `LruRuns.InsertionLosesNone` | cache/lru_cache.cc:314-384 | what an insertion evicts or replaces is freed or still held, and the new entry is in use exactly if it is stored |
| `LruRuns.InsertionIsFoundExactly` | cache/lru_cache.cc:326-333 | after an insertion answered OK, the key has the new entry or none, exactly unless no handle was wanted, there was no room, and a client holds an older entry of the key |
| `LruRuns.RoomIsPinned` | cache/lru_cache.cc:629-633 | there is room for an insertion exactly if the charge of the entries that clients hold leaves it |
| `LruViews.LookupFindsTheLatestExactly` | cache/lru_cache.cc:418-436 | over every run, what a lookup finds is the entry last stored under the key with no erasure since; it is that of the last insertion answered OK exactly if that insertion did not find the cache without room |
| `LruViews.OldEntryIsFound` | cache/lru_cache.cc:326-333 | three calls after which a lookup finds the first value although the second was answered OK |
| `LruRuns.NothingHeldFits` | cache/lru_cache.cc:509-549 | once nobody holds a handle, usage is within the capacity, whatever the limit and however it was exceeded |
| `HandleTables.HandleTable.FindPointer` | cache/lru_cache.cc:68-74 | stops at the one entry with this hash and key, or at the end of the chain |
| `HandleTables.HandleTable.Lookup` | cache/lru_cache.cc:38-40 | finds what the map has |
| `HandleTables.HandleTable.Insert` | cache/lru_cache.cc:42-56 | updates the map at the entry's hash and key, returns what was there, and doubles the table exactly if a new entry makes it full and it may grow |
| `HandleTables.HandleTable.Remove` | cache/lru_cache.cc:58-66 | removes the entry from the map and returns it |
| `HandleTables.HandleTable.Resize` | cache/lru_cache.cc:76-109 | doubles the array unless at its limit, and keeps the map; the count of moved entries is the count of entries |
| `HandleTables.HandleTable.ApplyToSomeEntries` | cache/lru_cache.cc:157-191 | visits, each once, exactly the entries with a hash from the given state up to the next |
| `HandleTables.MovedNext` | cache/lru_cache.cc:94-105 | an entry that is moved has not been moved before |
| `HandleTables.AlignedInFiner` | cache/lru_cache.cc:161-163 | a state at the start of a slot is at the start of a slot of any larger table |
| `HandleTables.EndIsNotAligned` | cache/lru_cache.cc:174-182 | the mark for the end is never a state to go on from |
| `HandleTables.ScanAdvances` | cache/lru_cache.cc:173-182 | each call gets at least one slot further, exactly if it is asked for any |
| `HandleTables.WholeScanVisitsOnce` | cache/sharded_cache.cc:160-183 | however the table grows and changes between the calls of a scan that has come to its end, their results together hold an entry at most once, exactly once if it was there at every call, and not at all if it never was |
| `HandleTables.ScanVisitsOnce` | cache/sharded_cache.cc:174-183 | the same from any point of a scan to any other, for the entries with a hash between the two |
| `HandleTables.ScanEnds` | cache/sharded_cache.cc:174-183 | a scan that is asked for any slots comes to its end in no more calls than half the hashes, however the table grows meanwhile |
| `HandleTables.ScanOfNothingStalls` | cache/sharded_cache.cc:169-183 | one that is asked for none is still at its start after any number of calls |
| `HandleTables.ScanEndsExactly` | cache/sharded_cache.cc:169-183 | given that many calls, a scan comes to its end exactly if the requested batch size is not zero |
| `ClockProtocol.AddRefFields` | cache/clock_cache.cc:312-320 | adding a reference to the packed flags changes the count and no bit |
| `ClockProtocol.DropRefFields` | cache/clock_cache.cc:312-320 | neither does taking one away |
| `ClockProtocol.ClearInCacheFields` | cache/clock_cache.cc:312-320 | clearing the in-cache bit leaves the count |
| `ClockProtocol.UsageFields` | cache/clock_cache.cc:312-320 | setting or clearing the usage bit leaves the count and the in-cache bit |
| `ClockProtocol.NoAssertFails` | cache/clock_cache.cc:470-554 | in a sound state: a dropped reference exists, a recycled handle is out of the cache, unreferenced and not in the bin, an evicted one is in the table, and the publishing store overwrites nothing |
| `ClockProtocol.StepKeeps` | cache/clock_cache.cc:470-755 | every atomic step of every thread keeps the invariant |
| `ClockProtocol.RunKeeps` | cache/clock_cache.cc:470-755 | so does every run |
| `ClockProtocol.NoRunFails` | cache/clock_cache.cc:612-671 | after any run, any step that a thread can take passes its asserts, so no life of a handle is recycled twice and no reference is wiped out |
| `ClockProtocol.HeldEntriesStay` | cache/clock_cache.cc:702-728 | whoever holds a handle holds the key and value they looked up or inserted, in the same life of the handle, until they release it |
| `ClockLookups.LookupMisses` | cache/clock_cache.cc:702-714 | over every run, with any steps of others in between: a lookup misses if the key is not in the table when it looks, and goes on to the handle there if it is; it misses then if the handle has lost its in-cache bit by the time of the compare-and-swap |
| `ClockLookups.LookupHits` | cache/clock_cache.cc:702-725 | over every run: a lookup whose compare-and-swap succeeds found the key in the table and its handle in the cache, and ends holding the handle, with value and life as at the swap, if the handle has that key then, and giving it back if it has another |
| `ClockLookups.TableHasWhatWasLinked` | cache/clock_cache.cc:612-671 | over every run, the handle that the table has for a key has that key and the value of the insertion that last linked it |
| `ClockLookups.LinkedIsFound` | cache/clock_cache.cc:702-725 | over every run, a lookup of a key in the table that nobody interrupts can be carried through, and holds the value of the insertion that last linked the key, unless an eviction is between its two steps |
| `ClockLookups.LookupAlone` | cache/clock_cache.cc:702-725 | in any sound state, such a lookup holds the handle in the table, with its key, value and life |
| `ClockLookups.InsertAlone` | cache/clock_cache.cc:612-700 | an insertion that nobody interrupts can be carried through, and the table then has the new entry for the key and is unchanged for all others |
| `ClockLookups.EraseAlone` | cache/clock_cache.cc:738-755 | so can an erasure: the key is gone from the table, the handle out of the cache, and in the bin exactly if nobody holds it |
| `ClockLookups.ReleaseAlone` | cache/clock_cache.cc:512-540 | so can a release: one reference less, the usage mark set, the table as before, and the handle in the bin exactly if it was the last reference to an entry out of the cache |
| `ClockLookups.EvictAlone` | cache/clock_cache.cc:556-567 | so can an eviction of an unused, unreferenced entry, which goes from table and usage into the bin |
| `ClockLookups.SpareAlone` | cache/clock_cache.cc:567-569 | a probe of any other entry takes its usage mark and nothing else |
| `ClockProtocol.AtRestAllAgrees` | cache/clock_cache.cc:470-569 | when no operation is under way the counters are the charge sums, reference counts are the holders, the table lists exactly the cached handles and the bin exactly the free ones |
| `ClockEviction.ClockList.TryEvict` | cache/clock_cache.cc:556-569 | evicts an unused, unreferenced entry, else takes its usage mark |
| `ClockEviction.ClockList.EvictFromCache` | cache/clock_cache.cc:571-595 | says yes exactly under a condition on the list it starts from; the list is what its probes leave, of which there are no more than it takes to make room; on yes there is room and the hand is where the probes end, on no every cached entry left is referenced and the hand has not moved; referenced entries stay |
| `ClockEviction.AfterAt` | cache/clock_cache.cc:579-592 | after any number of probes each slot has been probed as often as the hand passed it |
| `ClockEviction.SlotFate` | cache/clock_cache.cc:556-592 | a slot leaves the cache exactly if it is unreferenced and the hand has passed it, twice if it was used; a slot that stays loses its usage mark exactly if passed |
| `ClockEviction.StopsRight` | cache/clock_cache.cc:579-592 | the loop ends with room exactly under that condition |
| `ClockEviction.TwoRoundsUsage` | cache/clock_cache.cc:579-592 | two rounds leave exactly the charge of the referenced entries |
| `ClockEviction.SaysNoWithRoom` | cache/clock_cache.cc:584-590 | a list on which it says no although there is room by then |
| `ClockEviction.SaysNoWithRoomExactly` | cache/clock_cache.cc:584-590 | that happens exactly if the slot the hand comes to last is used, unreferenced, and its charge is what is missing |
| `Reservation.Manager.UpdateCacheReservation` | cache/cache_reservation_manager.cc:41-69 | succeeds exactly if the cache takes enough dummy entries; then the reservation covers the memory and is the least multiple that does, unless a decrease is put off |
| `Reservation.Manager.Increase` | cache/cache_reservation_manager.cc:104-121 | adds dummy entries up to the least multiple that covers the memory, or as many as the cache takes |
| `Reservation.Manager.Decrease` | cache/cache_reservation_manager.cc:123-140 | gives back the newest dummy entries, down to the least multiple that covers the memory |
| `Reservation.Manager.MakeCacheReservation` | cache/cache_reservation_manager.cc:82-92 | the memory used is the sum over living handles, also when the cache had no room |
| `Reservation.Manager.ReleaseReservation` | cache/cache_reservation_manager.cc:178-186 | handles may die in any order, and with the last of them the reservation is zero |

## Left out

- ZenFS, the on-disk file formats, the log and manifest encodings, and block and table readers.
- Levels and the choice of compactions: a version is a set of tables, and "no deeper level has the key" is a contract on the caller of the drop rule.
- Trivial moves of a file between levels, which change no entry.
- A crash of the machine: the model is of a crash of the process, where an append to the log is all there or not there.
- The version set of this engine, which writes the manifest, is not part of the repository. Whether a commit after a failed one goes on from the manifest on disk or writes the version in memory anew, and which log number a compaction's edit carries, are choices of the step, so both are covered.
- A batch enters the memtable in one step, so a reader never sees part of one there; by `LsmEntries.LookupIgnoresLater` it could not use such a part.
- The timing output at the end of a background compaction, which reads the level of a compaction that may be null.
- In the iterator: blob values, user timestamps, read callbacks, prefix mode, the lower sequence-number bound, and the limit on skipped keys. Bounds are always checked, where the code may know from a block's bounds that it need not.
- A merge operator is a function that may fail; a failed merge shows as an error, and its message is not modelled.
- The secondary cache behind the LRU shard, and promotion from it. A promotion that fails is not charged and is credited on release, so the usage equation is stated without a secondary cache.
- The LRU shard's table is a map in `LruShard`; that the real table is one is proved in `HandleTable`, where chains are sequences and not pointers through the handles.
- `LruViews` leaves open where on the eviction list an entry without priority is put, which depends on how large the part with priority is; `EvictionList` and `LruShard` state the place.
- `LruShard` frees the values inside the operation, where the code does after giving up the mutex. `LRU_Insert` sets the entry's flag and counters before it links it, where the code does after.
- Wrap-around of the 32-bit reference count in the CLOCK flags, and of 64-bit sums of charges.
- Memory orders weaker than sequential consistency.
- In the CLOCK protocol: EraseUnRefEntries and the forced erase on release. A failed eviction probe and the clearing of the usage bit that follows it are one step.
- The shards of a cache are independent, and one is modelled.
- Write stalls, rate limits, statistics, and the scheduling of threads: steps are taken in any order, and nothing is said about time.
