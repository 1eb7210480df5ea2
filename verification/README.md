# Verified model of the lsm-kv-rs engine

A Dafny model of an LSM-tree key-value engine and of the wire protocol in front of it, with proofs about whole runs:
crash safety, layered reads, leveled compaction, a lock-free skiplist, group commit, the on-disk formats and the
request parser. `dafny verify dfyconfig.toml` checks the project.

## What is modelled

- **The store** (`Store*`): one state machine for writers, rotation, flushing, compaction, crash and reopening, alone and
  joined with its group-commit log down to the bytes (`StoreLog`). A flush is
  split into writing, renaming, stamping, committing, publishing and unlinking each log; a compaction into planning, writing
  each output, stamping, committing, publishing and unlinking each input. A crash may come between any two of them, keeps
  completed file-system steps, and loses any suffix of the records of the current log that were not yet on the device.
  The specification is one set of writes, of which the newest per key answers.
- **Levels and compaction** (`Files`, `Compaction`, `Levels`, `EngineState`, `Merge`, `Cutting`, `Planner`, `Compactor`):
  input closure, tombstone purging, the heap merge, output cutting, level choice and the compact-until-done loop.
- **The skiplist** (`Skiplist*`): every load, store and compare-and-swap is a step; any number of threads interleave them.
  Linearizable lookups, and lock-freedom.
- **The log** (`WalRecord`, `WalReplay`, `GroupCommit*`): record codec, torn-tail recovery on bytes, and group commit as a
  protocol of two locks, a shared buffer and a condition variable, where writes and flushes may fail.
- **Formats** (`Checksum`, `Coding`, `Bloom`, `SortedFile*`, `ManifestCodec`): CRC-32 as IEEE 802.3 section 3.2.9 defines
  it bit by bit against the eight-table loop, sorted files against a plain list, the manifest bytes.
- **Requests** (`Resp*`): RESP2 arrays and inline commands ("Arrays", "Bulk strings" and "Inline commands" of the Redis
  serialization protocol specification), batching, and the reading loop of a connection with its 16 KiB reads and its end at
  an error or at QUIT.

Code that updates state in loops is written as methods and classes, proved against specification functions. Protocols are
step relations over explicit states, and their theorems quantify over every run. Atomics are sequentially consistent, level
scores are exact ratios, and file operations succeed unless a statement says otherwise.

## What the proofs found

- A store whose very first flush stops between renaming its table and writing its first manifest can never be opened again:
  opening sees a table without a manifest and refuses (`StoreReopen.FirstFlushCanLockTheStore`). A stopped store opens if and
  only if it has a manifest or holds no complete table (`StoreReopen.ReopensExactlyWhenNotRefused`).
- The log tests its failed flag before it takes the append lock. An append already past the test when another one's write fails
  can be written, flushed and returned behind the partial record, and recovery stops in front of both
  (`GroupCommitFailure.AcknowledgedAppendCanBeLost`). With nobody past the test nothing acknowledged is ever lost
  (`GroupCommitDamage.NobodyPastTheTestLosesNothing`). In general, after any number of failed writes, an acknowledged append
  survives exactly if no failed write dropped its record and it was not written behind bytes that cannot be read
  (`GroupCommitLosses.CrashAfterFailures`).
- What a connection makes of a stream depends on how reads split it in two cases, and in no other
  (`RespServe.SplitsAgreeExactlyWhenSteady`). An inline line that ends past the 64 KiB limit, but by less than one read, is
  accepted when one read brings everything past the limit and refused when a read stops in between; a line a whole read or more
  past the limit is always refused. And a request behind QUIT is taken, or refused, when the read that completes QUIT brings
  it too, and never looked at when it comes later.

## Model

| member | source | states |
|---|---|---|
| StoreRecovery.CrashKeepsAcknowledgedPrefix | crates/lsmkv/src/engine.rs:526-588 | wherever a run of appends, inserts, rotations, flush and compaction steps stops, what is left of the write history is a prefix in sequence order that holds every acknowledged write |
| StoreRecovery.AcknowledgedForever | crates/lsmkv/src/engine.rs:526-551 | an acknowledged write stays in the history through every later step, crash and reopen, any number of times |
| StoreRecovery.RecoveredStoreAnswers | crates/lsmkv/src/engine.rs:212-300 | once an opening finishes, every key reads as the newest write of the surviving history |
| StoreRecovery.ManifestNamesCompleteFiles | crates/lsmkv/src/engine.rs:818-839 | in every reachable state the manifest names only complete files with exactly the described content |
| StoreRecovery.NumberingSurvives | crates/lsmkv/src/engine.rs:244-277 | after any run and reopen the next file number is above every log and table, and the last sequence number is at least every one in a file, a log or the history |
| StoreRecovery.RebuiltOrderIsMemoryOrder | crates/lsmkv/src/engine.rs:918-935 | the level order rebuilt from file numbers and keys is the order memory had |
| StoreRecovery.OnlyInsertsChangeAnswers | crates/lsmkv/src/engine.rs:555-588 | appends, rotation, flush publication and compaction publication leave every answer unchanged; an insert adds exactly its own write |
| StoreSafety.ReadsRefineOneMap | crates/lsmkv/src/engine.rs:312-339 | in every reachable state a lookup through active, frozen, level 0 and deeper levels equals the newest applied write per key |
| StoreSafety.ReachableIsValid | crates/lsmkv/src/engine.rs:312-339 | the tables of every reachable store are in a state the layered read accepts |
| StoreSafety.GetAnywhere | crates/lsmkv/src/engine.rs:312-339 | the layered read, run in any reachable store, returns the newest applied write of the key |
| StoreBytes.ByteCrashIsCrash | crates/lsmkv/src/engine.rs:212-300 | whatever bytes a crash leaves of each log behind its flushed records, reading them back is a crash step of the store, and recovery trims each file to exactly the records read |
| StoreBytes.ByteCrashKeepsAcknowledged | crates/lsmkv/src/engine.rs:212-300 | after any run and any such bytes, the history read back is a prefix in sequence order with every acknowledged write |
| StoreBytes.GroupCommitLeaves | crates/lsmkv/src/wal.rs:344-453 | what a crash leaves of a group-commit log is what the store's crash allows, and every append that returned is among the flushed records an insert may make visible |
| StoreLog.MoveFollows | crates/lsmkv/src/engine.rs:526-551 | with store and log stepping together, every record the log encodes is an append the store allows, every flush a flush, every append that returned one whose insert the store allows, and every crash on bytes a crash |
| StoreLog.JointRunsAreStoreRuns | crates/lsmkv/src/engine.rs:526-588 | the store's side of every run of store and log together is a run of the store, whatever the log's threads do |
| StoreLog.CrashKeepsReturned | crates/lsmkv/src/wal.rs:146-192 | a crash anywhere in such a run, with whatever bytes of the current log survive, leaves a prefix of the history that holds every write the store acknowledged and every append the log returned |
| StoreSafety.StepKeeps | crates/lsmkv/src/engine.rs:526-839 | every step of the store, crash and reopening included, keeps the whole invariant |
| StoreSafety.RunHolds | crates/lsmkv/src/engine.rs:212-300 | the invariant holds in every state of every run |
| StoreReopen.ReopensExactlyWhenNotRefused | crates/lsmkv/src/engine.rs:212-300 | a stopped store can be opened again if and only if it has a manifest or holds no complete table |
| StoreReopen.FirstFlushCanLockTheStore | crates/lsmkv/src/engine.rs:625-674 | counterexample: a stop between the rename of the very first table and the first manifest leaves an acknowledged write in a store no opening accepts |
| StoreReopen.RefusedForever | crates/lsmkv/src/engine.rs:212-300 | once opening refuses a directory, no further attempt ever succeeds |
| StoreInvariant.AppendKeeps | crates/lsmkv/src/engine.rs:526-551 | appending a record to the log keeps the invariant |
| StoreInvariant.InsertKeeps | crates/lsmkv/src/engine.rs:526-551 | inserting an appended record into the active table keeps the invariant, in whatever order the inserts arrive |
| StoreInvariant.RotateSwapKeeps | crates/lsmkv/src/engine.rs:555-588 | freezing the active table under a fresh log keeps the invariant |
| StoreFlush.FlushCommitKeeps | crates/lsmkv/src/engine.rs:625-674 | the manifest write that names the flushed file keeps the invariant while a compaction is under way |
| StoreFlush.FlushPublishKeeps | crates/lsmkv/src/engine.rs:625-674 | swapping the frozen table for its file keeps the invariant |
| StoreFlush.FlushUnlinkKeeps | crates/lsmkv/src/engine.rs:625-674 | unlinking the logs one by one leaves an upward-closed set of records in the logs |
| StoreCompact.CompactCommitKeeps | crates/lsmkv/src/engine.rs:694-740 | committing a compaction planned on an older snapshot keeps the invariant, whatever was flushed in between |
| StoreCompact.CompactPublishKeeps | crates/lsmkv/src/engine.rs:694-740 | publishing the outputs in place of the inputs keeps the invariant |
| StoreCrash.CrashKeeps | crates/lsmkv/src/engine.rs:212-300 | losing memory and any unsynced suffix of the current log keeps the invariant |
| StoreCrash.FinishKeeps | crates/lsmkv/src/engine.rs:212-300 | replaying the leftover logs into one table over the manifest files keeps the invariant |
| Levels.FirstHitIsNewest | crates/lsmkv/src/engine.rs:312-339 | stopping at the first table that answers gives the newest version in any table |
| Levels.OrganizedIsUnique | crates/lsmkv/src/engine.rs:918-935 | a file set has one search order |
| Levels.OpenedIsOrganized | crates/lsmkv/src/engine.rs:918-935 | sorting the manifest files by level gives that order |
| Levels.FlushKeepsOrganized | crates/lsmkv/src/engine.rs:647-665 | a flushed file in front of level 0 keeps the order |
| Levels.CompactionKeepsOrganized | crates/lsmkv/src/engine.rs:165-179 | removing inputs and inserting sorted outputs keeps the order and the disjointness of deeper levels |
| EngineState.Covering | crates/lsmkv/src/engine.rs:184-195 | binary search finds a file whose range covers the key, or there is none |
| EngineState.CoveringHoldsTheKey | crates/lsmkv/src/engine.rs:184-195 | in a disjoint level only the covering file can hold the key |
| EngineState.LiveState.Get | crates/lsmkv/src/engine.rs:312-339 | the layered read returns the first hit along the search order |
| EngineState.OrganizedIsValid | crates/lsmkv/src/engine.rs:212-300 | a store whose levels are in search order is in a state the layered read accepts |
| EngineState.LiveState.Freeze | crates/lsmkv/src/engine.rs:555-588 | the active table moves to the front of the frozen ones and a fresh one takes its place |
| EngineState.LiveState.PublishFlush | crates/lsmkv/src/engine.rs:647-665 | the oldest frozen table is replaced by its file at the front of level 0, keeping the state searchable |
| EngineState.LiveState.Remove | crates/lsmkv/src/engine.rs:166-170 | consumed files leave every level in place |
| EngineState.LiveState.Insert | crates/lsmkv/src/engine.rs:173-179 | produced files join their level, sorted and disjoint if the files are |
| Compaction.OutsideTheHull | crates/lsmkv/src/compaction.rs:80-117 | a file of the output level that is not an input lies wholly to one side of all inputs |
| Compaction.OutputsApart | crates/lsmkv/src/engine.rs:743-783 | outputs never overlap a file that stays at their level |
| Compaction.DroppedTombstoneUncoversNothing | crates/lsmkv/src/compaction.rs:124-129 | a dropped tombstone hides no older value in any remaining file |
| Compaction.CompactionKeepsLayout | crates/lsmkv/src/engine.rs:694-740 | committing outputs against a file set grown by flushes keeps ranges exact, deeper levels disjoint and recency along the search order |
| Compaction.CompactionKeepsAnswers | crates/lsmkv/src/engine.rs:743-783 | replacing the inputs by the merged, purged, cut outputs leaves every answer unchanged |
| Merge.Merger.Pull | crates/lsmkv/src/compaction.rs:204-210 | a source's next entry becomes its head, or an unreadable one sets the failure slot |
| Merge.Merger.Next | crates/lsmkv/src/compaction.rs:216-236 | each call returns the newest version of the smallest key left and drops its older versions; a failure is reported once and ends the stream |
| Merge.Greatest | crates/lsmkv/src/compaction.rs:161-173 | the head popped is smallest in key, then newest, then first in source order |
| Merge.Collect | crates/lsmkv/src/compaction.rs:189-237 | the merge emits each key occurring anywhere once, in increasing order, with its newest version; with an unreadable source, an initial part of that |
| Cutting.WriteMerged | crates/lsmkv/src/engine.rs:743-783 | the output files hold exactly the kept entries in order, apart from each other, each cut right after the entry that reached the target |
| Planner.Plan | crates/lsmkv/src/compaction.rs:52-77 | None if no level is past its limit, else a level past its limit that no other exceeds in score |
| Planner.BudgetIsFull | crates/lsmkv/src/compaction.rs:44-46 | with fanout at least 2 the saturating budget reaches the 64-bit maximum by level 66 |
| Compactor.CompactOnce | crates/lsmkv/src/engine.rs:694-740 | one compaction yields outputs that satisfy everything the replacement needs |
| Compactor.MeasureDrops | crates/lsmkv/src/engine.rs:688-740 | every compaction strictly lowers the entries weighted by how far they can still sink |
| Compactor.CompactAll | crates/lsmkv/src/engine.rs:688-691 | the compact-until-done loop ends with level 0 under its trigger and every level within budget, changing no answer |
| SortedFileSize.FormatIsBounded | crates/lsmkv/src/sstable.rs:167-243 | the file format stays within the size bound the loop's termination relies on, however files are cut into blocks |
| SortedFileSize.CompactFiles | crates/lsmkv/src/engine.rs:688-691 | the same loop with the sizes this file format gives: it ends with every level within its limit and changes no answer |
| SortedFileTable.Writer.BytesWritten | crates/lsmkv/src/sstable.rs:211-213 | the size a compaction cuts its output on is that of the blocks closed so far |
| SkiplistSafety.RunHolds | crates/lsmkv/src/memtable/skiplist.rs:143-344 | the invariant holds in every state of every interleaving of inserts and lookups |
| SkiplistSafety.StepKeeps | crates/lsmkv/src/memtable/skiplist.rs:193-323 | every atomic step of an insert or a lookup keeps the invariant |
| SkiplistLinking.SwapLinkKeeps | crates/lsmkv/src/memtable/skiplist.rs:274-320 | a successful or failed compare-and-swap at any level keeps every level sorted and threaded |
| SkiplistSteps.ReserveTowerKeeps | crates/lsmkv/src/memtable/skiplist.rs:221-238 | reserving a tower by compare-and-swap keeps towers disjoint |
| SkiplistSafety.LookupsAreLinearizable | crates/lsmkv/src/memtable/skiplist.rs:325-344 | a lookup returns the newest version of its key linked at its last bottom-level link read |
| SkiplistSafety.OnlyBottomSwapsLink | crates/lsmkv/src/memtable/skiplist.rs:274-294 | the bottom level holds exactly the nodes whose compare-and-swap on it succeeded |
| SkiplistSafety.InsertsReportNewest | crates/lsmkv/src/memtable/skiplist.rs:288-294 | an insert reports true exactly when no newer version of its key was linked at its swap |
| SkiplistSafety.LevelsAreNested | crates/lsmkv/src/memtable/skiplist.rs:193-238 | upper levels are sorted sublists of lower ones, nothing is linked at or above top, towers share no slot |
| SkiplistSafety.ReadsStayInsideTowers | crates/lsmkv/src/memtable/skiplist.rs:143-190 | no step reads or swaps a level at or past a node's height, and no walk gets stuck |
| SkiplistProgress.FailedSwapHasAWinner | crates/lsmkv/src/memtable/skiplist.rs:269-320 | a compare-and-swap on a link fails only if, since its thread read that link, another thread's compare-and-swap on it succeeded |
| SkiplistProgress.StepLowers | crates/lsmkv/src/memtable/skiplist.rs:193-344 | every step of an insert or a lookup under way lowers one measure over all threads |
| SkiplistProgress.CallsReturn | crates/lsmkv/src/memtable/skiplist.rs:193-344 | however threads interleave, without new calls only a bounded number of steps is left, so no retry loop goes on forever |
| SkiplistProgress.NobodyWaits | crates/lsmkv/src/memtable/skiplist.rs:193-344 | a thread inside a call can always take its next step, whatever the others do, unless the link arena is used up |
| SkiplistConverge.QuietTableHoldsEverything | crates/lsmkv/src/memtable/skiplist.rs:248-323 | with no insert under way the table holds exactly the mutations it was given, in whatever order they arrived |
| SkiplistVisit.ForEach | crates/lsmkv/src/memtable/skiplist.rs:367-381 | a visit yields every key once, in increasing order, in its newest version |
| SkiplistVisit.Len | crates/lsmkv/src/memtable/skiplist.rs:348-361 | the length is the number of distinct keys |
| SkiplistVisit.ReachableIsWalkable | crates/lsmkv/src/memtable/skiplist.rs:348-381 | in every reachable state the bottom level can be walked from the head to its end |
| SkiplistVisit.ReportsAgree | crates/lsmkv/src/memtable/skiplist.rs:248-323 | every insert reports what an ordered map reports that takes the mutations in the order they are linked |
| SkiplistVisit.TablesAgree | crates/lsmkv/src/memtable/skiplist.rs:325-381 | after any run with no insert under way, the skiplist and an ordered map that took the same mutations in any order agree on the visit, the length and every lookup |
| Memtable.BTree.Insert | crates/lsmkv/src/memtable/btree.rs:54-71 | an insert keeps the newer version, reports whether it is newer than every version of its key so far, and keeps the byte count equal to the sum over what is held |
| Memtable.BTree.Get | crates/lsmkv/src/memtable/btree.rs:76-85 | a lookup answers with the newest version inserted |
| Memtable.BTree.Len | crates/lsmkv/src/memtable/btree.rs:90-92 | the length is the number of distinct keys inserted |
| Memtable.BTree.ForEach | crates/lsmkv/src/memtable/btree.rs:107-113 | a visit yields the newest version of every key in increasing order |
| Memtable.SameMutationsSameTable | crates/lsmkv/src/memtable/btree.rs:54-71 | tables that took the same mutations in any order hold the same entries |
| GroupCommitSafety.LogIsInOrder | crates/lsmkv/src/wal.rs:344-453 | until a write fails, file followed by buffer is the encodings of all records in sequence order, and durable <= synced <= written <= last number |
| GroupCommitSafety.AcknowledgedIsDurable | crates/lsmkv/src/wal.rs:344-415 | a number returned under Always or Group before any write failed is on the device with every earlier one, then and ever after |
| GroupCommitSafety.CrashKeepsAcknowledged | crates/lsmkv/src/wal.rs:146-192 | whatever a crash leaves of the unflushed bytes, reopening the log returns the old records and the appended ones up to some point at or past every acknowledged one |
| GroupCommitFailure.AcknowledgedAppendCanBeLost | crates/lsmkv/src/wal.rs:344-376 | counterexample: an append past its flag test when another one's write fails is written, flushed and returned, and recovery finds nothing |
| GroupCommitDamage.MarkExists | crates/lsmkv/src/wal.rs:430-453 | a failed write leaves the records up to some number whole in the file, and the next one not |
| GroupCommitDamage.BelowTheMarkIsDurable | crates/lsmkv/src/wal.rs:344-453 | a number returned at any time, before or after a failed write, that is not above the last record that write left whole is on the device with every earlier one, then and ever after |
| GroupCommitDamage.NobodyPastTheTestLosesNothing | crates/lsmkv/src/wal.rs:344-376 | if no append stands between the flag test and the append lock when the first write fails, every number ever returned is on the device, then and ever after |
| GroupCommitLosses.TalliesStep | crates/lsmkv/src/wal.rs:344-453 | over every step, failed writes included, each number that left the buffer is either in a record whole in the file or dropped, and what lies behind the last flush is above every flushed number |
| GroupCommitLosses.CrashAfterFailures | crates/lsmkv/src/wal.rs:146-192 | after any number of failed writes, recovery returns a prefix of the records whole in the file up to the first unreadable spot, and a returned number is among them if and only if its record left the buffer by then and no failed write dropped it |
| GroupCommitLosses.FirstFailureDrops | crates/lsmkv/src/wal.rs:430-453 | the first failed write leaves the records up to some number whole and drops exactly those above it that were encoded by then |
| GroupCommitSafety.StepKeeps | crates/lsmkv/src/wal.rs:344-453 | every step, failed writes and flushes included, keeps the invariant |
| GroupCommitProgress.RoundsAreExclusive | crates/lsmkv/src/wal.rs:380-427 | at most one thread owns a flush round, a thread waits only while one is in progress, and no thread holds both locks |
| GroupCommitProgress.NeverStuck | crates/lsmkv/src/wal.rs:380-427 | as long as some call has not returned, some thread can step, even when writes and flushes fail |
| GroupCommitProgress.CallsReturn | crates/lsmkv/src/wal.rs:344-453 | with no new call and no spurious wake-up, a run has a bounded number of steps left, so every call returns |
| WalRecord.LogBuffer.Encode | crates/lsmkv/src/wal/record.rs:71-78 | a record is appended whole, or the buffer is left as it was if a length does not fit |
| WalRecord.LogBuffer.EncodeAt | crates/lsmkv/src/wal/record.rs:80-109 | the header patched in place carries the length and the checksum of the payload |
| WalRecord.DecodesPayload | crates/lsmkv/src/wal/record.rs:113-127 | decoding a version's payload gives it back |
| WalRecord.DecodedIsPayload | crates/lsmkv/src/wal/record.rs:113-127 | whatever decodes is the payload of what it decodes to |
| WalReplay.Replay.Next | crates/lsmkv/src/wal/reader.rs:152-165 | each call delivers the next intact record, or ends the iteration for good |
| WalReplay.Replay.ReadOne | crates/lsmkv/src/wal/reader.rs:101-146 | a record is read only if it is whole and its checksum matches; otherwise the offset is marked torn |
| WalReplay.Recover | crates/lsmkv/src/wal.rs:146-192 | opening a log returns its intact records, cuts the torn tail or writes a fresh header, and continues from the highest number |
| WalReplay.CutLogRecovers | crates/lsmkv/src/wal/reader.rs:101-146 | a log cut at any byte recovers to exactly the records that fit whole, on disk and in memory |
| WalReplay.RecoverThenAppend | crates/lsmkv/src/wal.rs:146-192 | recovering a cut log and appending makes a later replay return the surviving prefix followed by the new records |
| Checksum.BuildTables | crates/lsmkv/src/checksum.rs:24-57 | table k holds what each byte turns into after k more bytes |
| Checksum.Update | crates/lsmkv/src/checksum.rs:59-93 | the slice-by-eight loop computes the bit-by-bit register for byte strings of every length |
| Checksum.Crc32 | crates/lsmkv/src/checksum.rs:96-98 | the checksum is the bit-by-bit reflected CRC-32 |
| Checksum.Crc32Parts | crates/lsmkv/src/checksum.rs:102-104 | the checksum of two parts is that of their concatenation |
| Checksum.ShiftsAreLinear | crates/lsmkv/src/checksum.rs:63-84 | any number of register steps is linear over xor |
| Checksum.EightBytes | crates/lsmkv/src/checksum.rs:63-84 | eight bytes amount to two words shifted by 64 and 32 steps |
| SortedFileBlocks.BlocksHoldAll | crates/lsmkv/src/sstable.rs:127-159 | cut where the block size says, the blocks of a file hold its entries in order and none is empty |
| SortedFileTable.Writer.Add | crates/lsmkv/src/sstable.rs:127-159 | an entry joins the open block, which closes past the block size; it is refused if and only if one of its lengths, or the closed block's, does not fit |
| SortedFileTable.Writer.CloseBlock | crates/lsmkv/src/sstable.rs:215-235 | the open block joins the file with its checksum and an index reference to its place |
| SortedFileTable.Writer.BuildIndex | crates/lsmkv/src/sstable.rs:177-186 | the index lists the key range and every block, and is refused if and only if one of those keys does not fit |
| SortedFileTable.Writer.Finish | crates/lsmkv/src/sstable.rs:167-208 | finishing succeeds if and only if open block, filter and index fit, and then the bytes are the image of the entries added, with a filter that answers for all of them and every offset within 64 bits |
| SortedFileScan.Open | crates/lsmkv/src/sstable.rs:336-393 | opening follows footer, index and filter, refusing whatever does not check out |
| SortedFileScan.Get | crates/lsmkv/src/sstable.rs:401-422 | over an index in order, a lookup does the range check, the filter, the halving of the index and one block scan |
| SortedFileScan.PartitionPoint | crates/lsmkv/src/sstable.rs:401-422 | halving an index in order counts the blocks that start at or before the key |
| SortedFileScan.Search | crates/lsmkv/src/sstable.rs:534-552 | a block walk stops at the key or the first key past it |
| SortedFileScan.ParseBlocks | crates/lsmkv/src/sstable.rs:495-510 | the index loop reads every block reference or refuses the index |
| SortedFileScan.Scan.Next | crates/lsmkv/src/sstable.rs:273-308 | a scan delivers the records in order, and an error once |
| SortedFileReads.LookupRefinesList | crates/lsmkv/src/sstable.rs:336-422 | for every strictly increasing list that fits its fields and every key, the opened file answers as the list |
| SortedFileScan.ScanYieldsList | crates/lsmkv/src/sstable.rs:270-309 | a scan of the opened file yields exactly the list |
| SortedFileScan.WriteList | crates/lsmkv/src/sstable.rs:127-208 | a file comes out if and only if the list's fields, blocks, filter and index each fit 32 bits, and then it has the size computed from the list and serves it: every lookup and the scan |
| SortedFileBlocks.OffsetsFit | crates/lsmkv/src/sstable.rs:167-243 | those 32-bit checks keep the unchecked 64-bit offsets and the entry count in range |
| SortedFileSize.SmallListsAreWritable | crates/lsmkv/src/sstable.rs:127-208 | every list whose record bytes are small enough together is written |
| SortedFileScan.ScanAll | crates/lsmkv/src/sstable.rs:270-309 | collecting a scan gives the list it stands for, or nothing if an entry cannot be read |
| SortedFileReads.OnlyCandidate | crates/lsmkv/src/sstable.rs:409-418 | the last block that starts at or before a key is the only one that can hold it |
| Bloom.Build | crates/lsmkv/src/bloom.rs:34-51 | the filter answers for every hash it was built from |
| Bloom.TestHash | crates/lsmkv/src/bloom.rs:72-83 | a filter says yes exactly when every probed bit is set |
| Bloom.DecodesStored | crates/lsmkv/src/bloom.rs:56-64 | a stored filter reads back as itself |
| ManifestCodec.Encode | crates/lsmkv/src/manifest.rs:90-115 | the loop produces the encoding of the snapshot, or nothing if a length does not fit |
| ManifestCodec.DecodesEncoding | crates/lsmkv/src/manifest.rs:117-149 | decoding an encoding gives the snapshot back |
| ManifestCodec.DecodedIsEncoding | crates/lsmkv/src/manifest.rs:117-149 | whatever decodes is the encoding of what it decodes to |
| Coding.LeRoundTrip | crates/lsmkv/src/coding.rs:39-59 | an integer that fits its width reads back from its little-endian bytes |
| Coding.TakesField | crates/lsmkv/src/coding.rs:30-33 | a length-prefixed field is taken off the front exactly |
| Coding.FieldTaken | crates/lsmkv/src/coding.rs:30-33 | what is taken is exactly what its encoding puts back |
| Resp.ReadArray | crates/lsmkv-server/src/resp.rs:153-185 | the argument loop computes the array parse |
| Resp.ParseStays | crates/lsmkv-server/src/resp.rs:142-239 | a request read stays read and an array refused stays refused whatever bytes follow; an inline refusal only gives way to a line past the limit |
| Resp.CutKeepsRequest | crates/lsmkv-server/src/resp.rs:142-239 | a request is read as soon as its own bytes are there |
| RespBatch.ParsesEncoded | crates/lsmkv-server/src/resp.rs:153-212 | an encoded array command within the limits, followed by anything, parses to that command and its exact length |
| RespBatch.PrefixesAreIncomplete | crates/lsmkv-server/src/resp.rs:153-212 | every strict prefix of an encoded command is incomplete |
| RespBatch.ParsesInline | crates/lsmkv-server/src/resp.rs:215-239 | a line of words parses to the command it spells and its exact length |
| RespBatch.Connection.TakeBatch | crates/lsmkv-server/src/server.rs:102-127 | every complete request is taken off the buffer and its bytes are dropped |
| RespBatch.TakeAllExtends | crates/lsmkv-server/src/server.rs:102-127 | for streams whose inline lines fit, a batch taken from a prefix stays, and the rest of the stream picks up where it stopped |
| RespServe.ServeAll | crates/lsmkv-server/src/server.rs:54-93 | the reading loop runs the commands of its batches in order, takes their bytes off the stream, and ends at the first error or QUIT |
| RespServe.SplitsDoNotMatter | crates/lsmkv-server/src/server.rs:54-127 | for a steady stream the commands, the bytes consumed and the error are the same under every split into reads of 1 byte to 16 KiB: all up to the first error, the first line past the limit or the first QUIT |
| RespServe.Diverges | crates/lsmkv-server/src/server.rs:54-127 | a stream that is not steady has two such splits with different outcomes |
| RespServe.SplitsAgreeExactlyWhenSteady | crates/lsmkv-server/src/server.rs:54-127 | all splits agree if and only if no completed inline line ends past the limit by less than one read, and no request or error completes within one read behind the first QUIT |
| RespServe.ALongLineIsReadOrRefused | crates/lsmkv-server/src/resp.rs:215-222 | counterexample: four full reads of letters, then one more with its line end, give a command; the same bytes with the line end in a read of its own give a protocol error |
| RespServe.ACommandBehindQuitIsTakenOrNot | crates/lsmkv-server/src/server.rs:69-92 | counterexample: PING behind QUIT is taken in the same read and never in the next |

## Left out

- Runs of the whole store in which a log write or a log unlink fails: the store's crash theorem is for runs without them, as `GroupCommitFailure.AcknowledgedAppendCanBeLost` shows it must be; `GroupCommitDamage` and `GroupCommitLosses` say what the log alone keeps then.
- GroupCommitLosses.CrashAfterFailures: bytes left by a failed write that happen to read as a record with a matching checksum are not covered.
- The `Interval` policy across rotated logs: a prefix across logs is not promised there.
- Loss of directory entries on power failure, and a second power failure taking back bytes that survived a first crash: a crash here stops the process and keeps completed renames, creations and unlinks.
- StoreLog.CrashKeepsReturned: runs in which every log write and flush succeeds and sequence numbers stay within 64 bits; under the `Interval` policy, whose appends acknowledge nothing, no write becomes visible there.
- StoreCompact.CompactPlanKeeps: a compaction may be planned for any level that has files, not only for the one `Planner.Plan` would choose, so the store's runs include every run of the engine.
- Compactor.CompactAll: the summed weight of all entries, a bound on the size of any files they can end up in, is taken to fit 64 bits, so that the engine's unchecked sums of file sizes never wrap; that is more than the file sizes at the start fitting. A finished file's size is a parameter that `SortedFileSize.FormatIsBounded` bounds.
- SkiplistSafety.LookupsAreLinearizable: arena exhaustion is not modelled; a step that would need a node or a slot past the arena does not happen, and tower heights are arbitrary within their range. Spurious failures of a weak compare-and-swap are not steps.
- Weak memory orderings and the write-once cell of a node: publication is one atomic step.
- Floating-point rounding of level scores: scores are exact ratios.
- Hash quality and false-positive rates of the filter; the skiplist's memory-pressure estimate; block-read, write and flush counters.
- RespBatch.ParsesEncoded: command names are upper-cased byte by byte in the ASCII range; lossy UTF-8 decoding and Unicode upper-casing are not modelled.
- Encoding of replies, the commands themselves, networking, thread spawning, timeouts, background error slots, configuration parsing and error texts: input and output, or easy.
