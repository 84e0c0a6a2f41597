# VeriStore in Dafny

Models of the four parts of VeriStore that carry its guarantees, with proofs over every input, every
run and every interleaving:

- **Raft** (`Raft*.dfy`): elections, log replication, commit by sorted match indices and the apply
  loop as a step system over any number of nodes, and the node itself as a class. Timeouts, lost
  messages, stale requests still held in a loop's local variables and step-downs are steps or state.
- **The MVCC LSM engine** (`Mvcc`, `Lsm*`, `Kv*`, `MemTable`, `TableNames`, `Compactor`, `Table*`,
  `BloomFilter`, `SSTable*`): memtable, single immutable slot, background flush worker, manifest and
  pairwise compaction as a step system in which the worker may run between any two file operations of
  the store; beside it the text format of a table, and reading it through Bloom filter, sparse index,
  seek and early stop.
- **The write-ahead log** (`Registers`, `Crc*`, `Framing`, `Wal*`): binary records, the table-driven
  CRC-32, group commit, failed and repeated flushes, crashes at any byte, replay.
- **The object store** (`Object*.dfy`): key and metadata encodings, chunked objects with metadata as the
  commit point, deletion and garbage collection, each stopped after any of its writes; and all of it
  over the log, for a crash at any byte.

Where the program works by changing fields or by loops the model has classes and methods with loops,
proved against the functions that the theorems speak about.

## What the proofs found

- Raft safety does not need an odd number of nodes. The element `size / 2` of the sorted match values
  stands for a strict majority exactly for odd sizes (`QuorumIsMajorityIff`), but `ceil(n/2)`
  acknowledgements always meet the `floor(n/2) + 1` votes of a later leader.
- A node can become leader at all exactly when there is a second one (`CanLeadIff`): a lone node asks
  nobody and so never counts its own vote.
- One failed flush is final: the worker drops the task, the slot stays taken, and no table is ever added
  again, while what the worker had is hidden from reads (`FailedFlushSticks`).
- A deleted key can be read: a delete that fills the memtable sends its tombstone to the worker, and a
  table with the value answers (`DeletedKeyRead`). `DeleteReadsIff` and `PutReadsIff` give the exact
  condition for reading one's own write.
- `get_at` does not see the newest version while a flush holds it: the slot has a moved-from, empty
  map, so a version with the worker is in no layer that is read. `FlushHidesWrite` gives a family of
  inputs and `ReadExactIff` the exact condition.
- The memtable answers with the last version pushed, a table with the largest timestamp. Two failed
  flushes of one buffer can leave an older write of a key behind a newer one on the log, and a store
  opened on it answers with the older value until the memtable is flushed; from then on `get_at` gives
  the newer and `get` still the older (`StaleSession`, `StaleRun`). The two rules agree at all times
  exactly when no version is followed by an older one without being pushed again behind it
  (`LatestIsBestAlwaysIff`, `FlushKeepsReadsIff`, `OpenedExactIff`); logs on which no crash came upon
  repeated records are like that (`CalmSettles`).
- A flush that fails after writing something keeps its buffer, and `open` never cuts off a torn tail.
  A log can go on safely exactly when replay accepts its file to the end (`StoreSafeIffAccepted`,
  `NextWriteSafeIff`); `TornRun` reaches the other case, in which a write whose flush returned true is
  lost. Whole records left by a failed sync do no harm once the repeated flush succeeds, but a crash in
  the middle of the repetition can show one key older than another. A given crash leaves a prefix exactly
  when no operation of the buffer can be read behind one that cannot (`RecoversPrefixIff`), and every
  crash during the next flush does exactly when what earlier ones left is orderly (`RetryRecoversIff`,
  `DisorderRun`); each key by itself always reads as some prefix makes it read (`RecoversPerKey`).
- `flush` on an empty buffer returns true without a sync, so operations found on opening and never
  synced can still be lost. `FlushedSurvives` gives the exact condition, `UnsyncedRun` a run.
- `GarbageCollectChunks` counts only deletions that report success, and `del` erases its key and reports
  failure when the memtable is full and the slot taken. The count is exact precisely when there is room
  for the tombstones (`CountIsExactIff`); after two large puts of one object, which leave garbage, it is 0
  (`RemovedUncounted`, `LargePutsHappen`).
- Two puts in the same millisecond to the same object get the same object id, and then an interrupted
  overwrite shows a mix of old and new bytes (`OverwriteAtomicIff`, `SameMillisecondNotAtomic`).
- Objects of 2^32 chunks or more are truncated (`StoredAllIff`). Objects of two buckets share a metadata
  key exactly when one bucket's name is the other's followed by a colon and more (`BucketsMeetIff`).

## Assumptions

- Raft: one RPC exchange (request, handler, handling of the answer) is one step, as the transport is
  a synchronous call under one mutex. The two critical sections at the start of a proposal are one
  step and a node has one proposal at a time. A heartbeat exchange is atomic as a whole. Nodes do not
  restart. The peers of a node are all the other nodes, each once.
- LSM: a session opened on an empty manifest without a snapshot file, on any log. What is said about the
  contents of tables needs that a number stands for one version of a key (`Numbered`), which clean logs
  always have (`SessionNumbered`). A failed table write may leave anything in its file; a rename is
  atomic. In the protocol a file holds the entries of its table; that the text stands
  for these entries is proved separately (`SSTableReader.GetAt`, `CompactOldest`, `MemTables.GetAt`).
- Table text: keys are not empty and have no white space, values are one line and do not start with
  white space; without that the format does not read back (`OneRecordIff`).
- Log: keys and values shorter than 2^32 bytes and sequence numbers below 2^64 (`Fits`), as the header
  has no room for more. What a crash leaves is a prefix of the file that contains the synced part. Runs
  are clean: no flush writes behind bytes that replay does not accept, which `NextWriteSafeIff` shows to
  be necessary.
- Object store: tab-free texts (`Plain`), and a clock that moves between two puts wherever a run is
  concerned. Clock readings and the etag are parameters. The store's log accepts every record, and no
  other client reads through `get_at` while a collection runs.
- Sequence numbers, terms and indices are unbounded unless a field width matters to the result.

## Model

| member | source | states |
|---|---|---|
| `RaftSafety.StateMachineSafety` | src/raft.cpp:493-519 | in every run, for every cluster size, the entry sequences that any two nodes have applied at any two moments are prefixes of one another |
| `RaftSafety.CommittedAgree` | src/raft.cpp:57-77 | what any two nodes have committed, at any two moments, is one sequence cut at two places |
| `RaftSafety.CommittedInLaterLeaders` | src/raft.cpp:50-77 | leader completeness: what any node has committed is in the log of every leader of a later term, whichever moment comes first |
| `RaftHistory.LeaderCompleteness` | src/raft.cpp:138-162 | an entry acknowledged by a commit quorum in its own term is in the start log of every later elected leader, by strong induction over terms |
| `RaftSafety.ProposalNeverLost` | src/raft.cpp:217-270 | a proposal whose call returned true stays at its index in the log of every leader of a later term |
| `RaftSafety.ProposalWins` | src/raft.cpp:217-270 | whoever commits the index of such a proposal has committed exactly that proposal |
| `RaftOrigin.EntriesProposed` | src/raft.cpp:217-231 | every entry in any log, every applied one and every acknowledged one was proposed by a client to the leader of its term with that operation, key and value, a deletion with an empty value |
| `RaftOrigin.ProposeAppends` | src/raft.cpp:217-231 | a proposal to an idle leader appends exactly the client's entry and starts replicating it |
| `RaftElection.ElectionWins` | src/raft.cpp:373-438 | from any state a node that nobody is ahead of becomes leader of the next term by its timeout and half the cluster's answers |
| `RaftElection.FirstElection` | src/raft.cpp:373-438 | in a new cluster of two or more nodes every node becomes leader of term 1 that way |
| `RaftElection.CanLeadIff` | src/raft.cpp:409-437 | some run makes a node leader if and only if the cluster has a second node |
| `RaftLoops.LaterTermWins` | src/raft.cpp:262-269 | a candidate, leader or proposer that hears of a later term, in any of its loops, becomes a follower of that term without a vote |
| `RaftLoops.AskedAllEnds` | src/raft.cpp:412-437 | whatever is delivered, an election is over once every peer has been asked |
| `RaftLoops.ProposalEnds` | src/raft.cpp:257-294 | every step of a proposal brings it nearer to its end, and it returns true only as its last one |
| `RaftProgress.ProposalCommits` | src/raft.cpp:440-519 | in every reachable state a proposal to an idle leader that nobody has outrun can be brought into every log, committed and applied on every node, and its call returns true |
| `RaftProgress.FirstProposal` | src/raft.cpp:217-294 | from the start of a cluster of two or more nodes a client's operation reaches every state machine |
| `RaftReceipt.ProposalReturns` | src/raft.cpp:233-294 | behind a log that every follower has, half the cluster's answers and one closing round return true, and a majority has the entry and the leader's commit index |
| `RaftSafety.CommittedStays` | src/raft.cpp:183-208 | unconditional truncation never removes a committed entry: a node's committed and applied prefixes only grow |
| `RaftSafety.CommitInRange` | src/raft.cpp:493-507 | last_applied <= commit_index <= log size always holds, and what was applied is that prefix of the log |
| `RaftSafety.LogMatching` | src/raft.cpp:182-202 | two logs with the same term at the same index are equal up to it, at any two moments of a run |
| `RaftSafety.ElectionSafety` | src/raft.cpp:399-435 | at most one node is ever leader in a term, for any cluster size and interleaving |
| `RaftSafety.RunAdvances` | src/raft.cpp:68-73 | no node's commit or applied index ever falls |
| `RaftSteps.StepKeepsInv` | src/raft.cpp:373-519 | every step of every loop and handler keeps the cluster invariant and only extends the history |
| `RaftRepair.RepairConverges` | src/raft.cpp:469-486 | in every reachable state 1 <= next_index <= log size + 1, and at most next_index delivered heartbeats make the leader's log a prefix of the follower's |
| `RaftRepair.BeatNodes` | src/raft.cpp:111-134 | one delivered heartbeat hands over the whole log or moves next_index back by exactly one |
| `RaftNodeClass.MedianIsQuorumIndex` | src/raft.cpp:57-68 | the element size / 2 of the sorted match values is the largest index that a commit quorum has reached |
| `RaftNodeClass.OddQuorumIsMajority` | src/raft.cpp:65-68 | for odd sizes that index is the largest a strict majority has reached |
| `RaftNodeClass.QuorumIsMajorityIff` | src/raft.cpp:65-68 | for every cluster size: the quorum index has always been reached by a strict majority if and only if the size is odd |
| `RaftNodeClass.SortValues` | src/raft.cpp:65-66 | the result is ascending and a permutation |
| `RaftNodeClass.RaftNode.AdvanceCommitIndexLocked` | src/raft.cpp:57-77 | collecting, sorting and picking the median sets commit_index to the counted quorum index when that entry is of the current term |
| `RaftNodeClass.RaftNode.OnRequestVote` | src/raft.cpp:138-162 | a vote is granted exactly in a term not over, to the first candidate or the same again, whose log is at least as up to date; new state and answer are those of the step system |
| `RaftNodeClass.RaftNode.OnAppendEntries` | src/raft.cpp:164-213 | success exactly on a matching entry in a term not over, then truncation, append, and the leader's commit index capped by the own last index; new state and answer are those of the step system |
| `RaftNodeClass.RaftNode.ProposePutLocked` | src/raft.cpp:220-231 | a leader, and only a leader, appends the put of that key and value in its term |
| `RaftNodeClass.RaftNode.ProposeDelLocked` | src/raft.cpp:298-306 | a leader, and only a leader, appends the deletion of that key in its term |
| `RaftNodeClass.RaftNode.BuildAppendEntries` | src/raft.cpp:111-134 | the request is the step system's, with the log from next_index on |
| `RaftNodeClass.RaftNode.OnHeartbeatAnswer` | src/raft.cpp:462-489 | match and next index, step-down and commit as in the step system |
| `RaftNodeClass.RaftNode.BecomeLeaderLocked` | src/raft.cpp:97-109 | next index of every peer is the one behind the log, match index 0 |
| `RaftNodeClass.RaftNode.BecomeCandidateLocked` | src/raft.cpp:88-95 | term raised by one and the own vote cast |
| `RaftNodeClass.RaftNode.BecomeFollowerLocked` | src/raft.cpp:79-86 | role and term are set and the vote is cleared |
| `RaftNodeClass.RaftNode.TakeNextToApply` | src/raft.cpp:500-508 | the entry after last_applied is taken exactly when one is committed |
| `LsmSafety.ReadExactIff` | src/kv_store.cpp:277-330 | in every reachable state a read sees the newest version not after its time if and only if the memtable's visible versions of the key are settled, or it has none and neither has the outstanding flush |
| `LsmSafety.OpenedExactIff` | src/kv_store.cpp:64-82 | a store opened on any log sees the newest version of every key at every time if and only if the log is settled |
| `LsmFlush.FlushKeepsReadsIff` | src/kv_store.cpp:122-192 | reads of a key see the same versions before and after the refilled memtable becomes a table, at all times, if and only if the key's versions on the log are settled |
| `LsmFlush.RoundSees` | src/flush_worker.cpp:76-130 | after a filling write, the worker's round and a drain, a read sees the newest version on the log and the latest-value map has the last one |
| `LsmSafety.GetAnswersSeen` | src/kv_store.cpp:277-330 | get_at answers with the value of the version it sees, nothing for a tombstone |
| `LsmSafety.ReadExactWhenDrained` | src/kv_store.cpp:277-330 | on a settled log, with no flush outstanding, every read is the newest version with timestamp <= t, nothing if that is a tombstone or there is none |
| `LsmWrites.HistoryIsJournal` | src/kv_store.cpp:236-364 | the history of a session is the log's writes and then one per accepted call, the value of a put or a tombstone for the delete of a key that has a value, numbered in order; the latest-value map gives the last of them |
| `LsmWrites.DeleteReadsIff` | src/kv_store.cpp:332-364 | a logged delete of a present key removes it from the map, and get_at finds nothing from then on if and only if the tombstone stays in the memtable or no table has a value |
| `LsmWrites.PutReadsIff` | src/kv_store.cpp:236-268 | a logged put is in the map, and get_at gives it under the same condition |
| `LsmWrites.DeletedKeyRead` | src/kv_store.cpp:122-157 | a reachable store in which a deleted key is read |
| `LsmCompaction.CompactionCompletes` | src/kv_store.cpp:578-640 | in every session a due compaction whose file operations succeed puts one table in the place of the two oldest, in the list, the manifest and on disk |
| `LsmCompaction.FailedFlushSticks` | src/flush_worker.cpp:96-122 | after a failed flush, in every continuation, the slot stays taken, no table is added, and what the worker had is hidden from reads that the memtable does not answer |
| `LsmSafety.FlushHidesWrite` | src/kv_store.cpp:122-157 | a value that fills the memtable is unreadable until its flush is drained |
| `LsmSafety.LatestExact` | src/kv_store.cpp:270-275 | whatever the log held, the latest-value map answers with the last write of the key |
| `LsmSafety.TimestampsRise` | src/kv_store.cpp:159-192 | timestamps rise along the list of tables |
| `LsmSafety.TablesBelowMemtable` | src/kv_store.cpp:159-192 | in every reachable state the timestamps of every listed table stay below the memtable's |
| `LsmSafety.FlushCompactionExclusion` | src/flush_worker.cpp:76-130 | at most one flush is queued, running or undrained, none while a compaction runs, and at most three tables remain while compactions succeed |
| `LsmSafety.CrashAtomic` | src/kv_store.cpp:578-640 | stopping between any two file operations leaves a manifest whose files exist and answer every key and time as before; only the worker's append changes an answer and it loses none |
| `LsmSafety.DiskIsPrefix` | src/manifest.cpp:20-105 | in every state the tables of the manifest answer exactly for a prefix of the history, and with no flush outstanding the memtable holds exactly the rest |
| `LsmSteps.StepKeepsInv` | src/kv_store.cpp:122-192 | every step of store and worker keeps the cut of the history into layers and never loses a durable write |
| `LsmInvariant.TablesReadHistory` | src/kv_store.cpp:310-327 | reading tables newest first is reading their segments as one history |
| `KvStores.KVStore.Put` | src/kv_store.cpp:236-268 | a logged put is in the latest-value map and at the end of the history; the fields follow the protocol's put, including the hand-over of the memtable |
| `KvStores.KVStore.Del` | src/kv_store.cpp:332-364 | a logged delete of a present key leaves the latest-value map and adds a tombstone to the history; the fields follow the protocol's delete; the result is true exactly when the key was there, the log took the record and answered, and the memtable had room or the slot was free |
| `KvStores.KVStore.MaybeFlushMemtable` | src/kv_store.cpp:122-157 | the memtable becomes a task exactly when it is large enough and the slot is free |
| `KvStores.KVStore.DrainCompletedFlushes` | src/kv_store.cpp:159-181 | the loop polls until nothing is left and says whether a table was added |
| `KvLoads.DelLoads` | src/kv_store.cpp:332-364 | a delete loads memtable and slot as the size rule says |
| `KvLoads.PutLoads` | src/kv_store.cpp:236-268 | a put loads memtable and slot as the size rule says |
| `KvLoads.AllCountedIff` | src/kv_store.cpp:350-361 | for any sequence of deletions and any answers of the log: all report success if and only if there is room for their tombstones and the log answers |
| `KvLoads.NoneCounted` | src/kv_store.cpp:350-353 | behind a full memtable and a taken slot no deletion reports success |
| `KvLoads.TwoWritesFill` | src/kv_store.cpp:122-157 | two large writes reach that state |
| `MemTables.GetAt` | src/kv_store.cpp:277-330 | the read over memtable, slot and table text files is the read of the protocol model |
| `MemTables.ReadTables` | src/kv_store.cpp:310-327 | the loop over the paths, newest first, stops at the first table that knows the key |
| `MemTables.WriteFile` | src/flush_worker.cpp:90-103 | writing a flushed memtable adds a readable file and keeps the listed ones readable |
| `MemTables.CompactOldest` | src/kv_store.cpp:607-640 | merging the two oldest files writes a readable file of a compaction of their tables and keeps the rest of the list readable |
| `MemTables.LookupEntries` | src/kv_store.cpp:194-221 | the backward scan finds the last pushed version that is not too new |
| `MemTables.MemTable.Put` | src/memtable.cpp:8-23 | one version is pushed and the size grows by what it takes |
| `MemTables.MemTable.Del` | src/memtable.cpp:25-36 | one tombstone is pushed and the size grows by what it takes |
| `MemTables.MemTable.TakeEntries` | src/memtable.cpp:47-56 | all entries are handed over and none kept |
| `Mvcc.NewestIsVisible` | src/memtable.cpp:58-85 | the backward scan gives the newest version not after t, nothing exactly when there is none |
| `Mvcc.LatestIsBestAlwaysIff` | src/memtable.cpp:58-85 | the version last pushed and the version with the largest timestamp are the same at all times if and only if every version that an older one follows is pushed again behind it |
| `Mvcc.LatestIsBestIff` | src/sstable_reader.cpp:99-157 | the same at one time, among the versions visible then |
| `Mvcc.BestIsNewest` | src/sstable_reader.cpp:99-157 | the table's forward scan and the memtable's backward scan agree on rising versions |
| `TableNames.FreshOutput` | src/kv_store.cpp:590-603 | the loop for an unused output name ends for every list of paths, at the first unused id |
| `TableNames.NextNameFresh` | src/kv_store.cpp:139-142 | no table so far has the name of the next id |
| `Compactor.MergeKeepsReads` | src/compactor.cpp:70-93 | sorting and removing duplicates loses no version and every read sees what it saw in all inputs together |
| `Compactor.CompactionConcatenates` | src/compactor.cpp:57-96 | when the second table is newer throughout, compaction is concatenation of the two histories |
| `Compactor.SortVersions` | src/compactor.cpp:72-80 | a sorted permutation by timestamp |
| `Compactor.EraseDuplicates` | src/compactor.cpp:82-92 | the first of every run of equal timestamps is kept |
| `Compactor.MergeAll` | src/compactor.cpp:70-93 | every key's versions are replaced by a sort without duplicates |
| `SSTableFiles.SSTableReader.GetAt` | src/sstable_reader.cpp:64-157 | through filter, sparse index of any stride, seek and early stop, a written table answers every key and time as its entries do |
| `SSTableFiles.SSTableReader.constructor` | src/sstable_reader.cpp:8-62 | the index is that of the file and the filter has every key of it |
| `SSTableFiles.SSTableReader.BuildBloomFilter` | src/sstable_reader.cpp:35-62 | every key that a line of the file starts with is in the filter |
| `SSTableFiles.ScanFrom` | src/sstable_reader.cpp:92-157 | the loop computes the scan from the offset, stopping at the first larger key |
| `SSTableFiles.IndexedAnswers` | src/sstable_reader.cpp:78-157 | scanning from the indexed offset gives the lookup over all versions of the key |
| `SSTableFiles.AbsentAnswers` | src/sstable_reader.cpp:70-77 | a key that no line starts with has no visible version |
| `SSTable.ScanRecords` | src/sstable_reader.cpp:104-157 | scanning the text from record i is scanning the records from i |
| `SSTable.StartSkipsNothing` | src/sstable_index.cpp:57-73 | the offset found in the index is that of a record before which the key does not occur |
| `SSTable.BuildRecords` | src/sstable_index.cpp:20-54 | every indexed offset is where the group of its key starts, whatever the stride |
| `SSTableFiles.BuildIndex` | src/sstable_index.cpp:11-56 | the loop fills the index of the text |
| `SSTableFiles.FindStartOffset` | src/sstable_index.cpp:58-73 | the entry of the largest indexed key not above the key, else the first entry |
| `SSTableFiles.WriteTable` | src/sstable.cpp:16-34 | the file holds one line per version, keys in order, versions in their order |
| `SSTable.OneRecordIff` | src/sstable_reader.cpp:99-157 | a table of one record gives its version back if and only if key and value are ones the format carries |
| `SSTable.ScanCarries` | src/sstable_reader.cpp:99-157 | on any text a scan answers only with values of one line that do not start with white space, and finds nothing under a key with white space |
| `TableText.LineRoundTrip` | src/sstable.cpp:18-31 | a written line reads back as the key, timestamp and version it came from |
| `TableText.LineAt` | src/sstable.cpp:16-34 | the line at a record's offset is that record's, and the next line is the next record's |
| `SSTableFiles.LoadTable` | src/compactor.cpp:12-55 | the loop pushes every line onto what was loaded before, and fails on a line that is no record |
| `SSTableFiles.LoadWritten` | src/compactor.cpp:12-55 | loading a written table succeeds and appends its versions key by key |
| `SSTableFiles.CompactFiles` | src/compactor.cpp:57-96 | two written tables compact into a written, readable table of one of their compactions |
| `SSTableFiles.CompactedReads` | src/compactor.cpp:57-96 | the compacted table answers every key and time as all versions of both inputs together |
| `BloomFilters.BloomFilter.Add` | src/bloom_filter.cpp:53-70 | an added key is found and so is every key found before |
| `BloomFilters.BloomFilter.PossiblyContains` | src/bloom_filter.cpp:72-94 | true exactly when every bit the key selects is on |
| `BloomFilters.BloomFilter.SetBitAt` | src/bloom_filter.cpp:33-40 | the bit is on and no other is cleared |
| `WalSafety.RecoversPrefixIff` | src/wal.cpp:151-237 | after any clean run a crash at any byte behind the synced part leaves what one prefix of the operations would, at least all flushed ones, if and only if no operation of the present buffer can be read behind one that cannot |
| `WalRetry.PrefixIff` | src/wal.cpp:251-271 | what any number of failed flushes of a buffer left reads as a prefix of it if and only if it has no gap |
| `WalSafety.RecoversPrefix` | src/wal.cpp:151-237 | unless a flush has repeated records of the present buffer, a crash at any byte behind the synced part leaves what a prefix of the operations would, at least all flushed ones |
| `WalSafety.RecoversPerKey` | src/wal.cpp:151-237 | after any clean run and any such crash, repeated records or not, every key reads at all times as a prefix that holds all flushed operations makes it read |
| `WalSafety.FlushedSurvives` | src/wal.cpp:251-271 | everything issued before a flush that returns true survives every crash of every continuation if and only if the flush had something to write or nothing unsynced had been found on opening |
| `WalSafety.RetryRecoversIff` | src/wal.cpp:251-271 | a buffer is flushed again after any number of failed flushes: every crash during it leaves a prefix if and only if what they left is orderly |
| `WalRetry.RetryCutsIff` | src/wal.cpp:251-271 | the same for any operations before, any buffer and any attempts at it |
| `WalRuns.TornRun` | src/wal.cpp:251-271 | every flush that fails inside its first record leads to a file that replay does not accept to its end |
| `WalRuns.UnsyncedRun` | src/wal.cpp:251-254 | a clean run after which a flush returns true and what was found on opening does not survive |
| `WalRuns.DisorderRun` | src/wal.cpp:251-271 | a clean run that leaves whole records which are not orderly |
| `WalRuns.StaleRun` | src/wal.cpp:251-271 | a clean run after which replay finds an older write of a key behind a newer one |
| `WalRuns.RunDistinct` | src/kv_store.cpp:236-243 | over any number of crashes a sequence number stands for one operation |
| `WalRuns.LiteralPrefix` | src/wal.cpp:151-237 | where no flush repeats records, replay finds a prefix of the operations themselves, their numbers rising |
| `WalTorn.NextWriteSafeIff` | src/wal.cpp:251-271 | in any clean state every next write, now and after opening the log again, is answered together with all before it once its flush returns true if and only if replay accepts the file to its end |
| `WalFile.StoreSafeIffAccepted` | src/kv_store.cpp:64-82 | the same in the answers of a store opened on the log |
| `WalFile.StoreAnswersIff` | src/kv_store.cpp:64-82 | stores refilled from two lists of operations answer alike exactly when the lists read alike |
| `WalSafety.AckedGrows` | src/wal.cpp:251-271 | what was flushed stays flushed over any number of crashes |
| `WalSafety.NumbersRise` | src/kv_store.cpp:236-243 | numbers given out since the last opening rise and are above all before them |
| `WalTorn.DamageStopsReplay` | src/wal.cpp:172-194 | any change within four neighbouring bytes of a record that spares type and lengths makes replay give exactly the records before it |
| `WalRecords.DamageDetected` | src/wal.cpp:172-194 | such a record is refused whatever follows it |
| `WalRecords.DecodeEncode` | src/wal.cpp:103-149 | a written record reads back as its operation, whatever follows it |
| `WalRecords.RecordLayout` | src/wal.cpp:69-78 | "KVLG", version, type, lengths, number, key, value and checksum of all before stand at their places |
| `WalIssued.WriteIssues` | src/wal.cpp:95-101 | a write adds exactly its operation under the next number |
| `WalIssued.CallsInOrder` | src/kv_store.cpp:236-268 | between two openings the operations of the log are the calls, one for one and in order |
| `WalIssued.FoundIssued` | src/wal.cpp:151-237 | whatever replay finds after any clean run and crash was called for, with that key and value |
| `WalRecords.DecodeCut` | src/wal.cpp:167-182 | nothing short of a whole record is accepted |
| `WalFile.RecoveredStoreReads` | src/kv_store.cpp:64-82 | a store opened on what a crash left answers every read of a key, and get, as the history of such a prefix says |
| `WalSession.SessionNumbered` | src/kv_store.cpp:64-82 | after any clean run and any crash, a store is opened on writes in which a number stands for one version of a key |
| `WalSession.SessionReadIff` | src/kv_store.cpp:277-330 | in every session on what such a crash left, the exact condition for reads holds without further assumption |
| `WalSession.CalmSettles` | src/kv_store.cpp:64-82 | unless a crash came upon repeated records of a buffer, the log is settled, with retries and earlier crashes |
| `WalSession.StaleSession` | src/memtable.cpp:58-85 | a clean run after which the opened store reads an older value than the newest, and a flush of its memtable changes get_at but not get |
| `WalFile.Wal.WriteRecord` | src/wal.cpp:103-149 | header, key, value and chained checksum make exactly the encoded record |
| `WalFile.Wal.Flush` | src/wal.cpp:251-271 | whatever part each write takes, success writes and syncs the whole buffer, failure leaves some prefix of it and keeps the buffer |
| `WalFile.Wal.ReplayInto` | src/wal.cpp:151-237 | map, memtable and sequence number are those of the replayed operations, and the last good offset is where the last accepted record ends |
| `WalFile.ReadRecord` | src/wal.cpp:162-194 | reading field by field with the chained checksum is the decoder |
| `WalFile.ChecksumOf` | src/wal.cpp:184-189 | three chained calls are the checksum of the whole body |
| `Crc.TableIsShiftRegister` | src/wal.cpp:22-37 | the table-driven register is the bit-serial shift register of section 3.2.9 of IEEE 802.3 on every message |
| `Crc.BurstChangesRaw` | src/wal.cpp:34-36 | messages that differ only within four neighbouring bytes leave different registers |
| `Crc.ChecksumIsResidue` | src/wal.cpp:184-194 | a stored checksum is right exactly when body and checksum together leave one fixed register value |
| `Crc.UpdateConcat` | src/wal.cpp:114-119 | feeding the parts one call after another is feeding the whole |
| `CrcCheck.CheckValue` | src/wal.cpp:22-37 | the checksum of "123456789" is the check value of CRC-32, 0xCBF43926 |
| `Crc.Crc32Update` | src/wal.cpp:22-37 | the loops over table and data compute that checksum |
| `ObjectSafety.AnswersFollowHistory` | src/object_store.cpp:192-319 | after any history of operations each stopped anywhere, every object answers with its last committed put, as deleted, or not at all |
| `ObjectSafety.OverwriteAtomicIff` | src/object_store.cpp:192-230 | overwrites under an id are atomic for every object and every data if and only if no live object with chunks has that id |
| `ObjectSafety.SameMillisecondNotAtomic` | src/object_store.cpp:38-42 | after a complete put, the id of a second put in the same millisecond is in use and overwriting is not atomic for all data |
| `ObjectSafety.NeverTorn` | src/object_store.cpp:246-285 | no read of any history meets unreadable metadata or a missing chunk |
| `ObjectSafety.CollectionExact` | src/object_store.cpp:384-438 | collection, complete or stopped, changes no answer; complete, every chunk that is left belongs to a bucket and key whose metadata has its id and is committed |
| `ObjectClash.FreshIsAtomic` | src/object_store.cpp:200-230 | under an unused id every object answers as before or, if overwritten, with exactly the new bytes, wherever the put stops |
| `ObjectClash.UsedIsNotAtomic` | src/object_store.cpp:200-230 | under a used id some data shows a mix after the first chunk |
| `ObjectAtomic.PutKeeps` | src/object_store.cpp:200-210 | before the commit point nothing changes, and never for other objects |
| `ObjectFields.PutIsRead` | src/object_store.cpp:192-244 | after any history a put that reaches its commit point is what the object answers, field by field: id, names, sizes, content type, etag, times, state and data |
| `ObjectFields.DeleteMarks` | src/object_store.cpp:287-310 | a delete changes state and time of change and no other field, and drops the index entry |
| `ObjectFields.DeletedIsCollected` | src/object_store.cpp:384-438 | after any history a put, a complete delete and a complete collection leave none of the put's chunks |
| `ObjectFields.GarbageIff` | src/object_store.cpp:384-433 | in every reachable store a chunk is garbage if and only if no bucket and key has committed metadata with its id |
| `ObjectAtomic.PutCommits` | src/object_store.cpp:212-230 | from the commit point on the object answers with the new metadata and data |
| `ObjectAtomic.DeleteAnswers` | src/object_store.cpp:287-310 | from its first write on a delete answers deleted, and only for that object |
| `ObjectAtomic.SweepComplete` | src/object_store.cpp:410-433 | every attributable chunk that is left belongs to committed metadata |
| `ObjectModel.StoredAllIff` | src/object_store.cpp:196-210 | what is stored is all of the data exactly when the number of chunks fits in 32 bits |
| `ObjectKeys.MetadataRoundTrip` | src/object_store.cpp:50-105 | metadata with tab-free texts reads back as it was written |
| `ObjectKeys.ChunkKeyInjective` | include/kv/object_store_key_codec.h:23-25 | a chunk key determines object id and index |
| `ObjectKeys.ObjectIdNames` | src/object_store.cpp:38-42 | with colon-free bucket names an object id tells bucket, key and time |
| `ObjectKeys.MetaKeyInjective` | include/kv/object_store_key_codec.h:15-17 | a metadata key determines bucket and key when buckets have no colon |
| `ObjectKeys.BucketsMeetIff` | include/kv/object_store_key_codec.h:15-17 | two different buckets have objects, with names a put accepts, under one metadata key if and only if one bucket name is the other followed by a colon and more |
| `ObjectKeys.KindsDiffer` | include/kv/object_store_key_codec.h:11-25 | keys of buckets, metadata, index entries and chunks never meet |
| `ObjectKeys.OwnerOfChunk` | src/object_store.cpp:414-424 | the id cut out of a chunk key at its last colon is the object id it was made from |
| `ObjectStores.ObjectStore.PutObject` | src/object_store.cpp:155-244 | with tab-free texts the object then answers with the client's data and texts, the id and the clock reading; the loop and the two writes after it leave the map of a complete put and load the memtable with its writes; which refusal is returned when |
| `ObjectStores.ObjectStore.GetObject` | src/object_store.cpp:246-285 | the loop gives the answer of the model, including the first missing index |
| `ObjectStores.ObjectStore.DeleteObject` | src/object_store.cpp:287-319 | the map of a complete delete, the metadata marked deleted at that time, its load, and which result is returned when |
| `ObjectStores.ObjectStore.GarbageCollectChunks` | src/object_store.cpp:384-438 | exactly the unreachable chunks are removed, and the result counts the deletions that reported success |
| `ObjectStores.Mark` | src/object_store.cpp:387-408 | the collected ids are exactly those of committed metadata |
| `ObjectStores.Sweep` | src/object_store.cpp:410-433 | exactly the chunks with unmarked owners are removed, in some order, and those whose deletion reports success are counted |
| `ObjectStores.CountIsExactIff` | src/object_store.cpp:427-431 | the count is the number of chunks removed if and only if there was room for their tombstones and the log answered |
| `ObjectStores.EntryLoads` | src/memtable.cpp:8-36 | what an object operation's entry is taken to weigh is what the key-value store's put and delete add |
| `ObjectStores.CountCanBeZero` | src/object_store.cpp:427-431 | behind a full memtable and a taken slot the count is 0 whatever is removed |
| `ObjectCount.RemovedUncounted` | src/object_store.cpp:427-431 | after any history two large puts of one object leave garbage, and the collection that follows removes it and reports 0 |
| `ObjectCount.OverwrittenIsGarbage` | src/object_store.cpp:157-244 | after two complete puts of one object the first one's chunks are garbage |
| `ObjectCount.LargePutsHappen` | src/object_store.cpp:157-244 | for every chunk size there is such a history |
| `ObjectCrash.StepCut` | src/object_store.cpp:192-310 | an operation stopped after m writes leaves exactly its first m logged writes |
| `ObjectCrash.CutHistory` | src/object_store.cpp:192-438 | any number of the writes of a history, operations stopped half-way included, is the history up to some operation, possibly with that one stopped half-way |
| `ObjectRecovery.ObjectsRecover` | src/object_store.cpp:192-244 | after a crash at any byte of the log that leaves no gap in the buffer, half operations of earlier crashes included, the reopened store answers for every object as such a history does, and no operation whose writes were all flushed is missing |

## Left out

- Sockets, servers, clients, the command line, demos, benchmarks and scripts: input and output only.
- Threads, mutexes, clocks and random timeouts as such: they appear as the order of steps and as parameters; nothing is said about time; elections, proposals and log repair are shown to succeed by runs, not by fairness.
- Raft node restarts: term, vote and log are not persisted, so safety does not extend over them.
- A Raft RPC whose node is changed between its request and its answer by another thread: an exchange is one step.
- leader_id_ and the redirect hint of a follower: no decision depends on them.
- ApplyPut and ApplyDel on a store that also serves get_at: they bypass the memtable; the applied entries are a sequence here.
- save_snapshot, load_snapshot and checkpoint: a snapshot holds the active memtable only.
- Sessions on a manifest that already lists tables, with the startup compaction and the id taken from path names: open overwrites the id it has just computed.
- The group commit counter: a flush may come after any write.
- FlushWorker start and stop and the two queues as objects: the worker is the steps of the store model.
- Bloom false-positive rates and the etag hash: probabilistic or defined by the C++ library.
- ListObjects and CreateBucket's metadata text: the listing has no order of its own and would only add easy members.
- Signs, overflow and trailing characters in numbers that the program did not write itself: numbers read back are runs of digits.
- Damage to the type or length bytes of a log record: the frame moves and only the checksum's chance remains.
- ObjectRecovery.ObjectsRecover: a log on which an earlier crash left repeated records is not covered, because its writes are those of no history of operations.
- WalFile.ReplayAll: takes the record decoder as a parameter instead of calling ReadRecord, which is proved equal to that decoder.
