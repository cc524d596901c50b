# p2KVS: a verified model

p2KVS spreads a key-value workload over several RocksDB instances ("shards"). A
dispatcher routes each request to the queue of its key's shard, one worker thread
per queue batches the requests, and range scans merge the shards' iterators. This
project models the parts of that system that are hardest to get right and proves
what they promise.

- **Snapshot iterator** (`InternalKeys`, `SnapshotView`, `SnapshotEntries`,
  `DbIterLemmas`, `DbIter`; specification in `MapCursor`). A run of versioned entries,
  read at a snapshot, shows a map: replay the visible writes of each key in order of
  sequence number, so that the newest entry that is not a merge operand decides. The
  class `DBIter` is the iterator with its loops, direction switches, merge
  operands, reseeks and iteration bounds. Every sequence of operations shows what a
  cursor over that map shows.
- **Merged iterator and scans** (`MergingIterator`, `Scan`). The k-way merge over the
  shards' `DBIter`s is a cursor over the union of their maps. Over shards that a run of
  dispatcher and workers has filled, the broadcast scan visits whatever the merged scan
  visits.
- **Dispatcher and workers** (`Workers`, `WorkersProof`, `WorkersTrace`). A state machine
  with one step per access to a queue or a shard, under every schedule, and what the
  letters of the trace come to.
- **SuperVersion cache** (`SuperVersion`, `SuperVersionProof`, `SuperVersionLive`).
  Readers that swap the thread-local slot, installers that scrape all slots, exiting
  threads, and the reference counts, as a state machine under every interleaving; what
  each call comes to, and that everything can come to rest.
- **CLOCK cache** (`ClockCache`, `ClockProof`, `ClockSteps`, `ClockSchedule`,
  `ClockCalls`, `ClockRelease`, `ClockPinned`, `ClockLate`, `ClockEviction`). Lock-free
  Ref and Unref against insert, erase and evict under the mutex, again under every
  interleaving; what each call comes to; what a forced release erases; what the pinned
  usage is worth; the packed flags word; and the eviction scan as a loop.
- **LRU cache** (`LruTable`, `LruList`, `LruPools`, `LruShard`, `LruHistory`, `LruStory`,
  `LruRun`, `ShardedCache`). The chained hash table with its resize, the circular list
  with its two pools, the shard's operations on the heap, and runs of clients that hold
  references, on one shard or on all. What each operation of a run places, removes and
  answers follows from the operations, up to the choice of what is evicted.
- **Key encoding and random numbers** (`KeyCodec`, `Random`).

In the imperative modules a class carries the source's fields, and ghost fields that
say what they stand for (`LRUHandleTable.contents` is the map that the chains hold,
`LRUCacheShard.order` the list from old to new, `live` and `freed` the handles that
have not and that have been given to their deleter). In the concurrent modules
`Do(s, step)` is the effect of one atomic step, `Inv` the invariant, and
`Reachable(s, steps)` or `Run(cfg, steps)` the states that a schedule leads to.

## What does not hold, and when it does

- Point reads are collected into a batch while later writes of the same queue are
  committed. A read never runs after a later write, for all traces and schedules,
  exactly when `BATCH_SIZE` is 1 (`WorkersProof.ExactIffSingle`). Scans are always
  exact, and earlier writes are always seen (`WorkersProof.ReadsAreInOrder`).
- Encoded keys are ordered like their numbers exactly when the key size is at least 8
  (`KeyCodec.EncodingKeepsOrder`), and no two numbers share a key exactly then
  (`KeyCodec.EncodingIsInjective`).
- A scan of size -1 in the trace is taken for a point read, in every shard
  (`WorkersTrace.TraceIsServed`).
- `SetCapacity` of an LRU shard does not shrink the high-priority pool. The pool is
  within its new bound exactly when the pool's handles outside the evicted prefix are
  (`LruShard.LRUCacheShard.SetCapacity`); `LruRun.PoolOutgrowsLoweredCapacity` is a
  shard where they are not. Whatever else clients do, the pool stays within its bound as
  long as the capacity is not lowered (`LruRun.Run`).
- A negative pool ratio makes the loop of `MaintainPoolSize` reach the dummy head, where
  its assertion fails. `SetHighPriorityPoolRatio` does not fail exactly when the ratio
  is not negative or the capacity is 0.
- `EvictFromCache` may report failure although its last eviction made room
  (`ClockEviction.LastEvictionIsMissed`). It reports success exactly when the charge
  fits after evicting all unreferenced handles, except the one just before the head if
  that has its usage bit (`ClockEviction.Shard.EvictFromCache`).
- An insertion without a handle that does not fit is said to act as if the entry had
  been inserted and evicted at once. An older pinned entry under its key stays in the
  table, though (`LruRun.OlderEntrySurvives`). Afterwards the table holds exactly the
  entries that were pinned before, so the promise is kept exactly when none of them is
  under the key (`LruPools.RejectedKeepsPinned`, `LruShard.LRUCacheShard.Insert`).
- `Release` with forced erase in the CLOCK cache reads the key after it has given up the
  reference, and erases by key. It takes out the entry that was released exactly when
  the handle then still stands for it and is in cache, nothing exactly when the table
  does not have the key that was read, and otherwise an entry that nobody asked to
  erase (`ClockRelease.ForcedEraseTakes`). The latter happens when the handle has been
  reused for another key (`ClockRelease.AnotherEntryIsErased`), and also without any
  reuse when the key has been inserted again (`ClockRelease.LaterEntryIsErased`). In
  every case the released entry is out of the table afterwards.
- The pinned usage of the CLOCK cache would be the charge of the referenced handles if
  the flags and the counter changed together (`ClockPinned.AtOnceIsExact`). The code
  reads the charge after the last reference is gone, when the handle may stand for
  another entry already. Once all threads are done, the counter is right exactly when
  the differences between the charges read and the charges released add up to nothing
  (`ClockLate.PinnedIsExactIff`, `ClockLate.SettlingDrifts`); in
  `ClockLate.PinnedUsageIsLost` it ends below zero with nothing referenced.
- The comment on handle states says that new handles are referenced and in the table;
  one inserted without a handle is unreferenced and on the list
  (`LruShard.LRUCacheShard.Insert`).
- The largest seed, 2^31 - 1, is a fixed point of the generator
  (`Random.Generator.Next`).
- `MergingIterator::SeekForPrev` has an empty body: it leaves the cursor where it is
  (`MergingIterator.Run`).

## Model

| member | source | states |
|---|---|---|
| `InternalKeys.CompareIsOrder` | code/rocksdb/db/dbformat.cc:107-126 | the comparator is a total order: only equal keys compare equal, it is antisymmetric and transitive |
| `InternalKeys.WellFormedIsOrdered` | code/rocksdb/db/dbformat.cc:107-126 | a run that increases under the comparator, with one entry per key and sequence number, has increasing user keys and, within a key, decreasing sequence numbers |
| `InternalKeys.SeekPastKey` | code/rocksdb/db/db_iter.cc:401-467 | the target that leaves a key behind lands on the first entry after the key, or on a tombstone with sequence number 0 that is the key's last entry |
| `InternalKeys.SeekForPrevLastOfKey` | code/rocksdb/db/dbformat.cc:20-27 | with the seek-for-prev type and sequence number 0 the inner iterator lands just before the first entry of a larger key |
| `InternalKeys.SeekForPrevBeforeKey` | code/rocksdb/db/dbformat.cc:20-27 | with the seek type and the largest sequence number it lands just before the first entry of the key |
| `SnapshotView.ViewHasWhatShows` | code/rocksdb/db/db_iter.h:25-55 | the visible map has a key exactly when replaying its visible writes within the bounds leaves a value, and maps it to that value |
| `SnapshotEntries.ViewHas` | code/rocksdb/db/db_iter.cc:304-385 | a key is in the visible map if and only if it is within the bounds, has a visible entry, and the one with the largest sequence number is a put or a merge operand that no range tombstone covers |
| `SnapshotEntries.ViewOfPut` | code/rocksdb/db/db_iter.cc:314-368 | if that entry is an uncovered put, the value is its value |
| `SnapshotEntries.ViewOfMerge` | code/rocksdb/db/db_iter.cc:480-584 | if it is an uncovered operand, the value is the merge of the operands, oldest first, down to the first entry of the key that is no uncovered operand, on that entry's value exactly when it is an uncovered put |
| `MapCursor.ThereAndBack` | code/rocksdb/db/db_iter.h:58-69 | on the map cursor, Next then Prev and Prev then Next between two keys come back to the same key |
| `DbIter.MergeContext.PushOperandIsOldest` | code/rocksdb/db/merge_context.h:32-44 | whatever the direction of the list, the pushed operand becomes the oldest |
| `DbIter.MergeContext.PushOperandBackIsNewest` | code/rocksdb/db/merge_context.h:47-60 | whatever the direction of the list, the operand pushed back becomes the newest |
| `DbIter.DBIter.constructor` | code/rocksdb/db/db_iter.cc:36-86 | a new iterator is not valid and keeps the invariant |
| `DbIter.DBIter.FindNextUserEntry` | code/rocksdb/db/db_iter.cc:186-471 | finds the first key from the given one on that has a value, positioned as (1a) or (1b) with its value; invalid only if no such key is left; terminates although reseeks may land on the current entry; independent of the skip limit and the sequence-zero shortcut |
| `DbIter.DBIter.Yield` | code/rocksdb/db/db_iter.cc:314-385 | on the newest visible entry of a key with a value: the current value is what replaying the key's writes gives |
| `DbIter.DBIter.MergeValuesNewToOld` | code/rocksdb/db/db_iter.cc:480-584 | the walk from new to old computes the same result as replaying from old to new, and stops just after the last entry that contributed |
| `DbIter.DBIter.PrevInternal` | code/rocksdb/db/db_iter.cc:691-740 | finds the last key up to the given one that has a value, positioned as (2) |
| `DbIter.DBIter.FindUserKeyBeforeSavedKey` | code/rocksdb/db/db_iter.cc:1085-1140 | stops exactly before all entries of the key, with or without reseeking |
| `DbIter.DBIter.FindValueForCurrentKey` | code/rocksdb/db/db_iter.cc:753-910 | the backward walk over a key's versions gives the verdict and value of the replay |
| `DbIter.DBIter.FindValueForCurrentKeyUsingSeek` | code/rocksdb/db/db_iter.cc:916-1081 | the seek-based path gives the same verdict and value |
| `DbIter.DBIter.CollectOperands` | code/rocksdb/db/db_iter.cc:984-1081 | the merge of the seek-based path equals the replay and leaves the inner iterator on the run |
| `DbIter.DBIter.ReverseToForward` | code/rocksdb/db/db_iter.cc:624-656 | turns from position (2) to the first entry of the key |
| `DbIter.DBIter.ReverseToBackward` | code/rocksdb/db/db_iter.cc:659-689 | turns from (1a) or (1b) to position (2) |
| `DbIter.DBIter.Seek` | code/rocksdb/db/db_iter.cc:1206-1265 | moves to the first key of the visible map at or after the target |
| `DbIter.DBIter.SeekForPrev` | code/rocksdb/db/db_iter.cc:1267-1327 | moves to the last key at or before the target |
| `DbIter.DBIter.SeekToFirst` | code/rocksdb/db/db_iter.cc:1329-1374 | moves to the first key |
| `DbIter.DBIter.SeekToLast` | code/rocksdb/db/db_iter.cc:1376-1425 | moves to the last key |
| `DbIter.DBIter.Next` | code/rocksdb/db/db_iter.cc:121-165 | moves to the next key of the visible map, also right after moving backward |
| `DbIter.DBIter.Prev` | code/rocksdb/db/db_iter.cc:586-622 | moves to the previous key, also right after moving forward |
| `DbIter.DBIter.Observe` | code/rocksdb/db/db_iter.h:127-170 | key and value are those of the map at the cursor |
| `DbIter.Run` | code/rocksdb/db/db_iter.cc:121-1425 | for every run of entries, snapshot, bounds, skip limit and sequence of operations, the iterator shows exactly what the map cursor shows |
| `MergingIterator.SmallestIsFirst` | code/merge_iter.h:221-234 | when every shard stands at its first key from t on, the smallest of them is the first key of the union |
| `MergingIterator.LargestIsLast` | code/merge_iter.h:236-249 | when every shard stands at its last key up to t, the largest of them is the last key of the union |
| `MergingIterator.Merger.FindSmallest` | code/merge_iter.h:221-234 | current is a valid child with the smallest key, the first of them, or none if all are exhausted |
| `MergingIterator.Merger.FindLargest` | code/merge_iter.h:236-249 | current is a valid child with the largest key, the last of them, or none |
| `MergingIterator.Merger.Seek` | code/merge_iter.h:116-122 | moves to the first key of the union at or after the target |
| `MergingIterator.Merger.SeekToFirst` | code/merge_iter.h:100-106 | moves to the first key of the union |
| `MergingIterator.Merger.SeekToLast` | code/merge_iter.h:108-114 | moves to the last key of the union |
| `MergingIterator.Merger.TurnForward` | code/merge_iter.h:128-152 | on a change of direction every other child moves to its first key after the current one, exhausted children included |
| `MergingIterator.Merger.TurnBackward` | code/merge_iter.h:154-181 | on a change of direction every other child moves to its last key before the current one |
| `MergingIterator.Merger.Next` | code/merge_iter.h:128-152 | moves to the next key of the union |
| `MergingIterator.Merger.Prev` | code/merge_iter.h:154-181 | moves to the previous key of the union |
| `MergingIterator.Run` | code/merge_iter.h:100-181 | over shards with disjoint keys, every sequence of operations shows what a cursor over the union of the shards' maps shows, SeekForPrev leaving it where it is |
| `MergingIterator.MergedTraceIsTrace` | code/merge_iter.h:100-181 | without SeekForPrev that is the run of the map cursor that specifies a single iterator |
| `Scan.RoutedShardsAreDisjoint` | code/ycsb.cpp:429-446 | routing a key to the shard of its residue keeps the shards disjoint |
| `Scan.TakeIs` | code/ycsb.cpp:301-313 | what a scan visits are keys of the map from the start key on, in order, no more than asked for, and a key is passed over only if that many come before it |
| `Scan.WorkerScan` | code/ycsb.cpp:301-313 | a worker visits the first keys of its shard from the start key on, as many as asked for but at least one |
| `Scan.MergedScan` | code/ycsb.cpp:476-493 | the merged scan visits the first keys of the union from the start key on, as many as asked for |
| `Scan.BroadcastCoversMerged` | code/ycsb.cpp:456-464 | every key that the merged scan visits is visited by the worker of its shard, for the same start and size |
| `Scan.BothScans` | code/ycsb.cpp:456-493 | over shards that hold what some run of dispatcher and workers has committed, every key that the merged scan visits is visited by the worker's scan of the shard of its residue |
| `KeyCodec.GenerateKeyFromInt` | code/ycsb.cpp:64-78 | the loop writes the big-endian bytes of the number and pads with the character 0 |
| `KeyCodec.BigEndianAt` | code/ycsb.cpp:69-72 | byte i of the encoding is the number shifted right by the bytes after it |
| `KeyCodec.BytewiseIsOrder` | code/ycsb.cpp:64-78 | bytewise order is that of the first difference, with a proper prefix first |
| `KeyCodec.EncodedOrder` | code/ycsb.cpp:64-78 | comparing encoded keys bytewise compares the numbers modulo 256 to the number of bytes kept |
| `KeyCodec.EncodingKeepsOrder` | code/ycsb.cpp:64-78 | bytewise order is numeric order for all 64-bit numbers if and only if the key size is at least 8 |
| `KeyCodec.EncodingIsInjective` | code/ycsb.cpp:64-78 | different 64-bit numbers get different keys if and only if the key size is at least 8 |
| `Random.GoodSeed` | code/random.h:33 | every seed is mapped into the range 1 to M |
| `Random.Generator.Next` | code/random.h:43-61 | shift, mask and one subtraction compute the seed times A modulo M; M itself stays |
| `Random.NextIsRemainder` | code/random.h:43-61 | the shift-and-add form of the product equals its remainder modulo M |
| `Random.AfterIsPower` | code/random.h:22-61 | the k-th output is the seed times the k-th power of A modulo M, within 1 to M - 1 |
| `Random.Draw` | code/random.h:22-61 | k calls of Next on a new generator leave the seed times the k-th power of A modulo M, and M if the seed was M |
| `Random.StepIsInvertible` | code/random.h:43-61 | a step is undone by multiplying with the inverse of A, so no two seeds meet |
| `WorkersProof.StepKeepsInv` | code/ycsb.cpp:165-510 | every step of the dispatcher or a worker keeps the invariant on queues, batches and logs |
| `WorkersProof.RunInv` | code/ycsb.cpp:165-510 | the invariant holds in every state of every schedule |
| `WorkersProof.PushPublishes` | code/ycsb.cpp:429-464 | advancing a tail publishes the request of the current command to the right queue and nothing to the others |
| `WorkersProof.ExitIsComplete` | code/ycsb.cpp:165-262 | when a worker has ended, its shard was given exactly the trace's update and insert commands with its residue, once each and in trace order, and all reads and scans of its queue; no batch is left |
| `WorkersTrace.TraceIsServed` | code/ycsb.cpp:429-464 | when a worker has ended, its writes are exactly the U and I commands with its residue, its point reads the R commands with its residue and the scans of size -1, its scans all other S commands; once each, with their keys, in trace order |
| `WorkersTrace.RanIs` | code/ycsb.cpp:223-313 | a request counts as run exactly when an event of the shard's log runs it |
| `WorkersProof.ReadsAreInOrder` | code/ycsb.cpp:244-313 | when a read runs, every earlier write of its queue is committed; for a scan, or with batch size 1, no later write is |
| `WorkersProof.ExactIffSingle` | code/ycsb.cpp:263-284 | that no read runs after a later write of its queue, in all runs of all traces, holds if and only if the batch size is 1 |
| `WorkersProof.BatchesAreBounded` | code/ycsb.cpp:223-284 | in every run a batch goes to the shard as soon as it is full and is never larger or empty, for writes and for reads |
| `WorkersProof.ExitIsReachable` | code/ycsb.cpp:499-515 | from every state of every run some continuation brings all workers to their end: the sentinel reaches every worker |
| `WorkersProof.CommittedResidue` | code/ycsb.cpp:429-446 | in every run, every key that a shard has committed has the shard's residue |
| `SuperVersionProof.StepKeepsInv` | code/rocksdb/db/column_family.cc:1144-1284 | every step of readers, installers and exiting threads keeps the invariant |
| `SuperVersionProof.ReachableInv` | code/rocksdb/db/column_family.cc:1144-1284 | the invariant holds under every interleaving |
| `SuperVersionProof.CountsAreExact` | code/rocksdb/db/column_family.cc:417-472 | each count is the number of holders; nobody holds a SuperVersion that was cleaned up; without holders it is cleaned up once or one thread is about to |
| `SuperVersionProof.AssertionsHold` | code/rocksdb/db/column_family.cc:1157-1249 | every assertion in the source holds at every step of every run: slots in use are not swapped, unrefs that must not be the last are not |
| `SuperVersionProof.ExitIsNotLast` | code/rocksdb/db/column_family.cc:466-472 | the handler that runs when a thread exits never drops the last reference |
| `SuperVersionProof.CachedIsCurrent` | code/rocksdb/db/column_family.cc:1237-1284 | while no install is in progress every cached SuperVersion is the current one |
| `SuperVersionProof.ReturnsFresh` | code/rocksdb/db/column_family.cc:1157-1222 | GetThreadLocalSuperVersion returns a version not below the number at the start of the call |
| `SuperVersionLive.InstallTakesPlace` | code/rocksdb/db/column_family.cc:1230-1284 | from every reachable state with the mutex free, an install left alone comes to its end: a new SuperVersion with the next number is current, and all slots are emptied |
| `SuperVersionLive.GetAlone` | code/rocksdb/db/column_family.cc:1157-1204 | a Get left alone returns the current SuperVersion, from the slot without a new reference, or else with one |
| `SuperVersionLive.NewcomerGets` | code/rocksdb/db/column_family.cc:1157-1204 | a thread that comes anew gets the current SuperVersion with a reference of its own |
| `SuperVersionLive.GetsTheInstalled` | code/rocksdb/db/column_family.cc:1157-1284 | a thread that was idle during an install then gets the SuperVersion that was installed |
| `SuperVersionLive.ReturnAlone` | code/rocksdb/db/column_family.cc:1206-1222 | a return left alone puts the SuperVersion into the slot again, or gives the reference up if an install has emptied the slot; the last reference takes the one cleanup with it |
| `SuperVersionLive.ReferenceAlone` | code/rocksdb/db/column_family.cc:1144-1155 | GetReferencedSuperVersion hands out a reference of its own and leaves the slot as Return would |
| `SuperVersionLive.CleanupAlone` | code/rocksdb/db/db_impl/db_impl.cc:3230-3246 | giving up such a reference takes it off the count, with the cleanup if it was the last |
| `SuperVersionLive.ExitAlone` | code/rocksdb/db/column_family.cc:466-472 | a thread that goes takes the reference in its slot off the count |
| `SuperVersionLive.RestIsReachable` | code/rocksdb/db/column_family.cc:1144-1284 | from every state of every run some continuation brings all calls and installs to their end |
| `SuperVersionLive.QuietIsClean` | code/rocksdb/db/column_family.cc:417-472 | when nobody is at work and no reference is outside, every SuperVersion but the current one has been cleaned up, once |
| `ClockProof.StepKeepsInv` | code/rocksdb/cache/clock_cache.cc:425-709 | every lock-free or locked step keeps the invariant |
| `ClockProof.ReachableInv` | code/rocksdb/cache/clock_cache.cc:425-709 | the invariant holds under every interleaving |
| `ClockProof.AnswersAreExact` | code/rocksdb/cache/clock_cache.cc:450-667 | a reference returned by Lookup, Insert or a client's Ref leads to a handle with exactly the asked key and hash, to one insertion, not recycled while the reference is held, even if the handle was reused midway |
| `ClockProof.RecycleIsSafe` | code/rocksdb/cache/clock_cache.cc:425-437 | a handle is recycled out of cache, without references, not from the bin, and by one thread only |
| `ClockProof.RecycledAtMostOnce` | code/rocksdb/cache/clock_cache.cc:425-437 | each insertion is recycled at most once, and its handle is in the bin exactly when it has been |
| `ClockProof.NothingIsLost` | code/rocksdb/cache/clock_cache.cc:460-507 | a handle outside the bin is in cache, referenced, or claimed by a thread about to fill or recycle it |
| `ClockProof.EvictedIsInTable` | code/rocksdb/cache/clock_cache.cc:509-522 | the erase after a successful eviction finds its key with this handle |
| `ClockProof.ExactWhenUnlocked` | code/rocksdb/cache/clock_cache.cc:565-709 | with the mutex free, a handle is in cache exactly when the table maps its key to it, and usage is the charge of all handles outside the bin |
| `ClockCalls.LookupAlone` | code/rocksdb/cache/clock_cache.cc:644-667 | from every state with the mutex free, a lookup left alone of a key in the table returns a reference to the handle that the table has for it |
| `ClockCalls.LookupIsDecidedAtRef` | code/rocksdb/cache/clock_cache.cc:644-667 | a lookup among other threads hits if and only if, at its Ref, the handle that the table gave is in cache and stands for the key, and returns the insertion that it then stands for |
| `ClockCalls.InsertAlone` | code/rocksdb/cache/clock_cache.cc:565-620 | an insertion left alone: the key leads to a handle from the bin or a new one that stands for the insertion, the older entry under the key is out of cache and recycled if unreferenced, nothing else changes |
| `ClockCalls.EraseAlone` | code/rocksdb/cache/clock_cache.cc:680-698 | an erase left alone: the key is out of the table, its handle out of cache, and recycled with its charge if unreferenced |
| `ClockCalls.ReleaseAlone` | code/rocksdb/cache/clock_cache.cc:669-678 | a release left alone: one reference less, and recycled if and only if it was the last and the handle is out of cache |
| `ClockCalls.ForcedReleaseAlone` | code/rocksdb/cache/clock_cache.cc:669-698 | with force: also the key is out of the table and the handle out of cache |
| `ClockCalls.SweepAlone` | code/rocksdb/cache/clock_cache.cc:700-709 | EraseUnRefEntries left alone: the table is empty, no handle in cache, and those that had no reference are in the bin |
| `ClockCalls.EvictAlone` | code/rocksdb/cache/clock_cache.cc:509-522 | a look by an evicting thread left alone: an unused and unreferenced entry is out of table, cache and usage; any other handle only loses its usage bit |
| `ClockRelease.DropGoesOn` | code/rocksdb/cache/clock_cache.cc:669-674 | when a forced release has given up its reference without having to recycle the handle, the handle still stands for the released entry |
| `ClockRelease.ForcedEraseIsOwn` | code/rocksdb/cache/clock_cache.cc:669-674 | whatever steps come between, when a forced release reads the key, the handle stands for the released entry if and only if that insertion has not been recycled, and then the key is its own; otherwise the handle is in the bin or stands for a later insertion |
| `ClockRelease.ForcedEraseTakes` | code/rocksdb/cache/clock_cache.cc:669-698 | over all steps of other threads between the drop and the erase: the released entry is taken out if and only if the handle still stands for it and is in cache, nothing if and only if the table lacks the key read, another entry otherwise; the released one is out of the table in any case |
| `ClockRelease.AnotherEntryIsErased` | code/rocksdb/cache/clock_cache.cc:669-698 | a schedule, in which clients ask to erase key a only, that takes key b out of the table |
| `ClockRelease.LaterEntryIsErased` | code/rocksdb/cache/clock_cache.cc:669-698 | a schedule, without any recycling and without any call of Erase, in which a forced release takes out a later insertion of the same key |
| `ClockPinned.StepChanges` | code/rocksdb/cache/clock_cache.cc:450-620 | every step changes the charge of the referenced handles, less that of an insertion not counted yet, exactly by what taking a first reference, giving up a last one, or finishing an insertion contributes |
| `ClockPinned.AtOnceIsExact` | code/rocksdb/cache/clock_cache.cc:450-487 | if flags and counter changed together, then with the mutex free pinned usage would be the charge of the referenced handles, under every interleaving |
| `ClockLate.PinnedIsExactIff` | code/rocksdb/cache/clock_cache.cc:403-405 | with the counter changed after the flags, under every interleaving: when nobody has still to settle and the mutex is free, pinned usage is the charge of the referenced handles if and only if the errors of the late reads sum to zero |
| `ClockLate.SettlingDrifts` | code/rocksdb/cache/clock_cache.cc:479-484 | the error of a late read is the difference between the charges of the released entry and of the one the handle stands for by then; none for a new reference, and none unless the handle has been reused |
| `ClockLate.PinnedUsageIsLost` | code/rocksdb/cache/clock_cache.cc:479-484 | a schedule after which nothing is referenced and pinned usage is below zero |
| `ClockEviction.WordReadsBack` | code/rocksdb/cache/clock_cache.cc:291-299 | the flags word packs in-cache bit, usage bit and count; each atomic operation changes one of them; the word compared by TryEvict is that of an evictable handle only |
| `ClockEviction.Shard.TryEvict` | code/rocksdb/cache/clock_cache.cc:509-522 | evicts exactly handles in cache, unused and unreferenced, keeping table, bin and usage exact; otherwise only takes the usage bit |
| `ClockEviction.Shard.EvictFromCache` | code/rocksdb/cache/clock_cache.cc:524-548 | success if and only if the charge fits after evicting all unreferenced handles in cache but the one before the head if that has its usage bit; on failure all unreferenced ones are evicted nevertheless and the head is back; on success the head has moved on by the handles examined, at most twice round; within one round nothing with a usage bit is evicted |
| `ClockEviction.Shard.Scan` | code/rocksdb/cache/clock_cache.cc:530-546 | the loop: usage is left at the old usage less the charge of what was evicted, and the scan gives up only after two full rounds |
| `ClockEviction.LastEvictionIsMissed` | code/rocksdb/cache/clock_cache.cc:538-546 | a shard whose scan empties it and reports failure |
| `LruTable.LRUHandleTable.constructor` | code/rocksdb/cache/lru_cache.cc:21-23 | an empty table of 16 buckets |
| `LruTable.LRUHandleTable.FindPointer` | code/rocksdb/cache/lru_cache.cc:64-70 | the slot that leads to the entry with this key and hash, or the end of its chain if the map has none |
| `LruTable.LRUHandleTable.Lookup` | code/rocksdb/cache/lru_cache.cc:34-36 | the handle that the map has for the key, or null |
| `LruTable.LRUHandleTable.Insert` | code/rocksdb/cache/lru_cache.cc:38-52 | map update; returns the displaced handle; the table grows if and only if it would have more entries than chains, to the least power of two from 16 on with 1.5 chains an entry |
| `LruTable.LRUHandleTable.Remove` | code/rocksdb/cache/lru_cache.cc:54-62 | map removal; returns the handle removed |
| `LruTable.LRUHandleTable.Resize` | code/rocksdb/cache/lru_cache.cc:72-96 | every handle is relinked into the new chains, none lost or doubled: the map is unchanged |
| `LruTable.LRUHandleTable.NewLength` | code/rocksdb/cache/lru_cache.cc:72-76 | the smallest power of two from 16 on that is at least 1.5 times the element count |
| `LruTable.PowersOfTwo` | code/rocksdb/cache/lru_cache.cc:72-76 | the lengths are 1 and what doubling makes of it, and no other number |
| `LruShard.LRUCacheShard.constructor` | code/rocksdb/cache/lru_cache.cc:98-116 | an empty shard with the invariant, for every capacity and ratio |
| `LruShard.LRUCacheShard.LRU_Remove` | code/rocksdb/cache/lru_cache.cc:178-194 | takes one handle out of the ring, keeps the pool split and both counters exact, changes no other flag |
| `LruShard.LRUCacheShard.LRU_Insert` | code/rocksdb/cache/lru_cache.cc:196-220 | links at the newest end for high-priority or hit handles, otherwise at the newer end of the low-priority pool; counters exact |
| `LruShard.LRUCacheShard.MaintainPoolSize` | code/rocksdb/cache/lru_cache.cc:222-233 | moves handles, oldest first, out of the high-priority pool, as few as make it fit; reaches the dummy head, with the pool empty, if and only if the pool's capacity is negative |
| `LruShard.PoolCapacityIsShare` | code/rocksdb/cache/lru_cache.cc:251-300 | the capacity of the high-priority pool is the ratio of the shard's |
| `LruShard.LRUCacheShard.EvictFromLRU` | code/rocksdb/cache/lru_cache.cc:235-249 | frees the shortest oldest-first prefix of the list that makes room, or all of it |
| `LruShard.LRUCacheShard.SetCapacity` | code/rocksdb/cache/lru_cache.cc:251-264 | evicts like EvictFromLRU for the new capacity; the high-priority pool is then within its new bound if and only if its handles outside the evicted prefix are |
| `LruShard.LRUCacheShard.SetStrictCapacityLimit` | code/rocksdb/cache/lru_cache.cc:266-269 | changes the flag and keeps the invariant |
| `LruShard.LRUCacheShard.Lookup` | code/rocksdb/cache/lru_cache.cc:271-284 | returns the handle filed under the key, off the list, with one more reference and a hit; nothing else changes |
| `LruShard.LRUCacheShard.Ref` | code/rocksdb/cache/lru_cache.cc:286-293 | one more reference on a pinned handle, nothing else |
| `LruShard.LRUCacheShard.SetHighPriorityPoolRatio` | code/rocksdb/cache/lru_cache.cc:295-300 | the assertion in the loop holds if and only if the ratio is not negative or the capacity is 0; then the pool fits, with as few handles moved as possible |
| `LruShard.LRUCacheShard.Drop` | code/rocksdb/cache/lru_cache.cc:309-324 | decides whether the last reference frees the handle or lists it again; the assertion that the list is empty when the shard is over capacity holds |
| `LruShard.LRUCacheShard.Release` | code/rocksdb/cache/lru_cache.cc:302-337 | frees exactly on the last reference when out of cache, over capacity or forced, leaving table and usage exact; otherwise lists the handle or only counts down |
| `LruShard.LRUCacheShard.Insert` | code/rocksdb/cache/lru_cache.cc:339-417 | evicts just enough; turns the entry away exactly when it does not fit and the limit is strict or no handle is wanted, leaving exactly the pinned entries filed; otherwise files it, frees an unpinned predecessor, and lists or pins it; under a strict limit usage stays within capacity |
| `LruShard.LRUCacheShard.Erase` | code/rocksdb/cache/lru_cache.cc:419-444 | removes the key; frees the handle if unpinned, else leaves it to its holders |
| `LruShard.LRUCacheShard.EraseUnRefEntries` | code/rocksdb/cache/lru_cache.cc:118-139 | frees exactly the unpinned handles |
| `LruShard.LRUCacheShard.GetPinnedUsage` | code/rocksdb/cache/lru_cache.cc:451-455 | usage less list usage is the charge of the handles with references |
| `LruShard.LRUCacheShard.Free` | code/rocksdb/cache/lru_cache.h:125-131 | is called only on a handle not freed before, without references, and outside list and table; it leaves the live handles and their charge leaves usage |
| `LruPools.RemovePooled` | code/rocksdb/cache/lru_cache.cc:178-194 | taking a handle out of the ring keeps the low-priority pointer at the split between the pools |
| `LruPools.OverflowPooled` | code/rocksdb/cache/lru_cache.cc:222-233 | the handle after the low-priority pointer is the oldest of the high-priority pool; moving the pointer on to it moves it to the other pool and changes no other |
| `LruPools.PoolIsEmpty` | code/rocksdb/cache/lru_cache.cc:222-233 | the handle after the low-priority pointer is the dummy if and only if the high-priority pool is empty |
| `LruPools.JustEnoughIsUnique` | code/rocksdb/cache/lru_cache.cc:235-249 | there is one prefix only that is just enough to evict |
| `LruPools.RejectedKeepsPinned` | code/rocksdb/cache/lru_cache.cc:366-383 | when nothing fits although eviction is done, a key is left in the table if and only if its entry was pinned |
| `LruPools.PinnedWeight` | code/rocksdb/cache/lru_cache.cc:451-455 | the charge of the live handles splits into list and pinned handles, and the list holds exactly the unpinned ones |
| `LruHistory.FiledIsPlacedLast` | code/rocksdb/cache/lru_cache.cc:34-62 | after any history of placements and departures, the table has a handle if and only if it was placed last under its key and has not left |
| `LruHistory.LookupsAreExact` | code/rocksdb/cache/lru_cache.cc:271-284 | in such a history every hit returns the handle placed last under the key, and every miss means that there is none or it has left |
| `LruStory.FiledByInsert` | code/rocksdb/cache/lru_cache.cc:118-444 | before each operation of a run, the table has a handle if and only if an earlier insertion of the run put it there and no operation since has removed it or filed another under its key |
| `LruStory.LookupsOfRun` | code/rocksdb/cache/lru_cache.cc:271-284 | a lookup of a run hits a handle if and only if that was inserted under the key and nothing has touched it since, and then the client holds it; it misses only if there is no such handle |
| `LruStory.NothingSince` | code/rocksdb/cache/lru_cache.cc:339-444 | between that insertion and the lookup nobody has erased the key, and no other insertion of it fitted |
| `LruRun.EvictsEnough` | code/rocksdb/cache/lru_cache.cc:235-249 | in the clients' terms: eviction takes entries that nobody holds, as few as make room for the new charge beside all that is in the table or held, or all of them; what does not fit afterwards does not fit beside what is held |
| `LruRun.Do` | code/rocksdb/cache/lru_cache.cc:118-444 | every client operation keeps the reference counts equal to the references held, frees nothing that is held, and places, removes and answers what the operation, the table and the references held determine: an insertion is accepted if and only if it fits beside what is held or may overflow, a release frees if and only if it is the last and forced, out of the table or over capacity |
| `LruRun.Run` | code/rocksdb/cache/lru_cache.h:28-48 | over every run of clients on a new shard: counts equal references held, held handles are alive and never freed, usage is the charge of what is in the table or held, and each operation places, removes and answers what it must; while the capacity is not lowered the high-priority pool stays within its bound and, if the limit stays strict, usage within capacity |
| `LruRun.PoolOutgrowsLoweredCapacity` | code/rocksdb/cache/lru_cache.cc:251-258 | a shard whose high-priority pool has twice its capacity after the capacity was lowered |
| `LruRun.OlderEntrySurvives` | code/rocksdb/cache/lru_cache.cc:371-378 | a shard where a key is still found after its insertion was turned away as if inserted and evicted |
| `ShardedCache.PerShardCovers` | code/rocksdb/cache/sharded_cache.cc:27-29 | the shards' capacities add up to the capacity or less than one more per shard |
| `ShardedCache.UsageIsSum` | code/rocksdb/cache/sharded_cache.cc:88-96 | the usage of one shard is its own, and that of two parts of a cache adds up |
| `ShardedCache.GetUsage` | code/rocksdb/cache/sharded_cache.cc:88-96 | the loop computes that sum; below the capacity plus the number of shards when each shard is within its part |
| `ShardedCache.RunShards` | code/rocksdb/cache/sharded_cache.cc:88-96 | over runs of clients on all n shards: the usage of the cache is the charge of all handles in the tables or held; under a strict limit and with no shard's capacity lowered or raised above its part it is below the capacity plus n |
| `ShardedCache.GetDefaultCacheShardBits` | code/rocksdb/cache/sharded_cache.cc:149-160 | the largest number of bits, at most 6, that leaves every shard 512 KB |
| `ShardedCache.Pow2Is` | code/rocksdb/cache/sharded_cache.cc:149-160 | each bit doubles the number of shards |

## Left out

- Snapshot iterator: timestamps, blob values, read callbacks, prefix mode, the lower sequence bound, the limit on skippable keys, pinning, statistics, I/O errors and merges that fail.
- User keys are represented by their rank under the comparator; `KeyCodec` shows that this is sound for the keys of the driver.
- The merge operator is a total function of key, base value and operands, whether or not its result is one of the operands; range deletion is a predicate on key and sequence number.
- Merged iterator: the cached key and validity of the child wrappers, which repeat the child's own.
- Results of batched reads: all slices of a batch point at one key buffer, so only the time at which reads run is modelled; the busy flags are not.
- Failing writes of a worker, which the source drops; the growth limits of the queue arrays; timing output.
- Weak memory: atomics and the tail counters are sequentially consistent steps; filling a slot and advancing the tail are two steps.
- SuperVersion cache: dropping a column family, write stalls, and what Cleanup frees; publishing a new SuperVersion (pointer, number and reference) is one step under the mutex.
- CLOCK cache: overflow of the 30-bit count; wrap-around of the counters; capacity tests, so eviction in the state machine may try any handle at any time; the order of the erased entries' deleters; an insertion adds to pinned usage and to usage in one step.
- LRU cache: the mutex and that deleters run after it is released; the value, the deleter and the charge of metadata (one total charge per handle); the hash masked by the length is taken modulo the length; real numbers instead of floating point.
- LruShard.LRUCacheShard.EvictFromLRU: the deleters run at once rather than after the mutex is released.
- ShardedCache.GetUsage: the shards are read at one moment; the source does not lock them against each other.
- ShardedCache: routing by the upper hash bits and the loops that pass settings on to every shard.
- Random: the period of the generator.
- Benchmark drivers for other stores, build scripts, and all file and column-family plumbing.
