# gstream in Dafny

gstream is a stream processor in Go: it reads partitioned Kafka topics, runs each record through a graph of
processors with local state, writes results and changelogs back, and restores its state from those changelogs
after a crash. This project models the parts of it whose correctness is a statement about whole runs, and proves
those statements.

`dafny verify dfyconfig.toml` checks everything. Each module has two layers where the Go code updates state in
place: functions on values that say what a step means, with the theorems about them, and classes and methods with
loops, proved against those functions.

| modules | part of gstream |
|---|---|
| `ByteOrder`, `CompositeKey` | big-endian keys, byte order, range bounds |
| `Changelog`, `Stores`, `Restore` | mutations and replay, the key-value stores, the restore loop |
| `Sessions`, `SessionTask`, `SessionProcessor` | session windows |
| `Windows`, `WindowTask`, `WindowProcessor` | tumbling and hopping windows |
| `JoinTask`, `JoinRetention`, `JoinProcessor` | stream-stream join |
| `Batch` | one polled batch, sequential and concurrent |
| `Eos`, `EosLoop`, `EosRestore` | exactly-once delivery |
| `Alo`, `OffsetCommitter`, `AloLoop` | at-least-once delivery |
| `Topology`, `Traversal`, `Executor` | the processor graph |
| `CoPartition` | automatic repartitioning in the DSL |

## Where the code does less than it says

Each of these is kept as the code has it, with a concrete instance and, for all inputs, the condition under which
the promise holds.

- **Sweeps and late records.** A record is accepted down to `streamTime - size - grace`, and windows and sessions
  are evicted by start or end below the same boundary, so an accepted record can find its window or session
  already evicted. Instances: `SessionTask.LateRecordSeesTheSweep`, `WindowTask.LateRecordSeesTheSweep`. Invisible
  exactly when: `SessionTask.SweepInvisibleIffOnTime`, `WindowTask.SweepInvisibleIffStartsLive`. The comment at
  ssjoin.go:124-128 makes the same promise for joins; it fails in `JoinRetention.LateRecordMissesItsPartner` and
  holds exactly for records at most `after` behind: `JoinRetention.SweepInvisibleIffOnTime`.
- **A confirm poll that times out too early.** When nothing has been delivered and the last stable offset covers
  the high-watermark, restore checkpoints `hw - 1` however the loop ended, and the records below are skipped for
  good: `Restore.ConfirmTimeoutSkipsRecord`. The checkpoint is honest exactly when the broker's answers do not
  starve the loop: `Restore.CheckpointHonestIff`.
- **Closing a task.** `closeTask` replays the log from its earliest offset onto the live store and then
  checkpoints `hw - 1`. If a confirm poll times out on the way, the store is rolled back for good:
  `Restore.CloseRollsBack`. Harmless exactly when the answers do not end the replay at an offset beyond which some
  key it wrote has another outcome: `Restore.CloseHarmlessIff`.
- **Self-parents.** The builder registers a node before it looks up its parents, so a node that names itself gets
  a self-loop: `Topology.SelfParentMakesCycle`, `Topology.AcyclicIff`.
- **One key without a range.** The scan of a key made of 2^32-1 bytes 0xff has no upper bound and returns nothing:
  `Stores.AllOnesEntryIsMissed`, `CompositeKey.UpperBoundMissing`, `CompositeKey.RangeForKeyExact`.
- **Empty values.** An empty value is a tombstone after restore: `Changelog.EmptyValueIsLost`,
  `Changelog.LogFidelity`.
- **Negative timestamps in joins.** Timestamps are compared as unsigned, so the join of a record whose window ends
  below -1 finds every non-negative one: `JoinTask.NegativeTimestampJoinsTheFuture`, `JoinTask.WindowAsDocumentedIff`.
- **Order of arrival in joins.** The multiset of joined values is independent of the interleaving exactly when
  `before + grace == after`; otherwise two arrivals suffice to tell: `JoinTask.OrderMattersIff`.

One comment is out of date: GroupByKey's (grouped.go:27-29) says that it never repartitions. The code does when the
key has changed, and the model follows the code.

## Model

| member | source | states |
|---|---|---|
| `CompositeKey.DecodeOfEncode` | internal/winkey/winkey.go:20-26 | decoding a composite key gives the key and start back, exactly for keys shorter than 2^32 bytes |
| `CompositeKey.EncodeOfDecode` | stores/pebble/window_key.go:27-48 | every byte string that decodes is the encoding of what it decodes to |
| `CompositeKey.DecodersAgree` | stores/memory/memory.go:418-429 | the memory and pebble decoders accept the same strings with the same result |
| `CompositeKey.EncodeInjective` | internal/winkey/winkey.go:20-26 | different entries have different keys |
| `CompositeKey.EncodeOrder` | internal/winkey/winkey.go:20-26 | within a key, byte order is the order of starts read as unsigned |
| `CompositeKey.PrefixUpperBoundMemory` | stores/memory/memory.go:407-416 | the in-place loop computes the least string above all extensions of the prefix, or nothing |
| `CompositeKey.PrefixUpperBoundPebble` | stores/pebble/keyvalue.go:618-635 | the other version computes the same |
| `CompositeKey.PrefixRange` | stores/pebble/keyvalue.go:618-635 | a string lies between a prefix and its upper bound exactly when it starts with the prefix |
| `CompositeKey.NoUpperBound` | stores/memory/memory.go:407-416 | there is no upper bound exactly for strings of 0xff |
| `CompositeKey.KeyRange` | stores/pebble/keyvalue.go:469-517 | a composite byte range under a store prefix selects exactly one key and a range of unsigned starts |
| `CompositeKey.UpperBoundMissing` | stores/pebble/window_key.go:63-68 | the upper bound of a key is missing for one key only |
| `CompositeKey.RangeForKeyExact` | stores/memory/memory.go:283-305 | the bounds of a key select all its entries and no other, except for that key, for which they select none |
| `CompositeKey.ScanBoundsExact` | ssjoin.go:94-107 | for every timestamp and all stored keys and starts, what the join's byte range selects: this key and starts in `[lo, hi]`, also where `hi + 1` wraps to MinInt64, or everything up to `hi` and from `lo` on where `hi` is below -1 |
| `CompositeKey.ScanIsWindowIff` | ssjoin.go:86-107 | the range means `[lo, hi]` for all starts if and only if `hi` is at least -1 |
| `CompositeKey.StoreRangeIsolated` | stores/pebble/keyvalue.go:255-307 | the range of a store holds all its keys, none of another store, no checkpoint or stream-time key |
| `Changelog.ReplayConcat` | stores/memory/memory.go:78-95 | restoring in two calls is restoring in one |
| `Changelog.ReplayAt` | stores/memory/memory.go:84-90 | last writer wins: replay leaves at a key what the last mutation of that key says |
| `Changelog.OverlappingReplay` | internal/runtime/task_manager.go:519-530 | replaying from any point at or before what the store already holds gives the full replay |
| `Changelog.GapHarmlessIff` | internal/runtime/restore.go:139-142 | leaving a piece of the log out is harmless if and only if every key whose last write is in it already had that outcome |
| `Changelog.GappedReplayLoses` | internal/runtime/restore.go:139-142 | an instance in which a skipped mutation is lost |
| `Changelog.RepeatHarmlessIff` | internal/runtime/task_manager.go:519-530 | replaying an inner piece again and stopping before the end is harmless if and only if no key has different last writes in it and after it |
| `Changelog.CompactionInvisible` | internal/runtime/restore.go:191-205 | a mutation that a later one of its key supersedes can be dropped from the log |
| `Changelog.RestoredLogAt` | stores/memory/memory.go:308-386 | what restoring the drained and pending mutations leaves at each key, for every sequence of operations and drains, in both stores: the store's value, unless the key's last write put the empty string |
| `Changelog.LogFidelity` | stores/pebble/keyvalue.go:147-249 | restoring them reproduces the store exactly if and only if no key's last write puts the empty string |
| `Changelog.EmptyValueIsLost` | stores/memory/memory.go:377-386 | one put of the empty string, which the restored copy does not have |
| `Stores.Database.Restore` | stores/memory/memory.go:78-95 | applies the mutations in order and records the checkpoint with them; a negative checkpoint is not recorded; a closed database changes nothing |
| `Stores.Database.WriteCheckpoint` | stores/memory/memory.go:107-115 | records the checkpoint; a closed database refuses |
| `Stores.Database.ReadCheckpoint` | stores/memory/memory.go:97-105 | the last checkpoint recorded for the store, if any |
| `Stores.KeyValueStore.Write` | stores/memory/memory.go:347-386 | database and mutation log change together; a closed store changes nothing |
| `Stores.KeyValueStore.Put` | stores/memory/memory.go:174-185 | one key changes; refines the logged store |
| `Stores.KeyValueStore.Delete` | stores/memory/memory.go:187-194 | one key goes; refines the logged store |
| `Stores.KeyValueStore.Get` | stores/memory/memory.go:334-345 | the value under the prefixed key |
| `Stores.KeyValueStore.WindowGet` | stores/memory/memory.go:232-235 | the windowed entry |
| `Stores.KeyValueStore.WindowPut` | stores/pebble/keyvalue.go:439-460 | exactly one windowed entry changes; the store stays well formed |
| `Stores.KeyValueStore.WindowDelete` | stores/pebble/keyvalue.go:524-547 | exactly one windowed entry goes |
| `Stores.ViewOfWrite` | stores/memory/memory.go:237-245 | a raw write under a composite key is a change of one windowed entry |
| `Stores.OtherStoreUntouched` | stores/memory/memory.go:327-332 | changes under one store's prefix leave all entries of every other store |
| `Stores.KeyValueStore.DrainMutations` | stores/memory/memory.go:308-314 | hands over all pending mutations once |
| `Stores.KeyValueStore.Collect` | stores/memory/memory.go:196-230 | the keys of the range, all of them, sorted, from a map visited in any order |
| `Stores.KeyValueStore.Range` | stores/memory/memory.go:196-230 | exactly the store's own entries in byte order |
| `Stores.KeyValueStore.RangeCompositeBytes` | stores/pebble/keyvalue.go:469-517 | exactly the entries of the range, in byte order, prefix stripped |
| `Stores.KeyValueStore.RangeForKey` | stores/memory/memory.go:283-305 | exactly one key's entries in unsigned start order, and nothing for the key without an upper bound; it fails exactly when the store is closed or a key in the range is malformed |
| `Stores.AllOnesEntryIsMissed` | stores/memory/memory.go:283-305 | a stored entry of that key which the scan misses |
| `Stores.KeyValueStore.DeleteRangeBytes` | stores/pebble/keyvalue.go:371-405 | exactly the range goes, and the logged tombstones replay to the same contents |
| `Stores.ScanUnique` | stores/memory/memory.go:247-281 | a scan is determined by contents and range |
| `Stores.RangeShowsAll` | internal/runtime/task_manager.go:637-650 | a full scan shows every windowed entry and only those |
| `Restore.RestoreFromChangelog` | internal/runtime/restore.go:139-299 | data, checkpoint and outcome of the call for every log, chunking and ending; an error changes nothing; once the fetches bring the last visible offset to `hw - 1`, the call succeeds whatever would follow, with the replay of the visible records and the last of their offsets as checkpoint |
| `Restore.Consume` | internal/runtime/restore.go:225-283 | the poll loop collects exactly the visible records up to where it stops, and stops where `Restore.FirstOtherPollDecides` says |
| `Restore.FirstOtherPollDecides` | internal/runtime/restore.go:225-283 | for every script of answers: the first one that is not a fetch below `hw - 1` ends the loop, and how; a fetch that reaches `hw - 1` stops it there, a timeout stops it only once the last stable offset is known to cover hw |
| `Restore.DeliveredIsRestored` | internal/runtime/restore.go:278-298 | a log delivered up to `hw - 1` is restored: the data is the replay of its visible records and the checkpoint is the last of them, whatever answers would follow |
| `Restore.ApplyFetch` | internal/runtime/restore.go:191-223 | one mutation per visible record, empty values as tombstones, last offset tracked |
| `Restore.FairDriveDrains` | internal/runtime/restore.go:242-283 | if the loop gives up only when nothing visible is left, nothing visible below hw is left when it stops |
| `Restore.RestoreComplete` | internal/runtime/restore.go:285-298 | then the backend is the replay of all visible records from the start offset, the checkpoint matches the data, no visible record lies between it and hw, and it moves forward |
| `Restore.RestoreResumes` | internal/runtime/restore.go:139-146 | resuming from a written checkpoint on a longer log is one longer restore |
| `Restore.RestoreAgain` | internal/runtime/restore.go:143-146 | restoring again changes no data and never lowers the checkpoint, whatever the polls do |
| `Restore.StarvesIff` | internal/runtime/restore.go:225-292 | the broker's answers starve the loop exactly when it ends resolved, with nothing applied and something visible left |
| `Restore.CheckpointHonestIff` | internal/runtime/restore.go:285-292 | no record below the written checkpoint was skipped if and only if the broker's answers do not starve the loop |
| `Restore.ConfirmTimeoutSkipsRecord` | internal/runtime/restore.go:255-291 | an instance in which a committed record is skipped for good after the first confirm poll timed out |
| `Restore.CloseStore` | internal/runtime/task_manager.go:519-530 | the restore with MaxInt64 and the checkpoint written afterwards, for every answer of the broker; a failed restore or an empty log changes nothing |
| `Restore.FairCloseReplays` | internal/runtime/task_manager.go:519-530 | if the loop gives up only when nothing visible is left, the replay from the earliest offset, to which MaxInt64 plus one wraps, is harmless and the checkpoint `hw - 1` is the truth |
| `Restore.CloseHarmlessIff` | internal/runtime/task_manager.go:519-530 | for every answer of the broker: a store that held the log still holds it if and only if the answers do not end the replay where it undoes a later write |
| `Restore.CloseRollsBack` | internal/runtime/task_manager.go:519-530 | an instance in which the live store is rolled back and the checkpoint makes it permanent |
| `Sessions.AtMostTwoMatch` | session.go:196-217 | a record matches at most two sessions of its key |
| `Sessions.UnmatchedStaysClear` | session.go:219-263 | the merged session stays more than a gap away from every unmatched one, so its put overwrites none |
| `Sessions.ShapeStep` | session.go:188-263 | a step keeps sessions apart, dense, anchored at their start, and covering all timestamps |
| `Sessions.AggregateShape` | session.go:188-263 | so they are after every sequence of records |
| `Sessions.AggregateAccumulates` | session.go:228-248 | every session holds the accumulator of exactly its records, for any aggregation that is a fold over multisets |
| `Sessions.SessionsAreComponents` | session.go:196-263 | two timestamps share a session if and only if a chain of records with steps of at most the gap connects them |
| `Sessions.OrderOfArrivalIrrelevant` | session.go:188-263 | every permutation of the records leaves the same store |
| `Sessions.CountFoldsMultisets` | session.go:103-119 | Count is such a fold |
| `Sessions.CountsAddUp` | session.go:103-119 | the counts add up to the number of accepted records |
| `SessionTask.RunAggregatesEachKey` | session.go:151-164 | over a run with many keys and late drops, each key's store is the aggregate of its accepted records |
| `SessionTask.AllAcceptedIffTimely` | session.go:151-164 | every record of a key is accepted, in order, if and only if none is more than `gap + grace` behind the highest timestamp before it |
| `SessionTask.OnTimeIsTimely` | session.go:151-164 | records at most `grace` behind are all accepted and none is counted late |
| `SessionTask.SweepEvictsExactly` | internal/runtime/task_manager.go:679-722 | a sweep evicts, in every key, exactly the sessions that ended before a positive `streamTime - gap - grace` |
| `SessionTask.SweepsAreInvisible` | internal/runtime/task_manager.go:679-722 | if every record is at most `grace` behind, sweeps at arbitrary points change no update, and the stores differ only in sessions that ended before the boundary |
| `SessionTask.SweepInvisibleIffOnTime` | session.go:153-164 | for one sweep and one accepted record this holds in every store if and only if nothing could be evicted or the record is at most `grace` behind |
| `SessionTask.LateRecordSeesTheSweep` | internal/runtime/task_manager.go:683-706 | an accepted record that finds its session evicted |
| `SessionProcessor.ValueCodec` | session.go:317-335 | session values decode to what was encoded; shorter values are refused |
| `SessionProcessor.SessionProcessor.Match` | session.go:194-217 | the scan callback finds exactly the matching, decodable sessions, in order |
| `SessionProcessor.SessionProcessor.MergeAccs` | session.go:227-235 | accumulators merge from the first match; the initial one is used only when there is none |
| `SessionProcessor.SessionProcessor.MergeBounds` | session.go:219-244 | least start and greatest end of the matches and the record |
| `SessionProcessor.SessionProcessor.Process` | session.go:143-267 | on the byte store, at every timestamp: a record is counted late if and only if it lies below `streamTime - gap - grace`, and late records change nothing but clock and counter; others make exactly the abstract step on their key and leave all other keys; the key that cannot be scanned gets a new session each time; a malformed key in the scan is an error |
| `SessionProcessor.SessionProcessor.Run` | session.go:143-267 | a whole run with sweeps, from an empty byte store, ends with what the model's run ends with; without sweeps every key holds the aggregate of its accepted records, which are all its records if none is more than `gap + grace` behind; the late counter counts those that are |
| `SessionProcessor.SessionProcessor.Sweep` | internal/runtime/task_manager.go:679-722 | evicts exactly the expired sessions of every key |
| `Windows.Assign` | window.go:59-111 | the assigned windows, for tumbling by division and for hopping by the loop |
| `Windows.AssignExact` | window.go:59-111 | exactly the aligned non-negative windows that contain the timestamp, ascending, no duplicates |
| `Windows.HoppingExact` | window.go:98-129 | for hopping windows at negative timestamps too |
| `Windows.TumblingContainsIff` | window.go:59-62 | the tumbling window contains a negative timestamp only if that is a multiple of the size |
| `WindowTask.TableIsBatchFold` | windowed.go:112-185 | after any run without sweeps the value at a key and start is the fold, in arrival order, of exactly the accepted records in that window |
| `WindowTask.AllAcceptedIffTimely` | windowed.go:119-134 | a window takes every record of its key, in order, if and only if none is more than `size + grace` behind |
| `WindowTask.OnTimeIsTimely` | windowed.go:119-134 | records at most `grace` behind are all taken and none is counted late |
| `WindowTask.SweepsAreInvisible` | internal/runtime/task_manager.go:625-660 | if every record is at most `grace` behind, sweeps change no update, and tables differ only in windows that started before the boundary |
| `WindowTask.LiveStartsSeeNoSweep` | windowed.go:122-181 | for every aggregation, key, value and table, a sweep is invisible to a record whose windows it left |
| `WindowTask.SweepInvisibleIffStartsLive` | windowed.go:122-123 | for one sweep and one accepted record this holds of all aggregations, keys, values and tables if and only if no window assigned to the record starts below the boundary |
| `WindowTask.LateRecordSeesTheSweep` | internal/runtime/task_manager.go:630-644 | an accepted record that restarts an evicted window |
| `WindowProcessor.WindowedProcessor.UpdateWindow` | windowed.go:156-181 | get, fold, put of one window; a stored value that does not decode is an error |
| `WindowProcessor.WindowedProcessor.Process` | windowed.go:112-185 | on the byte store, at every timestamp: a record is counted late if and only if it lies below `streamTime - size - grace`; any other is folded into each assigned window, up to the first whose value does not decode, and into nothing else |
| `WindowProcessor.WindowedProcessor.Run` | windowed.go:112-185 | a whole run with sweeps, from an empty byte store, ends with what the model's run ends with; without sweeps every window holds the fold of its accepted records; the late counter counts the records more than `size + grace` behind |
| `WindowProcessor.SweepWindowStore` | internal/runtime/task_manager.go:625-660 | on any store and retention, exactly the entries that start below the boundary go, and no other store of the database changes |
| `WindowProcessor.WindowedProcessor.Sweep` | internal/runtime/task_manager.go:625-660 | the aggregate's table after it is the swept one |
| `JoinTask.WindowAsDocumentedIff` | ssjoin.go:112-119 | the window searched is the documented one if and only if it ends at or above -1 |
| `JoinTask.NegativeTimestampJoinsTheFuture` | ssjoin.go:94-107 | an accepted record with an empty documented window that is joined with a later one |
| `JoinTask.StoresHoldLatest` | ssjoin.go:180-224 | each side's store holds, per key and timestamp, the value of the last accepted arrival |
| `JoinTask.EmissionsOfArrival` | ssjoin.go:236-250 | an arrival emits one value per timestamp in its window at which the other side has a record, in scan order, and nothing else; the left value is always the first argument |
| `JoinTask.PairEmittedOnce` | ssjoin.go:180-331 | with distinct timestamps per key and side a pair is emitted by the later arrival, exactly once, if and only if the earlier timestamp is in its window |
| `JoinTask.OutputIsPairs` | ssjoin.go:180-331 | a run emits the values of exactly the in-window pairs |
| `JoinTask.InterleavingIrrelevant` | ssjoin.go:94-107 | when `before + grace == after` every interleaving emits the same multiset |
| `JoinTask.OrderMattersIff` | ssjoin.go:94-107 | and for every other configuration some two interleavings differ |
| `JoinRetention.SweepsAreInvisible` | ssjoin.go:45-59 | if every arrival is at most `after` behind, a run with sweeps emits what the run without them emits |
| `JoinRetention.SweepInvisibleIffOnTime` | ssjoin.go:124-128 | for one sweep and one accepted arrival all partners survive in every store if and only if nothing could be evicted or the arrival is at most `after` behind |
| `JoinRetention.LateRecordMissesItsPartner` | ssjoin.go:124-128 | an accepted arrival whose partner is gone |
| `JoinProcessor.BoundsAreWindow` | ssjoin.go:94-107 | the byte bounds are the join window |
| `JoinProcessor.ScanListsPartners` | ssjoin.go:236-246 | the byte scan visits exactly the partners, in the order of unsigned timestamps |
| `JoinProcessor.StepOf` | ssjoin.go:180-251 | a record below `streamTime - before - after - grace` only advances the clock; any other is buffered on its side and joined with its partners on the other |
| `JoinProcessor.JoinProcessor.ProcessLeft` | ssjoin.go:180-251 | on two byte stores of one database, at every timestamp: buffers left, scans right, forwards what the abstract step forwards; it fails exactly when a store is closed or a partner does not decode, and the record stays buffered |
| `JoinProcessor.JoinProcessor.ProcessRight` | ssjoin.go:258-329 | the mirror image, with the argument order of the joiner kept |
| `JoinProcessor.JoinProcessor.Sweep` | internal/runtime/task_manager.go:574-660 | the sweep of both byte stores is the abstract one |
| `JoinProcessor.JoinProcessor.Run` | ssjoin.go:180-331 | a whole run with sweeps, from empty byte stores: the stores end with what the model's run ends with, and every arrival forwards what the model's forwards |
| `Batch.ProcessBatch` | internal/kafka/batch.go:24-46 | the records in order up to the first failure; a failure discards all outputs |
| `Batch.SequentialIsByTask` | internal/kafka/batch.go:30-45 | without failure, batch order is each partition on its own |
| `Batch.SequentialFailure` | internal/kafka/batch.go:30-42 | it fails only if some partition fails on its own |
| `Batch.Group` | internal/kafka/batch.go:70-80 | one group per partition by first appearance, with exactly its records in order |
| `Batch.PartitionsByFirst` | internal/kafka/batch.go:48-80 | the partitions of a batch are listed in the order of their first records |
| `Batch.RunWorkers` | internal/kafka/batch.go:85-99 | in every interleaving each worker ends where its partition alone would end |
| `Batch.ProcessBatchConcurrent` | internal/kafka/batch.go:51-109 | refines `ProcessBatch`: same flag, same tasks, same outputs per partition, in order of first appearance; any failure yields no outputs |
| `Eos.TableIsFold` | grouped.go:104-129 | the table holds, for every key, the aggregation of that key's values in order |
| `Eos.ChangelogIsTable` | grouped.go:83-136 | the changelog that a partition's inputs write replays to their fold |
| `Eos.SinkIsSinkLog` | grouped.go:118-136 | what a partition's inputs send to a topic partition is, input by input, the outputs for the accumulator that the table holds for the input's key once that input has been applied |
| `Eos.ProcessKeeps` | internal/kafka/client.go:735-743 | processing a record, at any point of a transaction, keeps the invariant |
| `Eos.DrainKeeps` | internal/runtime/task_manager.go:230-252 | so does draining in any order of partitions |
| `Eos.CommitExactly` | internal/kafka/client.go:819-836 | a commit moves visible records and offsets together |
| `Eos.StepKeeps` | internal/kafka/client.go:648-836 | every step keeps the invariant: crashes, aborts, unknown outcomes, many polls in a transaction |
| `Eos.ExactlyOnce` | internal/kafka/client.go:630-647 | in every reachable state the committed changelog replays to the fold of exactly the inputs below the committed offset, and every sink channel holds exactly the outputs for the accumulators these inputs make, input by input, each once, in order |
| `Eos.ConsumedCounts` | internal/kafka/client.go:722-737 | a batch moves each partition by the number of its records, up to the end of its inputs |
| `EosLoop.Session.ProcessBatch` | internal/kafka/client.go:735-743 | the batch loop consumes exactly the fetched records, or stops at the failing one, by steps of the machine only |
| `EosLoop.Session.DrainAndProduce` | internal/kafka/client.go:769-807 | sinks then changelog in one request, which fails exactly when it stops before its last record, and commits nothing |
| `EosLoop.Session.HandleBatch` | internal/kafka/client.go:722-816 | without failures the records are consumed; past the deadline everything consumed is then committed and the transaction is over, before it the transaction stays open and nothing is committed; a failure of processing, hook or produce aborts, stops the loop and commits nothing |
| `EosLoop.Session.EndInterval` | internal/kafka/client.go:710-719 | past the deadline, an interval with records is committed and one without is aborted; either way the committed offsets are the positions, unless the commit fails, which stops the loop and moves no offset |
| `EosLoop.Session.HandlePoll` | internal/kafka/client.go:683-816 | the same for empty fetches; a closed client leaves the transaction open, a cancelled context aborts it, and neither commits |
| `EosLoop.Session.CommitTransaction` | internal/kafka/client.go:819-836 | on success the transaction is committed and the committed offsets are the positions; every other outcome stops the loop with the transaction aborted, open or prepared and no offset moved |
| `EosLoop.Session.RunEOS` | internal/kafka/client.go:648-817 | every execution, with inputs arriving before every poll, is a run of the machine, so every partition ends with exactly-once on changelog and sinks; while polls succeed everything fetched is consumed and everything consumed up to the last poll past a deadline is committed; a poll that stops the loop changes no committed offset |
| `EosLoop.SinksThenLogs` | internal/kafka/client.go:785-786 | putting sink records before changelog records changes no channel |
| `EosRestore.LogIsVisible` | internal/runtime/restore.go:63-85 | reading a changelog partition past aborted records and markers gives the committed changelog |
| `EosRestore.RestartRestoresFold` | internal/runtime/restore.go:106-299 | after any exactly-once run the restore loop leaves the fold of exactly the inputs below the committed offset |
| `OffsetCommitter.MaxOffsetIsMax` | internal/kafka/client.go:132-145 | what is pending is the highest offset added |
| `OffsetCommitter.MaxOffsetOfSet` | internal/kafka/client.go:132-145 | whatever the order and the repetitions |
| `OffsetCommitter.Committer.Add` | internal/kafka/client.go:132-145 | pending stays the maximum per topic partition of all records added since the last commit |
| `OffsetCommitter.Committer.Due` | internal/kafka/client.go:147-151 | something is pending and the interval has passed |
| `OffsetCommitter.Committer.Commit` | internal/kafka/client.go:162-180 | sends one past each maximum; only success clears and restarts the interval |
| `Alo.LogIsFold` | internal/kafka/client.go:535-556 | the flushed changelog replays to the fold of the attempts flushed |
| `Alo.FoldIsTable` | grouped.go:83-136 | the fold of attempts is the exactly-once table of the inputs in the order attempted |
| `Alo.StepKeeps` | internal/kafka/client.go:460-596 | every step keeps the invariant and lowers no committed offset |
| `Alo.StepInventsNothing` | internal/kafka/client.go:530-586 | no step puts an output on the sinks that no flushed attempt made |
| `Alo.AtLeastOnce` | internal/kafka/client.go:449-459 | in every reachable state every input below a committed offset has an attempt whose changelog record and outputs, with their multiplicities, are all on the broker, and a restart restores a fold that includes it; every changelog record is that of its attempt, and no output is there more often than the attempts make it |
| `AloLoop.FlushedButNotCommitted` | internal/kafka/client.go:537-539 | a run in which an input is applied twice |
| `AloLoop.Client.FlushAll` | internal/runtime/task_manager.go:131-175 | every collector is flushed, or the flush stops somewhere |
| `AloLoop.Client.Remember` | internal/kafka/client.go:587-587 | after produce, the committer holds one less than each position |
| `AloLoop.Client.CommitOffsets` | internal/kafka/client.go:588-594 | every offset that was not committed yet is now the position, for all partitions if the broker accepts and for those it takes if not; only acceptance restarts the interval |
| `AloLoop.Client.CommitWhenDue` | internal/kafka/client.go:505-512 | once the interval has passed, everything processed is committed, or what the broker takes; before, nothing is |
| `AloLoop.Client.HandleBatch` | internal/kafka/client.go:514-595 | without failures the records are consumed, nothing stays in flight, and once the interval has passed everything processed is committed; a failing record stops the loop, and a stopped loop has committed nothing |
| `AloLoop.Client.HandlePoll` | internal/kafka/client.go:487-512 | the same for empty fetches; a cancelled context commits everything processed before it stops the loop |
| `AloLoop.Client.RunALO` | internal/kafka/client.go:460-607 | every execution, with inputs arriving before every poll, is a run of the machine, so at-least-once holds at its end over all inputs that arrived; while polls succeed everything fetched is consumed; after a shutdown, or a poll by which the interval has passed, everything consumed is committed if the broker accepts |
| `Topology.Builder.Wiring` | internal/topology/topology.go:94-100 | parents are wired in order up to the first unknown one |
| `Topology.Builder.AddSource` | internal/topology/topology.go:63-79 | adds one node or refuses a known name |
| `Topology.Builder.AddProcessor` | internal/topology/topology.go:84-125 | adds the node, then its edges; edges keep climbing |
| `Topology.Builder.AddSink` | internal/topology/topology.go:130-156 | the same for sinks |
| `Topology.AddExact` | internal/topology/topology.go:84-156 | a successful call adds the node, one edge per mention of a parent at the end of that parent's downstreams, and nothing else |
| `Topology.AddIff` | internal/topology/topology.go:63-156 | a call goes through if and only if its name is new and, unless it adds a source, it names at least one parent and only registered nodes or itself |
| `Topology.BuildIff` | internal/topology/topology.go:63-156 | a sequence of calls builds a graph if and only if each name is new and each parent is named by an earlier call or the call itself; the nodes are then those named |
| `Topology.BuildClimbs` | internal/topology/topology.go:84-156 | after any calls every edge climbs in insertion order or is a self-loop, and self-loops come exactly from calls that name themselves |
| `Topology.CycleIffSelfLoop` | internal/topology/topology.go:84-156 | such a graph has a cycle only if it has a self-loop |
| `Topology.AcyclicIff` | internal/topology/topology.go:81-102 | a finished build is acyclic if and only if no call named its own node as a parent |
| `Topology.SelfParentMakesCycle` | internal/topology/topology.go:91-100 | a build that goes through with a cycle |
| `Traversal.FirstErrorWins` | internal/topology/processor.go:89-117 | a traversal, with the stores threaded through it, is the full depth-first trace cut at the first error anywhere in the subtree: state, sink records and error |
| `Traversal.DriverIsExecutor` | internal/topology/testdriver.go:42-77 | from the same state, test driver and executor give the same sink records in the same order, the same state and the same first error |
| `Traversal.PathsExact` | internal/topology/processor.go:130-140 | the enumerated paths are exactly the paths, without duplicates |
| `Traversal.OneCopyPerPath` | internal/topology/processor.go:124-153 | with pass-through processors a sink receives one copy per path |
| `Traversal.RoutesExact` | internal/topology/processor.go:130-140 | the routes from a node are exactly the paths to sinks |
| `Traversal.DeliveredInPathOrder` | internal/topology/processor.go:124-153 | with pass-through processors the copies arrive path by path, in the order in which the paths part at their nodes' downstreams |
| `Executor.Executor.VisitNode` | internal/topology/processor.go:124-153 | the recursive traversal leaves the state, appends to the buffers and returns the error that the graph semantics says |
| `Executor.Executor.Process` | internal/topology/executor.go:73-82 | drives a known source; refuses an unknown one |
| `Executor.Executor.DrainSink` | internal/topology/executor.go:89-97 | hands over a buffer once and clears it |
| `CoPartition.UnflaggedIsAligned` | operators.go:12-106 | for every graph the operators build, a stream without the flag has every record on the partition of its key |
| `CoPartition.FlagIffKeyChange` | operators.go:12-106 | a stream is flagged if and only if an operator that may change keys lies below it with only key-keeping operators between |
| `CoPartition.OneTaskPerKey` | grouped.go:30-38 | a grouped key is seen by one task only |
| `CoPartition.LocalJoinIsGlobal` | join.go:116-179 | records of one key meet in some task if and only if they exist at all |
| `CoPartition.KeyChangeMisaligns` | operators.go:81-106 | without the flag a key change would put records on a wrong partition |
| `CoPartition.StreamBuilder.Filter` | operators.go:12-29 | the flag is the parent's |
| `CoPartition.StreamBuilder.MapValues` | operators.go:33-52 | the flag is the parent's |
| `CoPartition.StreamBuilder.Map` | operators.go:59-79 | the flag is set |
| `CoPartition.StreamBuilder.SelectKey` | operators.go:87-106 | the flag is set and the value kept |
| `CoPartition.StreamBuilder.JoinGlobal` | join.go:26-94 | the flag is the parent's |
| `CoPartition.StreamBuilder.Repartition` | repartition.go:34-94 | a round trip through an internal topic clears the flag |
| `CoPartition.StreamBuilder.EnsureRepartition` | repartition.go:27-32 | an unflagged stream is left alone, a flagged one shuffled |
| `CoPartition.StreamBuilder.GroupByKey` | grouped.go:30-38 | the grouped stream is unflagged |
| `CoPartition.StreamBuilder.JoinTable` | join.go:116-179 | the stream side is shuffled if needed, and the result is unflagged |
| `CoPartition.StreamBuilder.Join` | ssjoin.go:129-139 | both sides are shuffled if needed, and the result is unflagged |

## Left out

- Network calls, topic creation, metadata and offset requests: the broker is a log per channel with atomic transactions and committed offsets; polls, timeouts and answers arrive as scripts or as free choices.
- Pebble's own storage and fsync: it is an ordered byte map with atomic batches.
- Serdes and typed keys: an encode and decode pair with `decode(encode(x)) == x`; type-assertion failures are not modelled.
- `kafkaMurmur2`: any deterministic hash.
- The sweep interval of `runSweep`: sweeps happen at arbitrary points, which includes it.
- int64 overflow of `before + grace`, of window ends and of stream-time arithmetic: windows and sessions use unbounded integers; the wraps that the code relies on (`hi + 1`, checkpoint plus one) are modelled.
- Keys of 2^32 bytes or more: the length prefix drops their high bits; `CompositeKey.DecodeOfEncode` shows that this is exactly where decoding fails, and windowed operations are stated below it.
- Malformed keys in a join store: the two join stores hold windowed entries only, as nothing else is written to them.
- Rebalancing while an exactly-once transaction is open, and local state that survives an aborted transaction: single instance, restored into an empty backend.
- Stream time across restarts in the delivery theorems: these are about flat aggregates.
- Windowed, session and join results in the delivery theorems: the stateful step there is the flat aggregate.
- Processors that use a store between two forwards: in `Traversal` and `Executor` a processor uses its stores first and then forwards, as all processors of the DSL do.
- Scan callbacks that stop early: scans return lists, and no caller in scope stops early except on an error, which is modelled.
- Two `Repartition` calls with one name, of which the later replaces the earlier binding.
- `PipelineHealth`, `GlobalConsumer`, `collectPartitions`, hook wiring and configuration: plumbing.
- Alo.AtLeastOnce: promises an attempt at every input and a restore that includes it, not agreement with a run without duplicates, because the code applies duplicates (`AloLoop.FlushedButNotCommitted`).
