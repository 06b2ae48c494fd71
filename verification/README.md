# streamstack, verified

A Dafny model of the hard core of streamstack: the replicated metadata plane (state machine, codecs, snapshots, the
log shared through SQL, leases) and the stream engine on top of it (concurrent appends, tail cache, idempotent
producers, sparse indexes, bandwidth limiter). Nothing here was executed; every statement below is a contract or a
lemma checked by the Dafny verifier.

    dafny verify dfyconfig.toml

## How it is organised

**Metadata state machine.** `Metadata` holds the rows, tables and 18 commands. `Apply` is the transition function as
a specification over state values; loops of the handlers appear as folds over the processed prefix. `Machine` is the
same machine updated in place, one method per handler, loops included, and is proved equal to the specification,
including that a failed command leaves no trace. On top of it:

- `Indexes`: all seven secondary indexes are determined by their primary map after any run.
- `StreamLife`: on any run a stream's row, its owner and a node's admission are what the last accepted commands made
  them, and exactly when those let the next command through.
- `ObjectLife`: the same for leases, the cleanup queue, key-value entries, commits and compactions.
- `Ownership`: epochs, node fencing, pending moves and stream ids over whole runs.
- `Offsets`: exactly when no stream offset ever goes back.
- `Retry`: what sending a command again does, at once or later in a run; an append is applied at most once.
- `Lifecycle`: exactly when the stages of an object id stay disjoint; the cleanup queue keeps its order.
- `Coverage` and `Query`: every live offset is in a committed object, and the object query finds it.
- `Placement`: slot-weighted placement stays balanced.
- `Unguarded`: accepted runs that break what the handlers leave to their callers.

**Bytes.** `Wire` is a decoder and encoder for nested layouts with their laws; `Codec` (command batches) and
`Snapshot` (primary maps, indexes rebuilt on load) instantiate it. `Layout` gives the bytes of every command outright.

**Replication.** `LogStore` is the shared table. `Replication` is a transition system over any number of nodes, each
with a tailer and a flusher, interleaved at every store call, with crashes and with statements that land after their
issuer gave up. It is stated for any machine with lawful codecs; `ReplicatedMetadata` shows the metadata machine is
one. `Proposals` follows a batch from the node that takes it to its answer. `StaleAppend` is the run that forks the
state when the append guard is missing. `LeaseKeeper` is the lease protocol, with crashes and with statements that land
late.

**Stream data plane.** `StreamAppend` (concurrent append and close), `Framing`, `TailCache` (cache and both read
paths), `Producer` (append handler and client session), `RangeIndex`, `BlockIndex`, `Throttle`.

`Bytes` and `Order` are shared helpers.

## Where the code needs a hypothesis

- *Append guard.* The log accepts a row at any free index, and the index comes from a possibly stale observation
  (`picomq/pico-sql/src/store.rs:167-176`, `picomq/pico-sql/src/sink.rs:405`). Agreement is false without the
  hypothesis that no append lands at or below the stored snapshot index: `StaleAppend.StaleAppendForks` and
  `ReplicatedMetadata.MetadataForksWithoutGuard` give the run. `Replication.StepKeepsIff` gives the exact condition
  for one event: the row lands above the snapshot, or is the very row that was truncated there. A run keeps the
  invariant if and only if all its events are such (`Replication.RunKeepsIff`).
- *Node id -1.* It marks an unplaced stream, yet a node may register under it. `Indexes.SentinelNodeBreaksIndex` is
  the run that leaves an index inexact; `Indexes.StepExactIff` is the exact condition.
- *Object ids.* The handlers do not check that a compaction's sources are live nowhere else, that a commit's new ids
  are neither queued for cleanup nor compacted away by that commit, or that the ids about to be leased were never
  committed. `Lifecycle.StepDisjointIff` is the exact condition for one command and `Lifecycle.RunDisjointIff` for a
  run; `Unguarded.CommitReusesCompactedId`, `Unguarded.CompactionQueuesLiveObject` and
  `Unguarded.LeaseHandsOutLiveId` are the runs.
- *Compacted data.* A compaction need not replace what it removes. `Coverage.StepCoversIff` and `Coverage.RunCoversIff`
  are the exact conditions, `Unguarded.CompactionUncovers` the run.
- *Backward ranges.* A commit may list a range that ends before it starts, and the stream's end offset may then retreat:
  `Unguarded.BackwardRangeAccepted`. The exact condition is that no commit lists, as its last end for a stream, one
  behind the stream's own (`Offsets.StepOnwardIff`, `Offsets.RunOnwardIff`). Forward ranges are enough, but a backward
  range may also be made up for within the commit (`Unguarded.MadeUpRangeOnward`).
- *Durability order.* The confirm offset is a maximum, so it bounds durable data only when no append is confirmed before
  an earlier record is durable: `StreamAppend.RunDurableIff`, and `StreamAppend.OutOfOrderConfirms` for the run.
- *Late lease calls.* A lease call that failed may still execute. When it lands on a newer claim of its own holder it
  cuts the lease short, and two keepers hold it at once: `LeaseKeeper.LateAcquisitionSplits` and
  `LeaseKeeper.LateRenewalSplits`. `LeaseKeeper.StepKeepsIff` is the exact condition for one event,
  `LeaseKeeper.RunKeepsIff` for a run.
- *Half-done appends.* An append is handed to the stream before it is recorded and durable. If it survives unrecorded a
  retry lands it twice (`Producer.UnrecordedLandsTwice`); if it is recorded and then lost a retry is told it is a
  duplicate (`Producer.LostIsCalledDuplicate`). `Producer.HandleKeepsPrefixIff` and `Producer.SessionInOrderIff` are the
  exact conditions.
- *Late retries.* A deletion of an id that was not handed out yet is accepted and may delete the stream when it arrives
  again: `Unguarded.EarlyDeleteDeletes`, with the exact condition in `Retry.DeleteSpentIff`. A compaction that arrives
  again after its output was compacted brings the output back: `Unguarded.LateCompactionRevives`, with the exact
  condition in `Retry.LateCompactRetryIff`.
- *Large acquisitions.* An acquisition granted at once may break the bandwidth bound when it is larger than the tokens
  left plus the cap: `Throttle.OverCapAcquisition` is the input, and `Throttle.Limiter.Acquire` the condition, over what
  a caller reads before the call.

## Model

| member | source | states |
|---|---|---|
| `Machine.StateMachine.Apply` | picomq/pico-metadata/src/apply.rs:23-31 | the in-place machine gives the specified result and state; a failed command changes nothing however far its handler got |
| `Machine.StateMachine.Dispatch` | picomq/pico-metadata/src/apply.rs:33-121 | every handler refines its specification |
| `Machine.StateMachine.CreateStreams` | picomq/pico-metadata/src/apply.rs:213-245 | the id loop creates exactly the next `count` ids, within the count limits |
| `Machine.StateMachine.PickNode` | picomq/pico-metadata/src/apply.rs:272-295 | one pass over the nodes, in any order, finds the least score with the lowest id on ties, or that no node is eligible |
| `Machine.StateMachine.PlaceStream` | picomq/pico-metadata/src/apply.rs:254-312 | placement puts the stream on that node and indexes it, idempotently for placed streams |
| `Machine.StateMachine.DeleteStream` | picomq/pico-metadata/src/apply.rs:565-619 | deletion cascades to every object of the stream and queues them in key order |
| `Machine.StateMachine.PrepareObject` | picomq/pico-metadata/src/apply.rs:621-643 | the id loop leases exactly the next `count` ids, in the lease map and the deadline index |
| `Machine.StateMachine.MarkDestroyed` | picomq/pico-metadata/src/apply.rs:699-708 | re-marking keeps the queue position and changes the operation |
| `Machine.StateMachine.CleanDestroyed` | picomq/pico-metadata/src/apply.rs:1048-1058 | cleaning removes exactly the given ids from queue and index |
| `Machine.StateMachine.Expire` | picomq/pico-metadata/src/apply.rs:1032-1046 | expiry removes exactly the leases past their deadline and counts them |
| `Machine.StateMachine.AdvanceRanges` | picomq/pico-metadata/src/apply.rs:834-842 | the range loop advances end offsets in order and stops at the first range that does not fit |
| `Machine.StateMachine.RemoveStreamSet` | picomq/pico-metadata/src/apply.rs:1021-1030 | removing a stream-set object removes its range keys and node entry |
| `Machine.StateMachine.Commit` | picomq/pico-metadata/src/apply.rs:802-903 | the commit loops refine the specified commit in every branch, with its earliest-data timestamp |
| `Machine.StateMachine.Compact` | picomq/pico-metadata/src/apply.rs:905-985 | the compaction loops refine the specified compaction |
| `Machine.DataTimeIsEarliest` | picomq/pico-metadata/src/apply.rs:813-825 | the data timestamp of a compaction is the earliest of now and of what it replaces |
| `Machine.StateMachine.ApplyBatch` | picomq/pico-sql/src/sink.rs:266-269 | a batch is replayed in order, one result per command |
| `Indexes.StepKeeps` | picomq/pico-metadata/src/apply.rs:127-1058 | every command keeps all seven secondary indexes exactly what their primary maps determine |
| `Indexes.StepExactIff` | picomq/pico-metadata/src/apply.rs:303-310 | a command keeps them exact if and only if it does not place a stream on node -1 |
| `Indexes.IndexesExactOnEveryRun` | picomq/pico-metadata/src/apply.rs:1657-1736 | they are exact in every state any run of commands reaches |
| `Indexes.SentinelNodeBreaksIndex` | picomq/pico-metadata/src/apply.rs:254-312 | three commands with a node registered as -1 leave the placement index inexact |
| `Ownership.OneOwnerPerEpoch` | picomq/pico-metadata/src/apply.rs:322-366 | over any run, a stream is opened at an epoch by at most one node, transfers and deletions included |
| `Ownership.NewerRegistrationFences` | picomq/pico-metadata/src/apply.rs:127-183 | once a node registered an epoch, no command gated on an older epoch of it is ever accepted |
| `Ownership.StreamIdsNeverReused` | picomq/pico-metadata/src/apply.rs:187-245 | creations of a run hand out disjoint ids, also after deletions |
| `Ownership.RunAdvances` | picomq/pico-metadata/src/apply.rs:127-605 | stream epochs, node epochs and the id counter never go back; a deleted id never returns |
| `Ownership.PendingMoveKeepsTarget` | picomq/pico-metadata/src/apply.rs:474-563 | over any run a move that stays pending keeps its source and target (`StreamLife.MoveLandsOnTarget` says where it ends) |
| `StreamLife.RowIsLastWrites` | picomq/pico-metadata/src/apply.rs:254-563 | on every run a stream's row shows the start of the last accepted trim, the epoch of the last accepted open, whether an open or a close came last, and the node it was last opened on, moved to or placed on |
| `StreamLife.MoveLandsOnTarget` | picomq/pico-metadata/src/apply.rs:474-563 | a move accepted earlier in a run and still pending when its completion is accepted puts the stream on its target, closed, with nothing pending |
| `StreamLife.NewRow` | picomq/pico-metadata/src/apply.rs:187-245 | a row appears only by a creation, at an id not handed out before: closed, never opened, unplaced and empty |
| `StreamLife.AcceptedOnRunIff` | picomq/pico-metadata/src/apply.rs:322-605 | over any run an open is accepted if and only if its node last registered at the epoch it names and the stream is closed at a lower epoch or the node's own at this one; a trim, close or deletion if and only if the last open was at the epoch it names, the stream is open for a trim and closed or gone for a deletion, and a trim stays within it |
| `StreamLife.ErrorsAreTrue` | picomq/pico-metadata/src/apply.rs:127-643 | whatever error a command on nodes, streams or leases is told is true of the state |
| `StreamLife.CommitErrors` | picomq/pico-metadata/src/apply.rs:651-903 | whatever error a commit is told is true of the state |
| `StreamLife.UnadmittedIsTold` | picomq/pico-metadata/src/apply.rs:166-183 | a command of a node that is not registered at its epoch is told so before anything else, and no other command is |
| `StreamLife.OpenAnswersRow` | picomq/pico-metadata/src/state.rs:27-36 | an open at any point of a run answers the start and end offsets, state and owner the row then has |
| `StreamLife.AdmittedUntilReregistered` | picomq/pico-metadata/src/apply.rs:127-183 | a node stays admitted at the epoch it registered, on any run, until it registers again |
| `Offsets.CommitEnds` | picomq/pico-metadata/src/apply.rs:834-903 | an accepted append leaves each stream exactly at the last end it lists for it, ranges before stream objects, and changes nothing else of its row |
| `Offsets.CommitOnwardIff` | picomq/pico-metadata/src/apply.rs:678-693 | for every accepted append, no offset goes back if and only if no last listed end is behind its stream's |
| `Offsets.StepOnwardIff` | picomq/pico-metadata/src/apply.rs:127-1058 | the same exact condition for every command |
| `Offsets.OffsetsOnwardOnEveryRun` | picomq/pico-metadata/src/apply.rs:392-429 | over any run that meets it, trims included, start never passes end and neither ever goes back |
| `Offsets.RunOnwardIff` | picomq/pico-metadata/src/apply.rs:678-693 | a run moves no offset back if and only if every command meets it |
| `Offsets.ForwardSuffices` | picomq/pico-metadata/src/apply.rs:834-882 | a commit that lists only forward ranges meets it in every state |
| `Unguarded.BackwardRangeAccepted` | picomq/pico-metadata/src/apply.rs:678-693 | five commands, the last accepted, after which a stream's end went from 5 back to 2 |
| `Unguarded.MadeUpRangeOnward` | picomq/pico-metadata/src/apply.rs:834-842 | a commit of (5,2) then (2,7) is accepted and moves the end onward to 7 |
| `Unguarded.CompactionUncovers` | picomq/pico-metadata/src/apply.rs:813-832 | a compaction that replaces nothing is accepted and leaves live offsets in no object |
| `Unguarded.CommitReusesCompactedId` | picomq/pico-metadata/src/apply.rs:825-882 | a commit gives a stream object the id it compacts away, which is then live and queued for cleanup |
| `Unguarded.CompactionQueuesLiveObject` | picomq/pico-metadata/src/apply.rs:961-985 | a compaction names a live stream-set object as a source, which is then live and queued |
| `Unguarded.LeaseHandsOutLiveId` | picomq/pico-metadata/src/apply.rs:621-643 | an id committed without a lease is later leased while live |
| `Unguarded.EarlyDeleteDeletes` | picomq/pico-metadata/src/apply.rs:565-605 | a deletion accepted before its stream exists deletes that stream when it arrives again |
| `Unguarded.LateCompactionRevives` | picomq/pico-metadata/src/apply.rs:905-985 | A compacted into C, C into E, and A into C again leaves C live and queued for cleanup |
| `Retry.RetryChangesNothing` | picomq/pico-metadata/src/sink.rs:32-38 | a command that does not allocate ids, applied again at once, leaves the state exactly as the first application did |
| `Retry.RetryReplies` | picomq/pico-metadata/src/sink.rs:32-38 | and its answer: the same refusal again, the first result again, or that the work is done |
| `Retry.AppendAppliedOnce` | picomq/pico-metadata/src/apply.rs:775-842 | on every run that moves no offset back, an accepted append is refused ever after, whatever was compacted or deleted in between |
| `Retry.LateRetryChangesNothing` | picomq/pico-metadata/src/apply.rs:322-619 | an accepted open, close or trim, or deletion of an id that was handed out before it, changes nothing when it arrives again at any later point of any run |
| `Retry.DeleteSpentIff` | picomq/pico-metadata/src/apply.rs:565-605 | an accepted deletion stays without effect in every continuation if and only if its id had been handed out, or its epoch is one no stream ever has |
| `Retry.CompactIdleIff` | picomq/pico-metadata/src/apply.rs:905-985 | an accepted compaction changes nothing if and only if it adds nothing, its sources are gone, and all are queued with the operation it asks for |
| `Retry.LateCompactRetryIff` | picomq/pico-metadata/src/apply.rs:905-985 | an accepted compaction with an output changes nothing at any later point of a run if and only if node or stream moved on or the output is still an object; otherwise the output is back |
| `Retry.RetryCommit` | picomq/pico-metadata/src/apply.rs:775-800 | a retried commit finds its objects committed, or its sources gone |
| `Retry.RetryCompact` | picomq/pico-metadata/src/apply.rs:914-985 | a retried compaction is redundant or re-does nothing, also when it lists its own output as a source |
| `Retry.MarkAllTwice` | picomq/pico-metadata/src/apply.rs:696-738 | marking the same list twice leaves the queue as marking it once |
| `Retry.RetryAllocatesAgain` | picomq/pico-metadata/src/apply.rs:187-245 | an accepted creation or lease, applied again, hands out later ids |
| `Lifecycle.StagesDisjointOnEveryRun` | picomq/pico-metadata/src/apply.rs:621-1058 | on well-formed runs leased, stream-set, stream-object and queued ids stay pairwise disjoint |
| `Lifecycle.CompactDisjointIff` | picomq/pico-metadata/src/apply.rs:961-985 | a compaction keeps the stages disjoint if and only if its sources are live nowhere else |
| `Lifecycle.CommitDisjointIff` | picomq/pico-metadata/src/apply.rs:825-882 | a commit keeps them disjoint if and only if none of its new ids is queued or compacted away |
| `Lifecycle.PrepareDisjointIff` | picomq/pico-metadata/src/apply.rs:621-643 | a lease keeps them disjoint if and only if its ids were never used |
| `Lifecycle.StepDisjointIff` | picomq/pico-metadata/src/apply.rs:621-1058 | every command: disjoint afterwards if and only if it follows its rule of these three |
| `Lifecycle.RunDisjointIff` | picomq/pico-metadata/src/apply.rs:621-1058 | a run keeps the stages disjoint throughout if and only if all its commands follow the rule |
| `Lifecycle.CommitMoves` | picomq/pico-metadata/src/apply.rs:802-903 | exactly which ids a commit moves between the stages |
| `Lifecycle.StepFifo` | picomq/pico-metadata/src/apply.rs:696-708 | no command reorders the cleanup queue |
| `Lifecycle.RemarkKeepsPosition` | picomq/pico-metadata/src/apply.rs:696-708 | an id that stays queued keeps its position, however often it is re-marked |
| `ObjectLife.LeaseIsLastWrite` | picomq/pico-metadata/src/apply.rs:621-649 | on every run an id is leased, until the deadline asked for, exactly from its preparation to its commit or expiry |
| `ObjectLife.PreparedIdsNeverReused` | picomq/pico-metadata/src/apply.rs:621-643 | a preparation answers the first of its ids, and the preparations of a run hand out disjoint ids |
| `ObjectLife.ExpireCounts` | picomq/pico-metadata/src/apply.rs:1032-1046 | expiry answers how many leases it ended |
| `ObjectLife.QueueIsLastAsked` | picomq/pico-metadata/src/apply.rs:696-738 | on every run the cleanup queue holds exactly the ids marked and not cleaned up since, each with the operation last asked for |
| `ObjectLife.DeleteTakesAll` | picomq/pico-metadata/src/apply.rs:565-619 | deleting a stream removes its row, its pending move and every object of it, queues those, and leaves the objects of other streams alone |
| `ObjectLife.KvIsLastWrite` | picomq/pico-metadata/src/apply.rs:1062-1093 | on every run a key holds what was last put, the first value among puts that must not overwrite |
| `ObjectLife.KvAnswers` | picomq/pico-metadata/src/apply.rs:1062-1093 | a put answers what the key then holds, a removal what it held, as the run's writes determine it |
| `ObjectLife.RangesAcceptedIff` | picomq/pico-metadata/src/apply.rs:651-694 | the ranges of a commit are accepted if and only if each starts where its stream ends by then or, in a compaction, lies within live data |
| `ObjectLife.CommitAcceptedIff` | picomq/pico-metadata/src/apply.rs:753-903 | a commit is accepted if and only if its node is admitted, its work is not done yet, what it compacts exists, its ids are free and its ranges are acceptable |
| `ObjectLife.SetObjectRecorded` | picomq/pico-metadata/src/apply.rs:813-860 | an accepted commit records its stream-set object by node, ranges, size, attributes and time, with the earliest data time of itself and of what it replaces |
| `ObjectLife.CommitRecords` | picomq/pico-metadata/src/apply.rs:861-903 | it records each stream object as listed, the last of equal keys winning, removes what it compacts, and leaves every other object as it was |
| `ObjectLife.CompactReplaces` | picomq/pico-metadata/src/apply.rs:961-1019 | after an accepted stream-object compaction the stream's objects are its output, as described, and whatever else was there and no source; other streams' objects are as they were |
| `Coverage.AppendCommitCovers` | picomq/pico-metadata/src/apply.rs:651-694 | a commit that compacts nothing keeps every live offset in a committed object, whatever ranges it lists |
| `Coverage.CompactionCoversIff` | picomq/pico-metadata/src/apply.rs:811-985 | a compaction keeps every live offset covered if and only if what it removes is held by what it adds or keeps |
| `Coverage.StepCoversIff` | picomq/pico-metadata/src/apply.rs:127-1058 | every command: live offsets stay covered if and only if that condition holds of an accepted compaction |
| `Coverage.LiveCoveredOnEveryRun` | picomq/pico-metadata/src/apply.rs:651-1030 | after any such run each offset between a stream's start and end lies in a committed object |
| `Coverage.RunCoversIff` | picomq/pico-metadata/src/apply.rs:651-1030 | a run keeps every live offset covered throughout if and only if its compactions cover what they remove |
| `Query.MergeLists` | picomq/pico-metadata/src/query.rs:77-93 | the merge loop takes both sorted lists in order and stops at the limit |
| `Query.MergeIsAnswer` | picomq/pico-metadata/src/query.rs:77-93 | a stopped merge is "filter overlapping, sort by start with stream-set first, take limit" |
| `Query.GetObjects` | picomq/pico-metadata/src/query.rs:47-93 | the query returns that answer, each object as it stands committed, and never indexes a missing object |
| `Query.AnswerIffShares` | picomq/pico-metadata/src/query.rs:47-76 | below the limit, an indexed non-empty range is answered to a non-empty request if and only if the two share an offset |
| `Query.AnswerOrder` | picomq/pico-metadata/src/query.rs:77-93 | answers come by ascending start, of equal starts stream-set objects first and then the lower object id |
| `Query.AnswerIsFirst` | picomq/pico-metadata/src/query.rs:77-93 | what the limit cuts off starts no earlier than anything answered, and the answer is then full |
| `Query.AnswerCoversLiveRange` | picomq/pico-metadata/src/query.rs:47-93 | below the limit the answer holds every live offset of the requested range |
| `Placement.BestExistsIffEligible` | picomq/pico-metadata/src/apply.rs:272-301 | placement finds a node exactly when some registered node has a slot |
| `Placement.LoadCounts` | picomq/pico-metadata/src/apply.rs:272-295 | the load of a node is the number of streams open on it or placed on it and never opened |
| `Placement.PlacesOnLeastLoaded` | picomq/pico-metadata/src/apply.rs:272-312 | placement takes the node with the fewest streams per slot, in thousandths rounded down, the lowest id among equals |
| `Placement.PlaceLoads` | picomq/pico-metadata/src/apply.rs:303-311 | placing charges exactly the winner, by one |
| `Placement.OpenLoads` | picomq/pico-metadata/src/apply.rs:356-364 | opening a stream where it was placed moves the charge and changes no load |
| `Placement.PlacementStaysFair` | picomq/pico-metadata/src/apply.rs:247-312 | from empty load, after any run of create, place and open-in-place, `(load_i - 1) * 1000 / slots_i <= load_j * 1000 / slots_j` for loaded i and eligible j |
| `Wire.RoundTrip` | picomq/pico-metadata/src/codec.rs:163-540 | decoding an encoded layout followed by anything gives the value and leaves the rest |
| `Wire.Extends` | picomq/pico-metadata/src/codec.rs:163-540 | a successful decode is unchanged by appended bytes |
| `Wire.PrefixFails` | picomq/pico-metadata/src/snapshot.rs:479-491 | no proper prefix of an encoding decodes |
| `Codec.WriteBatch` | picomq/pico-metadata/src/codec.rs:51-60 | the buffer loop writes the specified batch encoding |
| `Codec.ReadBatch` | picomq/pico-metadata/src/codec.rs:62-72 | the cursor loop reads exactly what the specification decodes, errors included |
| `Codec.CommandRoundTrip` | picomq/pico-metadata/src/codec.rs:163-540 | every command survives encoding, with anything behind it |
| `Codec.BatchRoundTrip` | picomq/pico-metadata/src/codec.rs:51-72 | decoding an encoded batch gives the batch back |
| `Codec.BatchRejectsPrefix` | picomq/pico-metadata/src/codec.rs:62-72 | every strict prefix of an encoding is rejected |
| `Codec.BatchRejectsExtension` | picomq/pico-metadata/src/codec.rs:62-72 | every extension of an encoding is rejected |
| `Layout.CommandLayout` | picomq/pico-metadata/src/codec.rs:163-297 | the encoding of every command is its type byte and its fields, in the listed order and at the listed widths |
| `Layout.LittleEndian` | picomq/pico-metadata/src/codec.rs:163-297 | integers are written least significant byte first |
| `Snapshot.Reload` | picomq/pico-metadata/src/snapshot.rs:101-228 | rebuilding an exact state from its primary rows gives the state itself, all indexes included |
| `Snapshot.SnapshotRoundTrip` | picomq/pico-metadata/src/snapshot.rs:29-228 | `decode(encode(s)) == s` for every state with exact indexes |
| `Snapshot.SnapshotOfEveryRun` | picomq/pico-metadata/src/snapshot.rs:29-228 | and so for every reachable state |
| `Snapshot.SnapshotInjective` | picomq/pico-metadata/src/snapshot.rs:29-99 | two exact states with the same bytes are equal |
| `Snapshot.SnapshotRejectsPrefix` | picomq/pico-metadata/src/snapshot.rs:101-228 | a truncated snapshot is refused |
| `Snapshot.SnapshotRejectsExtension` | picomq/pico-metadata/src/snapshot.rs:222-228 | trailing bytes are refused |
| `LogStore.MetaStore.Append` | picomq/pico-sql/src/store.rs:167-176 | inserts only at a free index and never overwrites |
| `LogStore.MetaStore.LastIdx` | picomq/pico-sql/src/store.rs:178-188 | the maximum of the log's highest index and the snapshot's |
| `LogStore.MetaStore.FetchAfter` | picomq/pico-sql/src/store.rs:190-201 | returns stored rows above the index, strictly ascending, at most the limit, and leaves one out only when lower ones used the limit up |
| `LogStore.RowsAfter` | picomq/pico-sql/src/store.rs:190-201 | those rows are the stored ones, strictly ascending, and empty only when nothing is there |
| `LogStore.RowsAfterComplete` | picomq/pico-sql/src/store.rs:190-201 | a stored row above the index is left out only when the limit cuts it off |
| `LogStore.MetaStore.StoreSnapshot` | picomq/pico-sql/src/store.rs:216-229 | the stored snapshot never regresses |
| `LogStore.MetaStore.TruncateLog` | picomq/pico-sql/src/store.rs:231-238 | exactly the rows above the index remain, with their values; no fetch from the cut on sees a difference |
| `LogStore.MetaStore.AcquireLease` | picomq/pico-sql/src/store.rs:240-278 | renewal and acquisition as one compare-and-set; an acquisition raises the epoch |
| `LogStore.MetaStore.ReleaseLease` | picomq/pico-sql/src/store.rs:280-291 | only the owner's release at its epoch does anything: everyone may then acquire, the next epoch, and no renewal of the old one is granted |
| `Replication.BootOk` | picomq/pico-sql/src/sink.rs:105-114 | a cold start begins at the history's state at the snapshot index |
| `Replication.FetchedOk` | picomq/pico-sql/src/sink.rs:220-237 | whatever a fetch skips, the snapshot covers |
| `Replication.ApplyKeeps` | picomq/pico-sql/src/sink.rs:237-277 | applying a row moves the node one row along the history and publishes it, with that row's own results in hand |
| `Replication.DeliverKeeps` | picomq/pico-sql/src/sink.rs:278-286 | a waiter is answered with its own index's results, after the view that includes them was published |
| `Replication.RestoreKeeps` | picomq/pico-sql/src/sink.rs:320-366 | gap recovery publishes a history state and never poisons |
| `Replication.RetainKeeps` | picomq/pico-sql/src/sink.rs:358-365 | dropping the registrations the snapshot covers, after its view was published, keeps the node correct |
| `Replication.FlushKeeps` | picomq/pico-sql/src/sink.rs:398-468 | every flusher step, with lost slots, errors and stale registrations, keeps its node correct (`Proposals` says what becomes of the batch) |
| `Replication.PerformKeeps` | picomq/pico-sql/src/store.rs:167-238 | a harmless statement keeps rows, snapshot and history aligned |
| `Replication.StepKeeps` | picomq/pico-sql/src/sink.rs:105-468 | every harmless event keeps the whole invariant, extends the history and never moves the snapshot back |
| `Replication.StepKeepsIff` | picomq/pico-sql/src/sink.rs:404-419 | an event keeps the invariant if and only if its append lands above the snapshot or repeats the truncated row |
| `Replication.RunKeeps` | picomq/pico-sql/src/sink.rs:105-468 | the invariant holds throughout every harmless run of any number of nodes |
| `Replication.RunKeepsIff` | picomq/pico-sql/src/sink.rs:105-468 | a run keeps the invariant throughout if and only if every event of it is harmless |
| `Replication.HistoryGrows` | picomq/pico-sql/src/store.rs:216-238 | along a run the history only grows and the stored snapshot never regresses |
| `Replication.Agreement` | picomq/pico-sql/src/sink.rs:110-142 | on every harmless run each node's state is the fold of the first `applied` rows of one history, so nodes that ever stand at the same index hold the same state |
| `Replication.TruncationSafety` | picomq/pico-sql/src/sink.rs:292-345 | every index above the snapshot is in the log, a gap always finds a newer snapshot, and the poison and truncated-without-snapshot branches are unreachable |
| `Replication.Acknowledged` | picomq/pico-sql/src/sink.rs:419-436 | an acknowledged proposal is the history row at its index, with that row's results, and the local view includes it |
| `Replication.WinExtendsHistory` | picomq/pico-sql/src/sink.rs:419-421 | a winning append always takes the next index and extends the history by its own batch |
| `Replication.NeverStuck` | picomq/pico-sql/src/sink.rs:278-286 | a flusher whose index its node has passed can always be answered, with results or, after gap recovery, with the outcome-unknown error |
| `Proposals.TakenIsCarried` | picomq/pico-sql/src/sink.rs:398-468 | on every run a node carries on with the very batch it took, whatever slots it loses, until its proposers are answered or it crashes |
| `Proposals.LostSlotIsPassed` | picomq/pico-sql/src/sink.rs:440-456 | on every harmless run, after a lost slot the next index a node tries for that batch is above the one it lost |
| `Proposals.WinnerWaits` | picomq/pico-sql/src/sink.rs:419-437 | on every run a node that won a slot appends nothing again until its proposers are answered |
| `Proposals.AnsweredOnce` | picomq/pico-sql/src/sink.rs:419-466 | an answer is final: on every run, once the proposers were answered, with results or any error, the node appends nothing again before it takes another batch |
| `Proposals.OneRegistration` | picomq/pico-sql/src/sink.rs:405-418 | on every run a node has at most one registration, the one for the slot it is trying |
| `Proposals.UncontendedAppendWins` | picomq/pico-sql/src/sink.rs:448-452 | on every harmless run, a node that learned the tail and meets no other append gets the slot it tries next |
| `Proposals.WinnerIsAnswered` | picomq/pico-sql/src/sink.rs:278-286 | on every run that keeps the append guard, a node that wins a slot and reads the log row by row past it has that row's own results for its proposers |
| `Proposals.StartsAtSnapshot` | picomq/pico-sql/src/sink.rs:105-114 | on every harmless run a node starts at the stored snapshot, not before it |
| `Proposals.RecoveryAdvances` | picomq/pico-sql/src/sink.rs:325-366 | on every harmless run gap recovery takes a node forward, to the stored snapshot |
| `Proposals.CycleFreesLog` | picomq/pico-sql/src/sink.rs:292-318 | a snapshot cycle leaves a snapshot at least as new as the node's, and then no log row it covers |
| `Proposals.UnreadableStops` | picomq/pico-sql/src/sink.rs:237-366 | on every run a node that could not read a row, or found no usable snapshot, applies and publishes nothing more until it is restarted |
| `StaleAppend.StaleAppendForks` | picomq/pico-sql/src/sink.rs:404-436 | without the guard two nodes reach the same index with different states, and the lost proposal is acknowledged |
| `ReplicatedMetadata.MetadataLawful` | picomq/pico-sql/src/sink.rs:253-270 | batch codec, snapshot identity and index exactness are what the protocol needs of the metadata machine |
| `ReplicatedMetadata.MetadataAgreement` | picomq/pico-sql/src/sink.rs:110-142 | on every harmless run metadata nodes at the same index hold the same state |
| `ReplicatedMetadata.MetadataForksWithoutGuard` | picomq/pico-sql/src/sink.rs:404-436 | a concrete unguarded run of two metadata nodes that fork |
| `LeaseKeeper.OthersKeep` | picomq/pico-sql/src/lease.rs:99-132 | no statement of another holder, however late, takes or shortens a claim that has not run out |
| `LeaseKeeper.LandKeepsIff` | picomq/pico-sql/src/store.rs:248-278 | a late statement keeps every claim protected if and only if it is refused or no live claim of its own holder is newer |
| `LeaseKeeper.StepKeepsIff` | picomq/pico-sql/src/lease.rs:90-142 | an event keeps the invariant if and only if it is not a harmful late statement |
| `LeaseKeeper.RunKeepsIff` | picomq/pico-sql/src/lease.rs:90-142 | a run keeps every claim protected throughout if and only if its late statements are harmless |
| `LeaseKeeper.LengtheningIsHarmless` | picomq/pico-sql/src/store.rs:248-278 | a late statement that does not shorten the row's expiry is harmless |
| `LeaseKeeper.LeaseExclusion` | picomq/pico-sql/src/lease.rs:90-142 | on every run whose late statements are harmless, two keepers never both hold the lease within its time to live of their last success |
| `LeaseKeeper.LateAcquisitionSplits` | picomq/pico-sql/src/store.rs:262-278 | for every time to live, a run in which a late acquisition makes two keepers hold the lease at once |
| `LeaseKeeper.LateRenewalSplits` | picomq/pico-sql/src/store.rs:248-261 | the same with a late renewal |
| `LeaseKeeper.FlagsOverlapOnlyPastTtl` | picomq/pico-sql/src/lease.rs:109-132 | on such runs two leadership flags are up at once only when one keeper is past its time to live or releasing |
| `LeaseKeeper.AcquisitionsRaiseEpoch` | picomq/pico-sql/src/store.rs:262-278 | every acquisition of a run is granted an epoch above all earlier ones |
| `LeaseKeeper.LeadsOnlyWithinTtl` | picomq/pico-sql/src/lease.rs:120-131 | a keeper that still leads, whatever errors it heard, found its last success less than a time to live old at its last attempt |
| `LeaseKeeper.LeadsThroughErrorsIff` | picomq/pico-sql/src/lease.rs:120-131 | over any stretch of a run in which it hears only errors, a leader leads on if and only if no attempt came a time to live after its last success |
| `LeaseKeeper.RefusalDemotes` | picomq/pico-sql/src/lease.rs:114-119 | on every run a keeper that received a refusal neither leads nor holds until it receives a later grant |
| `LeaseKeeper.GrantLeads` | picomq/pico-sql/src/lease.rs:99-113 | a received grant makes it lead, with the granted epoch, as of the clock it read before the call |
| `LeaseKeeper.UndisturbedRenewal` | picomq/pico-sql/src/lease.rs:99-113 | on runs whose late statements are harmless, a renewal within the time to live is granted while the row has the keeper's epoch |
| `LeaseKeeper.StopsForGood` | picomq/pico-sql/src/lease.rs:133-142 | a keeper that was told to stop holds nothing again, and no longer leads once its release is over |
| `LeaseKeeper.StoppingHandsOver` | picomq/pico-sql/src/lease.rs:133-142 | once the release of a stopped keeper executes on the row it still owns, everyone else may acquire the lease at once, at the next epoch |
| `LeaseKeeper.OldEpochChangesNothing` | picomq/pico-sql/src/store.rs:248-291 | once the row moved past an epoch, no renewal or release of that epoch ever changes it again on any run, and every such renewal is refused |
| `StreamAppend.StorageSeesContiguousOffsets` | s3stream/s3stream-core/src/stream.rs:195-223 | in every schedule storage receives contiguous increasing offsets, and confirm never passes next |
| `StreamAppend.NoAppendAfterClose` | s3stream/s3stream-core/src/stream.rs:341-372 | once a close that waited starts its final phase no append is in flight, none is admitted later, and storage gets nothing more, forced closes and cancelled appends included |
| `StreamAppend.MarkedSealsIff` | s3stream/s3stream-core/src/stream.rs:195-223 | a closed or fenced stream, forced or not, hands storage nothing more whatever happens next if and only if no admitted append is still on its way |
| `StreamAppend.CountKeeps` | s3stream/s3stream-core/src/stream.rs:54-91 | the in-flight counter counts exactly the unfinished appends |
| `StreamAppend.NoneAdmittedOnceMarked` | s3stream/s3stream-core/src/stream.rs:199-208 | once the stream is marked closed or fenced, nothing that was not admitted by then ever is |
| `StreamAppend.MarkedIff` | s3stream/s3stream-core/src/stream.rs:225-264 | in every schedule the stream is closed if and only if a close was called, and fenced if and only if an append failed |
| `StreamAppend.AdmittedIff` | s3stream/s3stream-core/src/stream.rs:195-208 | an append is admitted if and only if, by its check, no close was called and no append failed |
| `StreamAppend.FailureFences` | s3stream/s3stream-core/src/stream.rs:240-262 | after an append fails, in any schedule, the stream stays fenced and nothing that was not admitted by then ever is |
| `StreamAppend.ConfirmReaches` | s3stream/s3stream-core/src/stream.rs:225-239 | after an append succeeds the confirm offset is at its end or past it, for good |
| `StreamAppend.ConfirmIsAnEnd` | s3stream/s3stream-core/src/stream.rs:225-239 | the confirm offset is where the stream was opened or the end of an append that succeeded |
| `StreamAppend.CompleteKeepsDurableIff` | s3stream/s3stream-core/src/stream.rs:225-250 | confirming an append keeps everything below confirm durable if and only if every earlier record is durable |
| `StreamAppend.ConfirmedIsDurable` | s3stream/s3stream-core/src/stream.rs:225-264 | when durability resolves in submit order, every offset below confirm is in a durable record |
| `StreamAppend.RunDurableIff` | s3stream/s3stream-core/src/stream.rs:225-264 | everything below confirm is durable throughout a schedule if and only if no append is confirmed before an earlier record is durable |
| `StreamAppend.OutOfOrderConfirms` | s3stream/s3stream-core/src/stream.rs:225-264 | a schedule that confirms the second of two records while the first is not durable |
| `Framing.EncodeFrames` | picomq/pico-server/src/framing.rs:12-22 | the buffer loop writes the specified frames |
| `Framing.DecodeFrames` | picomq/pico-server/src/framing.rs:24-56 | the cursor loop accepts and rejects exactly what the specification does |
| `Framing.UnframedFrames` | picomq/pico-server/src/framing.rs:12-56 | decoding a framed batch gives its records back, and nothing with trailing bytes |
| `Framing.UnframedRejectsPrefix` | picomq/pico-server/src/framing.rs:24-56 | a truncated frame is refused |
| `TailCache.Cache.RecordAppend` | picomq/pico-server/src/service.rs:47-75 | appends, gap resets and front eviction leave exactly the specified window with an exact byte count within the caps |
| `TailCache.Cache.TailRecords` | picomq/pico-server/src/service.rs:77-90 | the cached tail from an offset, when and only when the window covers it |
| `TailCache.TrimmedLongest` | picomq/pico-server/src/service.rs:68-74 | eviction drops no more than the caps require |
| `TailCache.CacheAgreesWithLog` | picomq/pico-server/src/service.rs:422-454 | for any completion order of pipelined appends, failures and their resets anywhere, the cache is a contiguous window of the true log |
| `TailCache.PushedReachesNewest` | picomq/pico-server/src/service.rs:61-67 | an append past everything cached is cached up to its last record |
| `TailCache.PushedKeeps` | picomq/pico-server/src/service.rs:47-75 | a late completion changes nothing, one that continues the window keeps all of it that fits, one that leaves a gap starts the window over |
| `TailCache.TailRead` | picomq/pico-server/src/service.rs:1254-1289 | a cached read is the page the log determines |
| `TailCache.FetchRecords` | picomq/pico-server/src/service.rs:726-788 | a read from stored batches, framed or single and entered part-way, is the same page; it fails only on a corrupt frame |
| `TailCache.SubmitMessages` | picomq/pico-server/src/service.rs:650-676 | what an append stores reads back as the submitted messages, one batch when atomic |
| `TailCache.PageWithinLimits` | picomq/pico-server/src/service.rs:742-779 | a page respects both limits except for one record with bytes, and ends only at the data's end or at a limit |
| `TailCache.Pages` | picomq/pico-server/src/service.rs:460-502 | paging repeatedly, whatever each source covered, yields the log's records with none lost or repeated |
| `Producer.Gate.Append` | picomq/pico-server/src/service.rs:339-444 | the handler, updated in place, is the specified one in every branch and under every fault between submit and answer; `TakenIffInOrder`, `NumberAnswers` and `ClosedAnswers` say what that is |
| `Producer.ProducersStrictlyIncrease` | picomq/pico-server/src/registry.rs:167-206 | for any requests and faults in which this producer's accepted requests are logged as they are recorded, its logged pairs run 0, 1, 2, ... in each epoch and strictly increase; `TakenIffInOrder` is the converse, that the next one is taken |
| `Producer.NumberingIff` | picomq/pico-server/src/service.rs:387-444 | registry and log agree on a producer's numbers after every request if and only if that is so |
| `Producer.AcceptsIffNext` | picomq/pico-server/src/registry.rs:167-206 | where registry and log agree, a number is accepted if and only if it continues the producer's logged pairs |
| `Producer.RefusesByLog` | picomq/pico-server/src/registry.rs:167-206 | and is refused as a duplicate, as stale or as a gap exactly when the logged pairs make it one, with the numbers they give |
| `Producer.TakenIffInOrder` | picomq/pico-server/src/service.rs:339-444 | on an open stream whose registry and log agree, a request is taken whole, with the offset past it answered, if and only if it continues its producer's numbers, names the true tail, carries a later token and has a valid payload; any other changes nothing |
| `Producer.ReasonsAreTrue` | picomq/pico-server/src/service.rs:363-398 | a request with a number in order is refused only for what is wrong with it: its expected tail, its token, its type or its payload |
| `Producer.NumberAnswers` | picomq/pico-server/src/service.rs:345-362 | a repeated number is answered with the last one, a stale epoch with the current one, a gap with what was expected, open or closed |
| `Producer.ClosedAnswers` | picomq/pico-server/src/service.rs:1129-1169 | once closed, closing again is answered as done, except to another producer when a producer closed it, and anything else new is told that it is closed |
| `Producer.SessionInOrder` | picomq/pico-client/src/producer.rs:311-347 | for any duplication, loss or reordering, and any faults that are all or nothing for the session, its batches enter the stream at most once and in session order |
| `Producer.HandleKeepsPrefixIff` | picomq/pico-server/src/service.rs:393-444 | one request keeps registry and stream agreed on a session if and only if what survives of it is what is recorded |
| `Producer.SessionInOrderIff` | picomq/pico-server/src/service.rs:393-444 | registry and stream agree on a session after every request if and only if no request hurts it |
| `Producer.UnrecordedLandsTwice` | picomq/pico-server/src/service.rs:427-435 | a batch that survives a failed registry write lands again when retried |
| `Producer.LostIsCalledDuplicate` | picomq/pico-server/src/service.rs:427-444 | a batch recorded and then lost is answered as a duplicate when retried |
| `Producer.RecordsLandInOrder` | picomq/pico-client/src/producer.rs:205-235 | what the application's records become in the stream is a prefix of what it handed over |
| `Producer.ClosedIsFinal` | picomq/pico-server/src/service.rs:1129-1169 | after close no request changes anything, under any fault |
| `Producer.AppliedStays` | picomq/pico-server/src/service.rs:387-454 | whatever goes wrong around it, a request answered as applied is in the stream for good, whole, and its messages sit right below the offset it was answered |
| `Producer.TokensAscend` | picomq/pico-server/src/service.rs:1110-1125 | the stream sequence tokens of accepted requests strictly ascend, when each request with a token is logged as it is recorded |
| `Producer.TokensIff` | picomq/pico-server/src/service.rs:1110-1191 | tokens ascend and the last is remembered after every request if and only if that is so |
| `Producer.MatchGuardsTail` | picomq/pico-server/src/service.rs:363-375 | a request that names an expected tail changes nothing unless exactly that many messages precede it |
| `Producer.Collect` | picomq/pico-client/src/producer.rs:238-253 | a batch is a non-empty front of the queue, cut only when a limit is reached |
| `Producer.Session` | picomq/pico-client/src/producer.rs:205-235 | the numbered batches together are the queue, in order |
| `RangeIndex.SearchObjectId` | s3stream/s3stream-core/src/index.rs:175-189 | the search finds the entry with the greatest start at or below the offset, or that there is none |
| `RangeIndex.EvictionThins` | s3stream/s3stream-core/src/index.rs:137-156 | eviction from two or more entries keeps the first, and every lookup stays answered, never with a later start |
| `RangeIndex.EvictsEveryOther` | s3stream/s3stream-core/src/index.rs:137-156 | a round of evictions from the start of a list takes every other entry: the second, the fourth and so on |
| `RangeIndex.RoundStartsOver` | s3stream/s3stream-core/src/index.rs:94-156 | and so it does after whatever happened to the list, once a reset or a compaction started it over, additions since included |
| `RangeIndex.EvictionResumes` | s3stream/s3stream-core/src/index.rs:74-156 | an addition between two evictions does not disturb the round |
| `RangeIndex.ShortKeepsNewest` | s3stream/s3stream-core/src/index.rs:137-156 | evictions from a short list take the oldest entries but the first |
| `RangeIndex.AppendedAnswers` | s3stream/s3stream-core/src/index.rs:74-98 | a range past the last is added behind everything and any other starts the list over; either way it answers every lookup from its start on |
| `RangeIndex.CompactRanges` | s3stream/s3stream-core/src/index.rs:111-129 | the one-pass loop drops compacted entries and slots the new range in |
| `RangeIndex.CompactedOk` | s3stream/s3stream-core/src/index.rs:100-135 | compaction keeps a list sorted and sized at 40 bytes an entry, and leaves exactly the new range and the entries not compacted away |
| `RangeIndex.Cache.EvictIfNecessary` | s3stream/s3stream-core/src/index.rs:278-307 | the nested eviction loops stop at the first total within the cap, only thin lists, and shorten a list of few entries only when no longer one is left |
| `RangeIndex.Cache.Append` | s3stream/s3stream-core/src/index.rs:263-276 | appended ranges, resets included, with the total exact, thinned down to the cap only when they do not fit |
| `RangeIndex.AppendIndexes` | s3stream/s3stream-core/src/index.rs:263-276 | an append puts a named stream's range behind its list, or starts its list with it, and touches no other |
| `RangeIndex.Cache.Compact` | s3stream/s3stream-core/src/index.rs:309-333 | every indexed stream's list is rewritten, emptied streams are dropped, and the total stays exact |
| `RangeIndex.CompactIndexes` | s3stream/s3stream-core/src/index.rs:309-333 | a compaction leaves, in every stream indexed before it, exactly its new range and the entries not compacted away |
| `RangeIndex.InsertedBetween` | s3stream/s3stream-core/src/index.rs:111-129 | the new range goes behind everything that does not start later, and before the rest |
| `RangeIndex.Cache.Prune` | s3stream/s3stream-core/src/index.rs:375-407 | every list is rewritten without its dead objects, and the total stays exact |
| `RangeIndex.PrunedKeepsLive` | s3stream/s3stream-core/src/index.rs:385-394 | pruning a list keeps exactly the hints that name live objects |
| `RangeIndex.PruneIndexes` | s3stream/s3stream-core/src/index.rs:375-407 | over all streams, pruning leaves exactly the entries of live objects, and no stream without any |
| `BlockIndex.Search` | s3stream/s3stream-object/src/index.rs:133-152 | finds the block that holds the offset, or that none does |
| `BlockIndex.Find` | s3stream/s3stream-object/src/index.rs:159-220 | returns the gapless chain from the offset with the exact budget, fulfilled exactly at the end or when the budget is spent, else up to where the stream's run ends |
| `BlockIndex.ChainUnique` | s3stream/s3stream-object/src/index.rs:186-213 | of each length there is at most one gapless chain from an offset |
| `BlockIndex.AnswerUnique` | s3stream/s3stream-object/src/index.rs:159-220 | that specification admits one answer only |
| `Throttle.Limiter.Acquire` | s3stream/s3stream-core/src/throttle.rs:132-164 | granted at once only with tokens and an empty queue, else queued behind its equals; keeps the bandwidth bound when smaller than the tokens left plus the cap, and only then while no token was discarded or bypassed |
| `Throttle.OverCapAcquisition` | s3stream/s3stream-core/src/throttle.rs:132-164 | an acquisition of three times the cap on a new limiter breaks the bound |
| `Throttle.Limiter.GrantChunk` | s3stream/s3stream-core/src/throttle.rs:269-284 | one chunk for the best waiter, charged exactly, completing it when it owes nothing |
| `Throttle.Limiter.RefillAndDrain` | s3stream/s3stream-core/src/throttle.rs:262-285 | the drain terminates, completes waiters in priority order and never past a better one, each charged its size, loses nobody, and keeps the bound, whatever bypass traffic debits between its steps; without bypass traffic every token is accounted for |
| `Throttle.ServedByPriority` | s3stream/s3stream-core/src/throttle.rs:51-58 | in that order a lower priority number comes first, however late it came, and among equals the earlier arrival |
| `Throttle.UrgentFirst` | s3stream/s3stream-core/src/throttle.rs:262-285 | whoever waits with a lower priority number completes no later than anyone with a higher one |
| `Throttle.Limiter.ChargedWithinRate` | s3stream/s3stream-core/src/throttle.rs:251-285 | after n refills the metered bytes charged are below `(n + 1) * tokenSize + maxTokens` |

## Left out

- Integer widths: counters, offsets, epochs and timestamps are unbounded; the codecs and snapshots carry an explicit "fits its width" hypothesis, and the two casts the handlers make (`as u64` of a node id, `as i64` of an epoch) are modelled.
- SQL text, connection handling and the second store implementation: each store call is one atomic step on maps.
- Scheduling, channels, timeouts, polling and liveness: tasks are interleaved steps, so nothing is claimed about waiters eventually waking.
- Message texts, metrics, logging, HTTP front ends, routing, the CLI, configuration and JSON splitting (a request carries what its payloads expand to).
- CRC computation. UTF-8 validity is the predicate spelled out in `Bytes`.
- `snapshot_every` and the batch-size limit: a snapshot may be taken after any row and a batch may hold any number of commands, which allows more runs than the code.
- The cold-start and tail loops of the sink are steps of the transition system rather than one method, because their progress depends on other nodes.
- The snapshot's encoder and decoder loops are the counted layouts of `Wire`, proved as recursive functions rather than as a cursor updated in place.
- Producer: faults are chosen per request, so how a failed write on one stream affects others pipelined behind it is any combination of faults rather than one mechanism.
- Fetch, trim, snapshot-read mode and `destroy` of a stream, and storage below `submit`.
- Tail-cache behaviour across deletion and re-creation of one name; registry encoding, deadlines and expiry of entries.
- The start position a client derives for a duplicate append.
- `RangeIndex` persistence (`to_buffer`, `from_buffer`, `upload`) and the 36-byte block-index encoding.
- The codec of command results (`encode_result`, `decode_result`).
- The simple lookups of `query.rs` (streams, nodes, key-value entries, destroyed objects), which read one map or index.
