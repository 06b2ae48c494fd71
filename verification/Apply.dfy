/** The state transition function, as a specification over state values.
    Loops of the handlers appear as folds over the processed prefix. */
module Apply {
  import opened Bytes
  import opened Metadata
  import opened Order

  datatype Outcome = Ok(state: MetadataState, result: CommandResult) | Err(error: MetadataError)

  /** What the proposer is told. */
  type Reply = Result<CommandResult, MetadataError>

  function ReplyOf(o: Outcome): Reply {
    if o.Ok? then Success(o.result) else Failure(o.error)
  }

  const MAX_CREATE_STREAMS: nat := 4096

  // ---- integer casts ----

  /** Sign-extending cast of a node id to an unsigned 64-bit result. */
  function NodeAsId(nodeId: NodeId): (id: nat) {
    if nodeId >= 0 then nodeId else nodeId + U64_MODULUS
  }

  /** Wrapping cast of an unsigned 64-bit epoch to a signed one. */
  function EpochAsSigned(epoch: nat): int {
    if epoch < I64_MODULUS then epoch else epoch - U64_MODULUS
  }

  function Clamp(x: int): nat {
    if x >= 0 then x else 0
  }

  function ToStreamMetadata(row: StreamRow): StreamMetadata {
    StreamMetadata(row.streamId, Clamp(row.epoch), row.startOffset, row.endOffset, row.state, row.nodeId)
  }

  // ---- nodes ----

  function DoRegisterNode(s: MetadataState, nodeId: NodeId, nodeEpoch: int, address: Utf8, slots: nat): Outcome {
    if nodeId in s.nodes && s.nodes[nodeId].epoch > nodeEpoch then Err(NodeEpochMismatch(nodeId))
    else
      var kept := if address == [] && nodeId in s.nodes then s.nodes[nodeId].httpAddress else address;
      Ok(s.(nodes := s.nodes[nodeId := NodeRow(nodeId, nodeEpoch, kept, slots)]), Unit)
  }

  /** The node is registered at exactly this epoch. */
  predicate NodeAdmitted(s: MetadataState, nodeId: NodeId, nodeEpoch: int) {
    nodeId in s.nodes && s.nodes[nodeId].epoch == nodeEpoch
  }

  predicate Eligible(nodes: map<NodeId, NodeRow>, nodeId: NodeId) {
    nodeId in nodes && nodes[nodeId].slots >= 1
  }

  // ---- streams ----

  predicate InRange(first: nat, count: nat, id: nat) {
    first <= id < first + count
  }

  /** `count` consecutive ids. */
  function IdRange(first: nat, count: nat): (ids: set<nat>)
    ensures forall id: nat :: id in ids <==> InRange(first, count, id)
  {
    set id: nat | first <= id < first + count && InRange(first, count, id)
  }

  function FreshRow(streamId: nat): StreamRow {
    StreamRow(streamId, NEVER_OPENED, 0, 0, Closed, UNPLACED)
  }

  function CreateRange(t: StreamTable, count: nat): StreamTable {
    t.(rows := t.rows + (map id | id in IdRange(t.nextId, count) :: FreshRow(id)), nextId := t.nextId + count)
  }

  function DoCreateStream(s: MetadataState, nodeId: NodeId, nodeEpoch: int): Outcome {
    if !NodeAdmitted(s, nodeId, nodeEpoch) then Err(NodeEpochMismatch(nodeId))
    else Ok(s.(streams := CreateRange(s.streams, 1)), Id(s.streams.nextId))
  }

  function DoCreateStreams(s: MetadataState, nodeId: NodeId, nodeEpoch: int, count: nat): Outcome {
    if !NodeAdmitted(s, nodeId, nodeEpoch) then Err(NodeEpochMismatch(nodeId))
    else if count == 0 || count > MAX_CREATE_STREAMS then Err(Unexpected)
    else Ok(s.(streams := CreateRange(s.streams, count)), Id(s.streams.nextId))
  }

  function EntriesOf(index: set<(NodeId, nat)>, nodeId: NodeId): set<(NodeId, nat)> {
    set e | e in index && e.0 == nodeId
  }

  /** Streams charged to a node: those it has open plus those placed on it. */
  function Load(t: StreamTable, nodeId: NodeId): nat {
    |EntriesOf(t.openingByNode, nodeId)| + |EntriesOf(t.placedByNode, nodeId)|
  }

  function Score(s: MetadataState, nodeId: NodeId): nat
    requires Eligible(s.nodes, nodeId)
  {
    Load(s.streams, nodeId) * 1000 / s.nodes[nodeId].slots
  }

  /** Lower score first, lower node id on ties. */
  predicate Preferred(s: MetadataState, a: NodeId, b: NodeId)
    requires Eligible(s.nodes, a) && Eligible(s.nodes, b)
  {
    Score(s, a) < Score(s, b) || (Score(s, a) == Score(s, b) && a <= b)
  }

  ghost predicate IsBestNode(s: MetadataState, nodeId: NodeId) {
    Eligible(s.nodes, nodeId) && forall m: NodeId :: Eligible(s.nodes, m) ==> Preferred(s, nodeId, m)
  }

  ghost predicate HasBestNode(s: MetadataState) {
    exists n: NodeId :: IsBestNode(s, n)
  }

  ghost function BestNode(s: MetadataState): (n: NodeId)
    requires HasBestNode(s)
    ensures IsBestNode(s, n)
  {
    var n: NodeId :| IsBestNode(s, n);
    n
  }

  ghost function DoPlaceStream(s: MetadataState, streamId: nat): Outcome {
    var t := s.streams;
    if streamId !in t.rows then Err(StreamNotExist(streamId))
    else
      var row := t.rows[streamId];
      if row.nodeId != UNPLACED then Ok(s, Id(NodeAsId(row.nodeId)))
      else if row.state != Closed || row.epoch != NEVER_OPENED then Err(Unexpected)
      else if !HasBestNode(s) then Err(NodeEpochMismatch(UNPLACED))
      else
        var winner := BestNode(s);
        Ok(s.(streams := t.(rows := t.rows[streamId := row.(nodeId := winner)],
                            placedByNode := t.placedByNode + {(winner, streamId)})),
           Id(NodeAsId(winner)))
  }

  function DoOpenStream(s: MetadataState, nodeId: NodeId, nodeEpoch: int, streamId: nat, epoch: int): Outcome {
    var t := s.streams;
    if !NodeAdmitted(s, nodeId, nodeEpoch) then Err(NodeEpochMismatch(nodeId))
    else if streamId !in t.rows then Err(StreamNotExist(streamId))
    else
      var row := t.rows[streamId];
      if row.epoch > epoch then Err(StreamFenced(streamId, epoch))
      else if row.epoch == epoch then
        if row.state == Opened && row.nodeId == nodeId then Ok(s, Stream(ToStreamMetadata(row)))
        else Err(StreamFenced(streamId, epoch))
      else if row.state == Opened then Err(StreamNotClosed(streamId))
      else
        var next := row.(epoch := epoch, state := Opened, nodeId := nodeId);
        Ok(s.(streams := t.(rows := t.rows[streamId := next],
                            placedByNode := t.placedByNode - {(row.nodeId, streamId)},
                            openingByNode := t.openingByNode + {(nodeId, streamId)})),
           Stream(ToStreamMetadata(next)))
  }

  function DoTrimStream(s: MetadataState, nodeId: NodeId, nodeEpoch: int, streamId: nat, epoch: int,
                        newStart: nat): Outcome
  {
    var t := s.streams;
    if !NodeAdmitted(s, nodeId, nodeEpoch) then Err(NodeEpochMismatch(nodeId))
    else if streamId !in t.rows then Err(StreamNotExist(streamId))
    else
      var row := t.rows[streamId];
      if row.state != Opened then Err(Unexpected)
      else if row.epoch != epoch then Err(ExpiredEpoch(streamId, epoch))
      else if newStart < row.startOffset || newStart > row.endOffset then Err(Unexpected)
      else Ok(s.(streams := t.(rows := t.rows[streamId := row.(startOffset := newStart)])), Unit)
  }

  function DoCloseStream(s: MetadataState, nodeId: NodeId, nodeEpoch: int, streamId: nat, epoch: int): Outcome {
    var t := s.streams;
    if !NodeAdmitted(s, nodeId, nodeEpoch) then Err(NodeEpochMismatch(nodeId))
    else if streamId !in t.rows then Err(StreamNotExist(streamId))
    else
      var row := t.rows[streamId];
      if row.state == Closed && row.epoch == epoch then Ok(s, Unit)
      else if row.state != Opened then Err(Unexpected)
      else if row.epoch != epoch then Err(ExpiredEpoch(streamId, epoch))
      else Ok(s.(streams := t.(rows := t.rows[streamId := row.(state := Closed)],
                               openingByNode := t.openingByNode - {(row.nodeId, streamId)})), Unit)
  }

  function DoTransferStream(s: MetadataState, streamId: nat, fromNode: NodeId, toNode: NodeId): Outcome {
    var t := s.streams;
    if streamId !in t.rows then Err(StreamNotExist(streamId))
    else if streamId in t.transfers then
      if t.transfers[streamId] == PendingTransfer(fromNode, toNode) then Ok(s, Unit) else Err(Unexpected)
    else if fromNode == toNode then Err(Unexpected)
    else if !Eligible(s.nodes, toNode) then Err(NodeEpochMismatch(toNode))
    else if t.rows[streamId].state != Opened || t.rows[streamId].nodeId != fromNode then Err(Unexpected)
    else Ok(s.(streams := t.(transfers := t.transfers[streamId := PendingTransfer(fromNode, toNode)])), Unit)
  }

  function DoCompleteTransfer(s: MetadataState, streamId: nat, epoch: int): Outcome {
    var t := s.streams;
    if streamId !in t.transfers then Err(Redundant)
    else if streamId !in t.rows then Err(StreamNotExist(streamId))
    else
      var row := t.rows[streamId];
      if row.state != Closed then Err(StreamNotClosed(streamId))
      else if row.epoch != epoch then Err(ExpiredEpoch(streamId, epoch))
      else Ok(s.(streams := t.(rows := t.rows[streamId := row.(nodeId := t.transfers[streamId].toNode)],
                               transfers := t.transfers - {streamId})), Unit)
  }

  // ---- destroyed-object queue ----

  /** Re-marking an id keeps its queue position and only changes the operation. */
  function Mark(q: DestroyedQueue, id: nat, op: CompactOp): DestroyedQueue {
    if id in q.byId then q.(marked := q.marked[q.byId[id] := Destroyed(id, op)])
    else DestroyedQueue(q.marked[q.nextSeq := Destroyed(id, op)], q.byId[id := q.nextSeq], q.nextSeq + 1)
  }

  function MarkAll(q: DestroyedQueue, ids: seq<nat>, ops: seq<CompactOp>): DestroyedQueue
    requires |ops| == |ids|
  {
    if ids == [] then q
    else Mark(MarkAll(q, ids[..|ids| - 1], ops[..|ids| - 1]), ids[|ids| - 1], ops[|ids| - 1])
  }

  function Deletes(n: nat): (ops: seq<CompactOp>)
    ensures |ops| == n
  {
    seq(n, _ => Delete)
  }

  function Clean(q: DestroyedQueue, id: nat): DestroyedQueue {
    if id in q.byId then q.(marked := q.marked - {q.byId[id]}, byId := q.byId - {id}) else q
  }

  function CleanAll(q: DestroyedQueue, ids: seq<nat>): DestroyedQueue {
    if ids == [] then q else Clean(CleanAll(q, ids[..|ids| - 1]), ids[|ids| - 1])
  }

  // ---- delete cascade ----

  function KeysOfStream(t: ObjectTable, streamId: nat): set<OffsetKey> {
    set k | k in t.rows && k.streamId == streamId
  }

  function IdsOf(keys: seq<OffsetKey>): (ids: seq<nat>)
    ensures |ids| == |keys|
  {
    seq(|keys|, i requires 0 <= i < |keys| => keys[i].objectId)
  }

  lemma KeyLessIsTotal()
    ensures StrictTotal(KeyLess)
  {
  }

  function AscendingKeys(keys: set<OffsetKey>): (s: seq<OffsetKey>)
    ensures Ascends(KeyLess, s) && |s| == |keys|
    ensures forall k :: k in s <==> k in keys
  {
    KeyLessIsTotal();
    Ascending(keys, KeyLess)
  }

  function DropStream(t: StreamTable, streamId: nat): StreamTable {
    t.(rows := t.rows - {streamId},
       placedByNode := (set e | e in t.placedByNode && e.1 != streamId),
       transfers := t.transfers - {streamId})
  }

  function DropKeys(t: ObjectTable, keys: set<OffsetKey>): ObjectTable {
    ObjectTable(t.rows - keys, t.ids - (set k | k in keys :: k.objectId))
  }

  function DoDeleteStream(s: MetadataState, nodeId: NodeId, nodeEpoch: int, streamId: nat, epoch: int): Outcome {
    var t := s.streams;
    if !NodeAdmitted(s, nodeId, nodeEpoch) then Err(NodeEpochMismatch(nodeId))
    else if streamId !in t.rows then Ok(s, Unit)
    else if t.rows[streamId].state != Closed then Err(StreamNotClosed(streamId))
    else if t.rows[streamId].epoch != epoch then Err(ExpiredEpoch(streamId, epoch))
    else
      var keys := KeysOfStream(s.objects, streamId);
      var ids := IdsOf(AscendingKeys(keys));
      Ok(s.(streams := DropStream(t, streamId), objects := DropKeys(s.objects, keys),
            destroyed := MarkAll(s.destroyed, ids, Deletes(|ids|))), Unit)
  }

  // ---- leases ----

  function DoPrepareObject(
      s: MetadataState, nodeId: NodeId, nodeEpoch: int, count: nat, ttlMs: int, nowMs: int): Outcome {
    var t := s.leases;
    if !NodeAdmitted(s, nodeId, nodeEpoch) then Err(NodeEpochMismatch(nodeId))
    else if count == 0 then Err(Unexpected)
    else
      var deadline := nowMs + Clamp(ttlMs);
      var ids := IdRange(t.nextId, count);
      Ok(s.(leases := LeaseTable(t.nextId + count, t.prepared + (map id | id in ids :: deadline),
                                 t.byDeadline + (set id | id in ids :: (deadline, id)))), Id(t.nextId))
  }

  function CommitPrepared(t: LeaseTable, id: nat): LeaseTable {
    if id in t.prepared then t.(prepared := t.prepared - {id}, byDeadline := t.byDeadline - {(t.prepared[id], id)})
    else t
  }

  function Expired(t: LeaseTable, nowMs: int): set<(int, nat)> {
    set e | e in t.byDeadline && e.0 <= nowMs
  }

  function DoExpire(s: MetadataState, nowMs: int): Outcome {
    var expired := Expired(s.leases, nowMs);
    Ok(s.(leases := s.leases.(byDeadline := s.leases.byDeadline - expired,
                              prepared := s.leases.prepared - (set e | e in expired :: e.1))), Count(|expired|))
  }

  // ---- commits ----

  function Advance(rows: map<nat, StreamRow>, streamId: nat, start: nat, end: nat, compact: bool)
    : Result<map<nat, StreamRow>, MetadataError>
  {
    if streamId !in rows then Failure(StreamNotExist(streamId))
    else
      var row := rows[streamId];
      if compact then
        if row.endOffset < end || row.startOffset > start then Failure(Unexpected) else Success(rows)
      else if row.endOffset != start then Failure(Unexpected)
      else Success(rows[streamId := row.(endOffset := end)])
  }

  function AdvanceAll(rows: map<nat, StreamRow>, ranges: seq<ObjectStreamRange>, compact: bool)
    : Result<map<nat, StreamRow>, MetadataError>
  {
    if ranges == [] then Success(rows)
    else
      var before :- AdvanceAll(rows, ranges[..|ranges| - 1], compact);
      var r := ranges[|ranges| - 1];
      Advance(before, r.streamId, r.startOffset, r.endOffset, compact)
  }

  /** The id is not a stream-set object, nor a stream object under another key. */
  predicate IdFree(sets: SetTable, objects: ObjectTable, id: nat, key: Option<OffsetKey>) {
    id !in sets.rows && (id in objects.ids ==> key == Some(objects.ids[id]))
  }

  predicate CommittedIn(t: ObjectTable, streamId: nat, id: nat) {
    id in t.ids && t.ids[id].streamId == streamId
  }

  predicate RedundantCommit(s: MetadataState, req: CommitRequest) {
    if req.objectId != NOOP_OBJECT_ID then req.objectId in s.sets.rows
    else req.streamObjects != []
         && forall o | o in req.streamObjects :: CommittedIn(s.objects, o.streamId, o.objectId)
  }

  function RangeKeys(ranges: seq<OffsetRange>, id: nat): set<OffsetKey> {
    set r | r in ranges :: OffsetKey(r.streamId, r.startOffset, id)
  }

  function RemoveSet(t: SetTable, id: nat): SetTable {
    if id in t.rows then
      SetTable(t.rows - {id}, t.ranges - RangeKeys(t.rows[id].meta.ranges, id), t.byNode - {(t.rows[id].nodeId, id)})
    else t
  }

  function RemoveSets(t: SetTable, ids: seq<nat>): SetTable {
    if ids == [] then t else RemoveSet(RemoveSets(t, ids[..|ids| - 1]), ids[|ids| - 1])
  }

  /** Earliest data timestamp among `now` and the compacted objects. */
  function DataTime(t: SetTable, ids: seq<nat>, nowMs: int): int
    requires forall id | id in ids :: id in t.rows
  {
    if ids == [] then nowMs
    else
      var last := ids[|ids| - 1];
      assert last in ids;
      assert forall id | id in ids[..|ids| - 1] :: id in ids;
      Min(DataTime(t, ids[..|ids| - 1], nowMs), t.rows[last].meta.dataMs)
  }

  function OffsetRanges(ranges: seq<ObjectStreamRange>): (r: seq<OffsetRange>)
    ensures |r| == |ranges|
  {
    seq(|ranges|, i requires 0 <= i < |ranges| =>
      OffsetRange(ranges[i].streamId, ranges[i].startOffset, ranges[i].endOffset))
  }

  /** Inserts every range under its key; a later range with the same key wins. */
  function IndexRanges(m: map<OffsetKey, nat>, ranges: seq<OffsetRange>, id: nat): map<OffsetKey, nat> {
    if ranges == [] then m
    else
      var r := ranges[|ranges| - 1];
      IndexRanges(m, ranges[..|ranges| - 1], id)[OffsetKey(r.streamId, r.startOffset, id) := r.endOffset]
  }

  function AddSet(t: SetTable, id: nat, row: StreamSetRow): SetTable {
    SetTable(t.rows[id := row], IndexRanges(t.ranges, row.meta.ranges, id), t.byNode + {(row.nodeId, id)})
  }

  function SetMeta(req: CommitRequest, dataMs: int, nowMs: int): ObjectMeta {
    ObjectMeta(req.objectId, StreamSet, OffsetRanges(req.streamRanges), req.size, req.attributes, nowMs, dataMs)
  }

  /** Registers the stream-set object of a commit. */
  function CommitSet(s: MetadataState, nodeId: NodeId, req: CommitRequest, compact: bool, dataMs: int, nowMs: int)
    : Result<MetadataState, MetadataError>
  {
    if !IdFree(s.sets, s.objects, req.objectId, None) then Failure(Unexpected)
    else
      var rows :- AdvanceAll(s.streams.rows, req.streamRanges, compact);
      Success(s.(streams := s.streams.(rows := rows),
                 leases := CommitPrepared(s.leases, req.objectId),
                 sets := AddSet(s.sets, req.objectId, StreamSetRow(nodeId, SetMeta(req, dataMs, nowMs)))))
  }

  function KeyOf(o: StreamObject): OffsetKey {
    OffsetKey(o.streamId, o.startOffset, o.objectId)
  }

  function AddObject(t: ObjectTable, o: StreamObject, dataMs: int, nowMs: int): ObjectTable {
    var meta := ObjectMeta(o.objectId, SingleStream, [OffsetRange(o.streamId, o.startOffset, o.endOffset)],
                           o.size, o.attributes, nowMs, dataMs);
    ObjectTable(t.rows[KeyOf(o) := meta], t.ids[o.objectId := KeyOf(o)])
  }

  function CommitObject(s: MetadataState, o: StreamObject, compact: bool, dataMs: int, nowMs: int)
    : Result<MetadataState, MetadataError>
  {
    if !IdFree(s.sets, s.objects, o.objectId, Some(KeyOf(o))) then Failure(Unexpected)
    else
      var rows :- Advance(s.streams.rows, o.streamId, o.startOffset, o.endOffset, compact);
      Success(s.(streams := s.streams.(rows := rows),
                 leases := CommitPrepared(s.leases, o.objectId),
                 objects := AddObject(s.objects, o, dataMs, nowMs)))
  }

  function CommitObjects(s: MetadataState, objects: seq<StreamObject>, compact: bool, dataMs: int, nowMs: int)
    : Result<MetadataState, MetadataError>
  {
    if objects == [] then Success(s)
    else
      var t :- CommitObjects(s, objects[..|objects| - 1], compact, dataMs, nowMs);
      CommitObject(t, objects[|objects| - 1], compact, dataMs, nowMs)
  }

  /** The compacted stream-set objects leave their table and enter the cleanup queue. */
  function DropCompacted(s: MetadataState, ids: seq<nat>): MetadataState {
    s.(sets := RemoveSets(s.sets, ids), destroyed := MarkAll(s.destroyed, ids, Deletes(|ids|)))
  }

  function CommitSetIfAny(s: MetadataState, nodeId: NodeId, req: CommitRequest, compact: bool, dataMs: int, nowMs: int)
    : Result<MetadataState, MetadataError>
  {
    if req.objectId == NOOP_OBJECT_ID then Success(s) else CommitSet(s, nodeId, req, compact, dataMs, nowMs)
  }

  function DoCommit(s: MetadataState, nodeId: NodeId, nodeEpoch: int, req: CommitRequest, nowMs: int): Outcome {
    if !NodeAdmitted(s, nodeId, nodeEpoch) then Err(NodeEpochMismatch(nodeId))
    else if RedundantCommit(s, req) then Err(Redundant)
    else if exists id | id in req.compactedIds :: id !in s.sets.rows then Err(Unexpected)
    else
      var compact := req.compactedIds != [];
      var dataMs := DataTime(s.sets, req.compactedIds, nowMs);
      var inserted := CommitSetIfAny(DropCompacted(s, req.compactedIds), nodeId, req, compact, dataMs, nowMs);
      if inserted.Failure? then Err(inserted.error)
      else
        var done := CommitObjects(inserted.value, req.streamObjects, compact, dataMs, nowMs);
        if done.Failure? then Err(done.error) else Ok(done.value, Unit)
  }

  function DropSource(t: ObjectTable, streamId: nat, id: nat): ObjectTable {
    if CommittedIn(t, streamId, id) then ObjectTable(t.rows - {t.ids[id]}, t.ids - {id}) else t
  }

  function DropSources(t: ObjectTable, streamId: nat, ids: seq<nat>): ObjectTable {
    if ids == [] then t else DropSource(DropSources(t, streamId, ids[..|ids| - 1]), streamId, ids[|ids| - 1])
  }

  function Replacement(req: CompactRequest): StreamObject {
    StreamObject(req.objectId, req.size, req.streamId, req.startOffset, req.endOffset, req.attributes)
  }

  function WithReplacement(t: ObjectTable, req: CompactRequest, nowMs: int): ObjectTable {
    if req.objectId == NOOP_OBJECT_ID then t else AddObject(t, Replacement(req), nowMs, nowMs)
  }

  /** An empty operation list means "delete" for every source. */
  function SourceOps(req: CompactRequest): seq<CompactOp> {
    if req.operations == [] || req.sourceIds == [] then Deletes(|req.sourceIds|) else req.operations
  }

  function DoCompact(s: MetadataState, nodeId: NodeId, nodeEpoch: int, req: CompactRequest, nowMs: int): Outcome {
    var noop := req.objectId == NOOP_OBJECT_ID;
    if !NodeAdmitted(s, nodeId, nodeEpoch) then Err(NodeEpochMismatch(nodeId))
    else if !noop && CommittedIn(s.objects, req.streamId, req.objectId) then Err(Redundant)
    else if req.streamId !in s.streams.rows then Err(StreamNotExist(req.streamId))
    else
      var row := s.streams.rows[req.streamId];
      var epoch := EpochAsSigned(req.streamEpoch);
      if row.epoch != epoch then Err(ExpiredEpoch(req.streamId, epoch))
      else if row.endOffset < req.endOffset || row.startOffset > req.startOffset then Err(Unexpected)
      else if !noop && !IdFree(s.sets, s.objects, req.objectId, Some(KeyOf(Replacement(req)))) then Err(Unexpected)
      else if |SourceOps(req)| != |req.sourceIds| then Err(Unexpected)
      else Ok(s.(leases := CommitPrepared(s.leases, req.objectId),
                 objects := DropSources(WithReplacement(s.objects, req, nowMs), req.streamId, req.sourceIds),
                 destroyed := MarkAll(s.destroyed, req.sourceIds, SourceOps(req))), Unit)
  }

  // ---- key-value entries ----

  function DoPutKv(s: MetadataState, key: Utf8, value: seq<byte>): Outcome {
    Ok(s.(kv := s.kv[key := value]), Value(Some(value)))
  }

  function DoPutKvIfAbsent(s: MetadataState, key: Utf8, value: seq<byte>): Outcome {
    if key in s.kv then Ok(s, Value(Some(s.kv[key]))) else DoPutKv(s, key, value)
  }

  function DoDeleteKv(s: MetadataState, key: Utf8): Outcome {
    Ok(s.(kv := s.kv - {key}), Value(if key in s.kv then Some(s.kv[key]) else None))
  }

  // ---- dispatch ----

  ghost function ApplyCommand(s: MetadataState, c: Command): Outcome {
    match c
    case RegisterNode(n, e, a, slots) => DoRegisterNode(s, n, e, a, slots)
    case PlaceStream(id) => DoPlaceStream(s, id)
    case CreateStream(n, e) => DoCreateStream(s, n, e)
    case OpenStream(n, e, id, epoch) => DoOpenStream(s, n, e, id, epoch)
    case TrimStream(n, e, id, epoch, start) => DoTrimStream(s, n, e, id, epoch, start)
    case CloseStream(n, e, id, epoch) => DoCloseStream(s, n, e, id, epoch)
    case DeleteStream(n, e, id, epoch) => DoDeleteStream(s, n, e, id, epoch)
    case PrepareObject(n, e, count, ttl, now) => DoPrepareObject(s, n, e, count, ttl, now)
    case CommitStreamSetObject(n, e, req, now) => DoCommit(s, n, e, req, now)
    case CompactStreamObject(n, e, req, now) => DoCompact(s, n, e, req, now)
    case ExpirePreparedObjects(now) => DoExpire(s, now)
    case CleanDestroyedObjects(ids) => Ok(s.(destroyed := CleanAll(s.destroyed, ids)), Unit)
    case PutKv(key, value) => DoPutKv(s, key, value)
    case PutKvIfAbsent(key, value) => DoPutKvIfAbsent(s, key, value)
    case DeleteKv(key) => DoDeleteKv(s, key)
    case TransferStream(id, from, to) => DoTransferStream(s, id, from, to)
    case CompleteTransfer(id, epoch) => DoCompleteTransfer(s, id, epoch)
    case CreateStreams(n, e, count) => DoCreateStreams(s, n, e, count)
  }

  /** A failed command leaves the state as it was. */
  ghost function Step(s: MetadataState, c: Command): MetadataState {
    var o := ApplyCommand(s, c);
    if o.Ok? then o.state else s
  }

  /** The state after replaying the commands in order. */
  ghost function Run(s: MetadataState, commands: seq<Command>): MetadataState {
    if commands == [] then s else Step(Run(s, commands[..|commands| - 1]), commands[|commands| - 1])
  }
}
