/** Rows, commands, results and the replicated state of the metadata plane. */
module Metadata {
  import opened Bytes

  /** "No object": the all-ones 64-bit id. */
  const NOOP_OBJECT_ID: nat := U64_MODULUS - 1

  /** 32-bit signed node ids. */
  type NodeId = n: int | -0x8000_0000 <= n < 0x8000_0000

  /** Node id of a stream no node was chosen for. */
  const UNPLACED: NodeId := -1

  /** Epoch of a stream that was never opened. */
  const NEVER_OPENED: int := -1

  datatype StreamState = Closed | Opened

  datatype StreamRow = StreamRow(
    streamId: nat, epoch: int, startOffset: nat, endOffset: nat, state: StreamState, nodeId: NodeId)

  datatype NodeRow = NodeRow(nodeId: NodeId, epoch: int, httpAddress: Utf8, slots: nat)

  datatype PendingTransfer = PendingTransfer(fromNode: NodeId, toNode: NodeId)

  datatype ObjectType = StreamSet | SingleStream

  datatype OffsetRange = OffsetRange(streamId: nat, startOffset: nat, endOffset: nat)

  datatype ObjectMeta = ObjectMeta(
    objectId: nat, objectType: ObjectType, ranges: seq<OffsetRange>,
    size: nat, attributes: nat, committedMs: int, dataMs: int)

  datatype StreamSetRow = StreamSetRow(nodeId: NodeId, meta: ObjectMeta)

  /** Key of the offset-sorted per-stream indexes, ordered field by field. */
  datatype OffsetKey = OffsetKey(streamId: nat, start: nat, objectId: nat)

  datatype CompactOp = Delete | KeepData | DeepDelete

  datatype Destroyed = Destroyed(objectId: nat, op: CompactOp)

  datatype ObjectStreamRange = ObjectStreamRange(
    streamId: nat, epoch: nat, startOffset: nat, endOffset: nat, size: nat)

  datatype StreamObject = StreamObject(
    objectId: nat, size: nat, streamId: nat, startOffset: nat, endOffset: nat, attributes: nat)

  datatype CommitRequest = CommitRequest(
    objectId: nat, size: nat, attributes: nat,
    streamRanges: seq<ObjectStreamRange>, streamObjects: seq<StreamObject>, compactedIds: seq<nat>)

  datatype CompactRequest = CompactRequest(
    objectId: nat, size: nat, streamId: nat, streamEpoch: nat, startOffset: nat, endOffset: nat,
    sourceIds: seq<nat>, operations: seq<CompactOp>, attributes: nat)

  datatype Command =
    | RegisterNode(nodeId: NodeId, nodeEpoch: int, httpAddress: Utf8, slots: nat)
    | PlaceStream(streamId: nat)
    | CreateStream(nodeId: NodeId, nodeEpoch: int)
    | OpenStream(nodeId: NodeId, nodeEpoch: int, streamId: nat, epoch: int)
    | TrimStream(nodeId: NodeId, nodeEpoch: int, streamId: nat, epoch: int, newStartOffset: nat)
    | CloseStream(nodeId: NodeId, nodeEpoch: int, streamId: nat, epoch: int)
    | DeleteStream(nodeId: NodeId, nodeEpoch: int, streamId: nat, epoch: int)
    | PrepareObject(nodeId: NodeId, nodeEpoch: int, count: nat, ttlMs: int, nowMs: int)
    | CommitStreamSetObject(nodeId: NodeId, nodeEpoch: int, commit: CommitRequest, nowMs: int)
    | CompactStreamObject(nodeId: NodeId, nodeEpoch: int, compact: CompactRequest, nowMs: int)
    | ExpirePreparedObjects(nowMs: int)
    | CleanDestroyedObjects(objectIds: seq<nat>)
    | PutKv(key: Utf8, value: seq<byte>)
    | PutKvIfAbsent(key: Utf8, value: seq<byte>)
    | DeleteKv(key: Utf8)
    | TransferStream(streamId: nat, fromNode: NodeId, toNode: NodeId)
    | CompleteTransfer(streamId: nat, epoch: int)
    | CreateStreams(nodeId: NodeId, nodeEpoch: int, count: nat)

  /** Stream row as the engine sees it: the epoch is clamped at zero. */
  datatype StreamMetadata = StreamMetadata(
    streamId: nat, epoch: nat, startOffset: nat, endOffset: nat, state: StreamState, nodeId: NodeId)

  datatype CommandResult =
    | Unit
    | Id(id: nat)
    | Count(count: nat)
    | Stream(stream: StreamMetadata)
    | Value(value: Option<seq<byte>>)

  /** Error variants with their structured fields; message texts are not modelled. */
  datatype MetadataError =
    | StreamNotExist(streamId: nat)
    | StreamNotClosed(streamId: nat)
    | StreamFenced(streamId: nat, epoch: int)
    | ExpiredEpoch(streamId: nat, epoch: int)
    | NodeEpochMismatch(nodeId: NodeId)
    | Redundant
    | Unexpected

  /** Stream rows, with the indexes of open streams and of placed, never-opened streams by node. */
  datatype StreamTable = StreamTable(
    nextId: nat,
    rows: map<nat, StreamRow>,
    openingByNode: set<(NodeId, nat)>,
    placedByNode: set<(NodeId, nat)>,
    transfers: map<nat, PendingTransfer>)

  /** Leased object ids, with the index of leases by deadline. */
  datatype LeaseTable = LeaseTable(nextId: nat, prepared: map<nat, int>, byDeadline: set<(int, nat)>)

  /** Stream-set objects, with the offset index of their ranges and the index by committing node. */
  datatype SetTable = SetTable(
    rows: map<nat, StreamSetRow>, ranges: map<OffsetKey, nat>, byNode: set<(NodeId, nat)>)

  /** Single-stream objects, with the index from object id to key. */
  datatype ObjectTable = ObjectTable(rows: map<OffsetKey, ObjectMeta>, ids: map<nat, OffsetKey>)

  /** Cleanup queue keyed by insertion sequence, with the index from object id to sequence. */
  datatype DestroyedQueue = DestroyedQueue(marked: map<nat, Destroyed>, byId: map<nat, nat>, nextSeq: nat)

  /** The replicated state: the primary maps and seven secondary indexes
      (`openingByNode`, `placedByNode`, `byDeadline`, `ranges`, `byNode`, `ids`, `byId`). */
  datatype MetadataState = MetadataState(
    streams: StreamTable,
    nodes: map<NodeId, NodeRow>,
    leases: LeaseTable,
    sets: SetTable,
    objects: ObjectTable,
    destroyed: DestroyedQueue,
    kv: map<Utf8, seq<byte>>)

  const EMPTY_STATE: MetadataState := MetadataState(
    StreamTable(0, map[], {}, {}, map[]), map[], LeaseTable(0, map[], {}), SetTable(map[], map[], {}),
    ObjectTable(map[], map[]), DestroyedQueue(map[], map[], 0), map[])

  predicate KeyLess(a: OffsetKey, b: OffsetKey) {
    a.streamId < b.streamId
    || (a.streamId == b.streamId
        && (a.start < b.start || (a.start == b.start && a.objectId < b.objectId)))
  }
}
