/** Every secondary index is exactly what its primary map determines, after any run of commands. */
module Indexes {
  import opened Bytes
  import opened Metadata
  import opened Apply

  // ---- what each index must hold, given its primary map ----

  predicate IsOpenedOn(rows: map<nat, StreamRow>, e: (NodeId, nat)) {
    e.1 in rows && rows[e.1].state == Opened && rows[e.1].nodeId == e.0
  }

  predicate IsPlacedOn(rows: map<nat, StreamRow>, e: (NodeId, nat)) {
    e.1 in rows && rows[e.1].state == Closed && rows[e.1].epoch == NEVER_OPENED
    && rows[e.1].nodeId == e.0 && e.0 != UNPLACED
  }

  ghost predicate PlacedExact(t: StreamTable) {
    forall e: (NodeId, nat) :: e in t.placedByNode <==> IsPlacedOn(t.rows, e)
  }

  predicate RowOk(id: nat, row: StreamRow, next: nat) {
    && row.streamId == id && id < next && row.epoch >= NEVER_OPENED
    && (row.state == Opened ==> row.epoch > NEVER_OPENED)
  }

  /** Rows carry their own id, transfers concern streams that were opened, both node indexes are exact. */
  ghost predicate StreamsExact(t: StreamTable) {
    && (forall id :: id in t.rows ==> RowOk(id, t.rows[id], t.nextId))
    && (forall e: (NodeId, nat) :: e in t.openingByNode <==> IsOpenedOn(t.rows, e))
    && PlacedExact(t)
    && (forall id :: id in t.transfers ==> id in t.rows && t.rows[id].epoch > NEVER_OPENED)
  }

  ghost predicate NodesKeyed(nodes: map<NodeId, NodeRow>) {
    forall n :: n in nodes ==> nodes[n].nodeId == n
  }

  ghost predicate LeasesExact(t: LeaseTable) {
    && (forall id :: id in t.prepared ==> id < t.nextId)
    && (forall e: (int, nat) :: e in t.byDeadline <==> e.1 in t.prepared && t.prepared[e.1] == e.0)
  }

  /** End offset of the last range of a stream that starts at `start`. */
  function LastEnd(ranges: seq<OffsetRange>, streamId: nat, start: nat): Option<nat> {
    if ranges == [] then None
    else
      var r := ranges[|ranges| - 1];
      if r.streamId == streamId && r.startOffset == start then Some(r.endOffset)
      else LastEnd(ranges[..|ranges| - 1], streamId, start)
  }

  function IndexedEnd(rows: map<nat, StreamSetRow>, k: OffsetKey): Option<nat> {
    if k.objectId in rows then LastEnd(rows[k.objectId].meta.ranges, k.streamId, k.start) else None
  }

  ghost predicate RangesExact(rows: map<nat, StreamSetRow>, ranges: map<OffsetKey, nat>) {
    forall k: OffsetKey ::
      (k in ranges <==> IndexedEnd(rows, k).Some?) && (k in ranges ==> IndexedEnd(rows, k) == Some(ranges[k]))
  }

  /** The range index is the last-wins fold of every object's ranges. */
  ghost predicate SetsExact(t: SetTable) {
    && (forall id :: id in t.rows ==> t.rows[id].meta.objectId == id && t.rows[id].meta.objectType == StreamSet)
    && RangesExact(t.rows, t.ranges)
    && (forall e: (NodeId, nat) :: e in t.byNode <==> e.1 in t.rows && t.rows[e.1].nodeId == e.0)
  }

  predicate KeyMatches(k: OffsetKey, meta: ObjectMeta) {
    && meta.objectId == k.objectId && meta.objectType == SingleStream
    && |meta.ranges| == 1 && meta.ranges[0].streamId == k.streamId && meta.ranges[0].startOffset == k.start
  }

  ghost predicate ObjectsExact(t: ObjectTable) {
    && (forall k :: k in t.rows ==> KeyMatches(k, t.rows[k]) && k.objectId in t.ids && t.ids[k.objectId] == k)
    && (forall id :: id in t.ids ==> t.ids[id].objectId == id && t.ids[id] in t.rows)
  }

  predicate Queued(marked: map<nat, Destroyed>, q: nat, id: nat) {
    q in marked && marked[q].objectId == id
  }

  predicate Located(byId: map<nat, nat>, id: nat, q: nat) {
    id in byId && byId[id] == q
  }

  ghost predicate QueueExact(t: DestroyedQueue) {
    && (forall q :: q in t.marked ==> q < t.nextSeq)
    && (forall q: nat, id: nat :: Queued(t.marked, q, id) <==> Located(t.byId, id, q))
  }

  /** All seven indexes are exact and rows carry their own keys. */
  ghost predicate Inv(s: MetadataState) {
    && StreamsExact(s.streams) && NodesKeyed(s.nodes) && LeasesExact(s.leases)
    && SetsExact(s.sets) && ObjectsExact(s.objects) && QueueExact(s.destroyed)
  }

  /** No node may register under the id that marks an unplaced stream. */
  predicate Registrable(c: Command) {
    c.RegisterNode? ==> c.nodeId != UNPLACED
  }

  // ---- streams ----

  /** Changing one row, together with the entries of both node indexes for that stream. */
  lemma RowUpdateKeeps(t: StreamTable, id: nat, row: StreamRow, opening: set<(NodeId, nat)>, placed: set<(NodeId, nat)>)
    requires StreamsExact(t) && id in t.rows && RowOk(id, row, t.nextId) && row.epoch >= t.rows[id].epoch
    requires forall e: (NodeId, nat) :: e.1 != id ==> (e in opening <==> e in t.openingByNode)
    requires forall e: (NodeId, nat) :: e.1 != id ==> (e in placed <==> e in t.placedByNode)
    requires forall n: NodeId :: (n, id) in opening <==> row.state == Opened && row.nodeId == n
    requires forall n: NodeId :: (n, id) in placed <==>
               row.state == Closed && row.epoch == NEVER_OPENED && row.nodeId == n && n != UNPLACED
    ensures StreamsExact(t.(rows := t.rows[id := row], openingByNode := opening, placedByNode := placed))
  {
    var u := t.(rows := t.rows[id := row], openingByNode := opening, placedByNode := placed);
    forall e: (NodeId, nat)
      ensures e in opening <==> IsOpenedOn(u.rows, e)
      ensures e in placed <==> IsPlacedOn(u.rows, e)
    {
      assert e == (e.0, e.1);
      assert e in t.openingByNode <==> IsOpenedOn(t.rows, e);
      assert e in t.placedByNode <==> IsPlacedOn(t.rows, e);
    }
  }

  /** The command would place a stream on a node registered under the unplaced sentinel. */
  ghost predicate PlacesOnSentinel(s: MetadataState, c: Command) {
    && c.PlaceStream? && c.streamId in s.streams.rows && s.streams.rows[c.streamId].nodeId == UNPLACED
    && s.streams.rows[c.streamId].state == Closed && s.streams.rows[c.streamId].epoch == NEVER_OPENED
    && IsBestNode(s, UNPLACED)
  }

  /** Open, close, place, trim and complete-transfer each rewrite one row. */
  lemma OneRowKeeps(s: MetadataState, c: Command)
    requires StreamsExact(s.streams) && ApplyCommand(s, c).Ok? && !PlacesOnSentinel(s, c)
    requires c.OpenStream? || c.CloseStream? || c.PlaceStream? || c.TrimStream? || c.CompleteTransfer?
    ensures StreamsExact(Step(s, c).streams)
  {
    var t, u := s.streams, Step(s, c).streams;
    if u != t {
      RowUpdateKeeps(t, c.streamId, u.rows[c.streamId], u.openingByNode, u.placedByNode);
    }
  }

  lemma CreateKeeps(t: StreamTable, count: nat)
    requires StreamsExact(t)
    ensures StreamsExact(CreateRange(t, count))
  {
    var u := CreateRange(t, count);
    assert forall e :: IsOpenedOn(u.rows, e) <==> IsOpenedOn(t.rows, e);
    assert forall e :: IsPlacedOn(u.rows, e) <==> IsPlacedOn(t.rows, e);
  }

  lemma DropStreamKeeps(t: StreamTable, streamId: nat)
    requires StreamsExact(t) && streamId in t.rows && t.rows[streamId].state == Closed
    ensures StreamsExact(DropStream(t, streamId))
  {
    var u := DropStream(t, streamId);
    assert forall e :: e in u.openingByNode <==> IsOpenedOn(u.rows, e);
    assert forall e :: e in u.placedByNode <==> IsPlacedOn(u.rows, e);
  }

  /** Moving an end offset touches no index. */
  lemma AdvanceKeeps(t: StreamTable, streamId: nat, start: nat, end: nat, compact: bool)
    requires StreamsExact(t)
    ensures var r := Advance(t.rows, streamId, start, end, compact); r.Success? ==> StreamsExact(t.(rows := r.value))
  {
    var r := Advance(t.rows, streamId, start, end, compact);
    if r.Success? {
      assert forall e :: IsOpenedOn(r.value, e) <==> IsOpenedOn(t.rows, e);
      assert forall e :: IsPlacedOn(r.value, e) <==> IsPlacedOn(t.rows, e);
    }
  }

  lemma {:induction false} AdvanceAllKeeps(t: StreamTable, ranges: seq<ObjectStreamRange>, compact: bool)
    requires StreamsExact(t)
    ensures var r := AdvanceAll(t.rows, ranges, compact); r.Success? ==> StreamsExact(t.(rows := r.value))
  {
    if ranges != [] {
      var n := |ranges| - 1;
      AdvanceAllKeeps(t, ranges[..n], compact);
      var before := AdvanceAll(t.rows, ranges[..n], compact);
      if before.Success? {
        AdvanceKeeps(t.(rows := before.value), ranges[n].streamId, ranges[n].startOffset, ranges[n].endOffset, compact);
      }
    }
  }

  // ---- leases ----

  lemma CommitPreparedKeeps(t: LeaseTable, id: nat)
    requires LeasesExact(t)
    ensures LeasesExact(CommitPrepared(t, id))
  {
  }

  lemma LeaseCommandKeeps(s: MetadataState, c: Command)
    requires LeasesExact(s.leases) && (c.PrepareObject? || c.ExpirePreparedObjects?)
    ensures LeasesExact(Step(s, c).leases)
  {
    if c.ExpirePreparedObjects? {
      var t, u := s.leases, Step(s, c).leases;
      forall e: (int, nat) ensures e in u.byDeadline <==> e.1 in u.prepared && u.prepared[e.1] == e.0 {
        assert e in t.byDeadline <==> e.1 in t.prepared && t.prepared[e.1] == e.0;
      }
    }
  }

  // ---- stream-set objects ----

  lemma {:induction false} LastEndKeys(ranges: seq<OffsetRange>, k: OffsetKey)
    ensures LastEnd(ranges, k.streamId, k.start).Some? <==> k in RangeKeys(ranges, k.objectId)
  {
    if ranges != [] {
      var n := |ranges| - 1;
      LastEndKeys(ranges[..n], k);
      assert ranges == ranges[..n] + [ranges[n]];
    }
  }

  lemma {:induction false} IndexRangesAt(m: map<OffsetKey, nat>, ranges: seq<OffsetRange>, id: nat, k: OffsetKey)
    ensures
      var out := IndexRanges(m, ranges, id);
      var e := LastEnd(ranges, k.streamId, k.start);
      if k.objectId == id && e.Some? then k in out && out[k] == e.value
      else (k in out <==> k in m) && (k in m ==> out[k] == m[k])
  {
    if ranges != [] {
      IndexRangesAt(m, ranges[..|ranges| - 1], id, k);
    }
  }

  lemma RemoveSetKeeps(t: SetTable, id: nat)
    requires SetsExact(t)
    ensures SetsExact(RemoveSet(t, id))
  {
    if id in t.rows {
      var u := RemoveSet(t, id);
      forall k: OffsetKey
        ensures k in u.ranges <==> IndexedEnd(u.rows, k).Some?
        ensures k in u.ranges ==> IndexedEnd(u.rows, k) == Some(u.ranges[k])
      {
        assert IndexedEnd(t.rows, k).Some? <==> k in t.ranges;
        LastEndKeys(t.rows[id].meta.ranges, OffsetKey(k.streamId, k.start, id));
      }
    }
  }

  lemma {:induction false} RemoveSetsKeeps(t: SetTable, ids: seq<nat>)
    requires SetsExact(t)
    ensures SetsExact(RemoveSets(t, ids))
  {
    if ids != [] {
      RemoveSetsKeeps(t, ids[..|ids| - 1]);
      RemoveSetKeeps(RemoveSets(t, ids[..|ids| - 1]), ids[|ids| - 1]);
    }
  }

  lemma AddSetKeeps(t: SetTable, id: nat, row: StreamSetRow)
    requires SetsExact(t) && id !in t.rows
    requires row.meta.objectId == id && row.meta.objectType == StreamSet
    ensures SetsExact(AddSet(t, id, row))
  {
    var u := AddSet(t, id, row);
    forall k: OffsetKey
      ensures k in u.ranges <==> IndexedEnd(u.rows, k).Some?
      ensures k in u.ranges ==> IndexedEnd(u.rows, k) == Some(u.ranges[k])
    {
      IndexRangesAt(t.ranges, row.meta.ranges, id, k);
      assert k in t.ranges <==> IndexedEnd(t.rows, k).Some?;
    }
  }

  // ---- stream objects ----

  lemma AddObjectKeeps(t: ObjectTable, o: StreamObject, dataMs: int, nowMs: int)
    requires ObjectsExact(t) && (o.objectId in t.ids ==> t.ids[o.objectId] == KeyOf(o))
    ensures ObjectsExact(AddObject(t, o, dataMs, nowMs))
  {
  }

  lemma DropKeysKeeps(t: ObjectTable, keys: set<OffsetKey>)
    requires ObjectsExact(t) && forall k :: k in keys ==> k in t.rows
    ensures ObjectsExact(DropKeys(t, keys))
  {
  }

  lemma {:induction false} DropSourcesKeeps(t: ObjectTable, streamId: nat, ids: seq<nat>)
    requires ObjectsExact(t)
    ensures ObjectsExact(DropSources(t, streamId, ids))
  {
    if ids != [] {
      DropSourcesKeeps(t, streamId, ids[..|ids| - 1]);
    }
  }

  // ---- destroyed queue ----

  lemma MarkKeeps(t: DestroyedQueue, id: nat, op: CompactOp)
    requires QueueExact(t)
    ensures QueueExact(Mark(t, id, op))
  {
    var u := Mark(t, id, op);
    if id in t.byId {
      assert Located(t.byId, id, t.byId[id]);
    }
    forall q: nat, i: nat ensures Queued(u.marked, q, i) <==> Located(u.byId, i, q) {
      assert Queued(t.marked, q, i) <==> Located(t.byId, i, q);
    }
  }

  lemma {:induction false} MarkAllKeeps(t: DestroyedQueue, ids: seq<nat>, ops: seq<CompactOp>)
    requires QueueExact(t) && |ops| == |ids|
    ensures QueueExact(MarkAll(t, ids, ops))
  {
    if ids != [] {
      var n := |ids| - 1;
      MarkAllKeeps(t, ids[..n], ops[..n]);
      MarkKeeps(MarkAll(t, ids[..n], ops[..n]), ids[n], ops[n]);
    }
  }

  lemma CleanKeeps(t: DestroyedQueue, id: nat)
    requires QueueExact(t)
    ensures QueueExact(Clean(t, id))
  {
    if id in t.byId {
      var u := Clean(t, id);
      forall q: nat, i: nat ensures Queued(u.marked, q, i) <==> Located(u.byId, i, q) {
        assert Queued(t.marked, q, i) <==> Located(t.byId, i, q);
        assert Located(t.byId, id, t.byId[id]);
      }
    }
  }

  lemma {:induction false} CleanAllKeeps(t: DestroyedQueue, ids: seq<nat>)
    requires QueueExact(t)
    ensures QueueExact(CleanAll(t, ids))
  {
    if ids != [] {
      CleanAllKeeps(t, ids[..|ids| - 1]);
      CleanKeeps(CleanAll(t, ids[..|ids| - 1]), ids[|ids| - 1]);
    }
  }

  // ---- commits ----

  lemma CommitSetKeeps(s: MetadataState, nodeId: NodeId, req: CommitRequest, compact: bool, dataMs: int, nowMs: int)
    requires Inv(s)
    ensures var r := CommitSet(s, nodeId, req, compact, dataMs, nowMs); r.Success? ==> Inv(r.value)
  {
    if CommitSet(s, nodeId, req, compact, dataMs, nowMs).Success? {
      AdvanceAllKeeps(s.streams, req.streamRanges, compact);
      CommitPreparedKeeps(s.leases, req.objectId);
      AddSetKeeps(s.sets, req.objectId, StreamSetRow(nodeId, SetMeta(req, dataMs, nowMs)));
    }
  }

  lemma CommitObjectKeeps(s: MetadataState, o: StreamObject, compact: bool, dataMs: int, nowMs: int)
    requires Inv(s)
    ensures var r := CommitObject(s, o, compact, dataMs, nowMs); r.Success? ==> Inv(r.value)
  {
    if CommitObject(s, o, compact, dataMs, nowMs).Success? {
      AdvanceKeeps(s.streams, o.streamId, o.startOffset, o.endOffset, compact);
      CommitPreparedKeeps(s.leases, o.objectId);
      AddObjectKeeps(s.objects, o, dataMs, nowMs);
    }
  }

  lemma {:induction false} CommitObjectsKeeps(
      s: MetadataState, objects: seq<StreamObject>, compact: bool, dataMs: int, nowMs: int)
    requires Inv(s)
    ensures var r := CommitObjects(s, objects, compact, dataMs, nowMs); r.Success? ==> Inv(r.value)
  {
    if objects != [] {
      var n := |objects| - 1;
      CommitObjectsKeeps(s, objects[..n], compact, dataMs, nowMs);
      var before := CommitObjects(s, objects[..n], compact, dataMs, nowMs);
      if before.Success? {
        CommitObjectKeeps(before.value, objects[n], compact, dataMs, nowMs);
      }
    }
  }

  lemma CommitKeeps(s: MetadataState, nodeId: NodeId, nodeEpoch: int, req: CommitRequest, nowMs: int)
    requires Inv(s)
    ensures var o := DoCommit(s, nodeId, nodeEpoch, req, nowMs); o.Ok? ==> Inv(o.state)
  {
    if DoCommit(s, nodeId, nodeEpoch, req, nowMs).Ok? {
      var compact := req.compactedIds != [];
      var dataMs := DataTime(s.sets, req.compactedIds, nowMs);
      var dropped := DropCompacted(s, req.compactedIds);
      RemoveSetsKeeps(s.sets, req.compactedIds);
      MarkAllKeeps(s.destroyed, req.compactedIds, Deletes(|req.compactedIds|));
      CommitSetKeeps(dropped, nodeId, req, compact, dataMs, nowMs);
      CommitObjectsKeeps(CommitSetIfAny(dropped, nodeId, req, compact, dataMs, nowMs).value,
                         req.streamObjects, compact, dataMs, nowMs);
    }
  }

  lemma CompactKeeps(s: MetadataState, nodeId: NodeId, nodeEpoch: int, req: CompactRequest, nowMs: int)
    requires Inv(s)
    ensures var o := DoCompact(s, nodeId, nodeEpoch, req, nowMs); o.Ok? ==> Inv(o.state)
  {
    if DoCompact(s, nodeId, nodeEpoch, req, nowMs).Ok? {
      CommitPreparedKeeps(s.leases, req.objectId);
      if req.objectId != NOOP_OBJECT_ID {
        AddObjectKeeps(s.objects, Replacement(req), nowMs, nowMs);
      }
      DropSourcesKeeps(WithReplacement(s.objects, req, nowMs), req.streamId, req.sourceIds);
      MarkAllKeeps(s.destroyed, req.sourceIds, SourceOps(req));
    }
  }

  lemma DeleteKeeps(s: MetadataState, c: Command)
    requires Inv(s) && c.DeleteStream? && ApplyCommand(s, c).Ok?
    ensures Inv(Step(s, c))
  {
    if c.streamId in s.streams.rows {
      var keys := KeysOfStream(s.objects, c.streamId);
      var ids := IdsOf(AscendingKeys(keys));
      DropStreamKeeps(s.streams, c.streamId);
      DropKeysKeeps(s.objects, keys);
      MarkAllKeeps(s.destroyed, ids, Deletes(|ids|));
    }
  }

  // ---- every command, every run ----

  predicate StreamCommand(c: Command) {
    c.PlaceStream? || c.CreateStream? || c.CreateStreams? || c.OpenStream? || c.TrimStream? || c.CloseStream?
    || c.TransferStream? || c.CompleteTransfer?
  }

  lemma StreamCommandFrame(s: MetadataState, c: Command)
    requires StreamCommand(c)
    ensures Step(s, c) == s.(streams := Step(s, c).streams)
  {
  }

  lemma StreamCommandExact(s: MetadataState, c: Command)
    requires StreamsExact(s.streams) && !PlacesOnSentinel(s, c) && ApplyCommand(s, c).Ok? && StreamCommand(c)
    ensures StreamsExact(Step(s, c).streams)
  {
    match c
    case CreateStream(_, _) => CreateKeeps(s.streams, 1);
    case CreateStreams(_, _, count) => CreateKeeps(s.streams, count);
    case TransferStream(_, _, _) =>
    case _ => OneRowKeeps(s, c);
  }

  lemma StepKeeps(s: MetadataState, c: Command)
    requires Inv(s) && !PlacesOnSentinel(s, c)
    ensures Inv(Step(s, c))
  {
    if ApplyCommand(s, c).Ok? {
      match c
      case RegisterNode(_, _, _, _) =>
      case DeleteStream(_, _, _, _) => DeleteKeeps(s, c);
      case PrepareObject(_, _, _, _, _) => LeaseCommandKeeps(s, c);
      case ExpirePreparedObjects(_) => LeaseCommandKeeps(s, c);
      case CommitStreamSetObject(n, e, req, now) => CommitKeeps(s, n, e, req, now);
      case CompactStreamObject(n, e, req, now) => CompactKeeps(s, n, e, req, now);
      case CleanDestroyedObjects(ids) => CleanAllKeeps(s.destroyed, ids);
      case PutKv(_, _) =>
      case PutKvIfAbsent(_, _) =>
      case DeleteKv(_) =>
      case _ =>
        StreamCommandFrame(s, c);
        StreamCommandExact(s, c);
    }
  }

  lemma BestNodeUnique(s: MetadataState, a: NodeId, b: NodeId)
    requires IsBestNode(s, a) && IsBestNode(s, b)
    ensures a == b
  {
    assert Preferred(s, a, b) && Preferred(s, b, a);
  }

  /** One command keeps every index exact if and only if it does not place a stream on node -1. */
  lemma StepExactIff(s: MetadataState, c: Command)
    requires Inv(s)
    ensures Inv(Step(s, c)) <==> !PlacesOnSentinel(s, c)
  {
    if PlacesOnSentinel(s, c) {
      assert HasBestNode(s);
      BestNodeUnique(s, BestNode(s), UNPLACED);
      var t := Step(s, c).streams;
      assert (UNPLACED, c.streamId) in t.placedByNode;
      assert !IsPlacedOn(t.rows, (UNPLACED, c.streamId));
    } else {
      StepKeeps(s, c);
    }
  }

  /** Only registration writes the node table. */
  lemma NodesWrittenByRegister(s: MetadataState, c: Command)
    ensures !c.RegisterNode? ==> Step(s, c).nodes == s.nodes
  {
    if c.CommitStreamSetObject? && ApplyCommand(s, c).Ok? {
      CommitFrame(s, c.nodeId, c.nodeEpoch, c.commit, c.nowMs);
    }
  }

  lemma {:induction false} CommitObjectsFrame(
      s: MetadataState, objects: seq<StreamObject>, compact: bool, dataMs: int, nowMs: int)
    ensures
      var r := CommitObjects(s, objects, compact, dataMs, nowMs);
      r.Success? ==>
        r.value == s.(streams := s.streams.(rows := r.value.streams.rows), leases := r.value.leases,
                      objects := r.value.objects)
  {
    if objects != [] {
      CommitObjectsFrame(s, objects[..|objects| - 1], compact, dataMs, nowMs);
    }
  }

  /** A commit writes rows, leases, both object tables and the queue, and nothing else. */
  lemma CommitFrame(s: MetadataState, nodeId: NodeId, nodeEpoch: int, req: CommitRequest, nowMs: int)
    requires DoCommit(s, nodeId, nodeEpoch, req, nowMs).Ok?
    ensures
      var t := DoCommit(s, nodeId, nodeEpoch, req, nowMs).state;
      && t.nodes == s.nodes && t.kv == s.kv && t.streams == s.streams.(rows := t.streams.rows)
      && t.destroyed == MarkAll(s.destroyed, req.compactedIds, Deletes(|req.compactedIds|))
  {
    var compact := req.compactedIds != [];
    var dataMs := DataTime(s.sets, req.compactedIds, nowMs);
    var inserted := CommitSetIfAny(DropCompacted(s, req.compactedIds), nodeId, req, compact, dataMs, nowMs).value;
    CommitObjectsFrame(inserted, req.streamObjects, compact, dataMs, nowMs);
  }

  /** In every state any command sequence can reach, all seven indexes are exact. */
  lemma {:induction false} IndexesExactOnEveryRun(commands: seq<Command>)
    requires forall c :: c in commands ==> Registrable(c)
    ensures Inv(Run(EMPTY_STATE, commands)) && UNPLACED !in Run(EMPTY_STATE, commands).nodes
  {
    if commands != [] {
      var n := |commands| - 1;
      var s := Run(EMPTY_STATE, commands[..n]);
      assert commands[n] in commands;
      IndexesExactOnEveryRun(commands[..n]);
      StepKeeps(s, commands[n]);
      NodesWrittenByRegister(s, commands[n]);
    }
  }

  /** Without that restriction three commands from the empty state leave `placedByNode` inexact. */
  lemma SentinelNodeBreaksIndex()
    ensures
      var run := [RegisterNode(UNPLACED, 0, [], 1), CreateStream(UNPLACED, 0), PlaceStream(0)];
      !PlacedExact(Run(EMPTY_STATE, run).streams)
  {
    var c0, c1, c2 := RegisterNode(UNPLACED, 0, [], 1), CreateStream(UNPLACED, 0), PlaceStream(0);
    var run := [c0, c1, c2];
    var s1 := Step(EMPTY_STATE, c0);
    var s2 := Step(s1, c1);
    assert run[..2] == [c0, c1] && [c0, c1][..1] == [c0];
    assert Run(EMPTY_STATE, [c0]) == s1;
    assert Run(EMPTY_STATE, [c0, c1]) == s2;
    assert IsBestNode(s2, UNPLACED);
    BestNodeUnique(s2, BestNode(s2), UNPLACED);
    var s3 := Step(s2, c2);
    assert Run(EMPTY_STATE, run) == s3;
    assert (UNPLACED, 0) in s3.streams.placedByNode && !IsPlacedOn(s3.streams.rows, (UNPLACED, 0));
  }
}
