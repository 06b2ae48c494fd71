/** The in-place state machine: handlers that update the tables step by step refine the specification. */
module Machine {
  import opened Bytes
  import opened Metadata
  import opened Apply
  import Indexes

  lemma PrefixStep<T>(xs: seq<T>, i: nat)
    requires i < |xs|
    ensures xs[..i + 1][..i] == xs[..i] && xs[..i + 1][i] == xs[i]
  {
  }

  lemma MarkAllStep(q: DestroyedQueue, ids: seq<nat>, ops: seq<CompactOp>, i: nat)
    requires |ids| == |ops| && i < |ids|
    ensures MarkAll(q, ids[..i + 1], ops[..i + 1]) == Mark(MarkAll(q, ids[..i], ops[..i]), ids[i], ops[i])
  {
    PrefixStep(ids, i);
    PrefixStep(ops, i);
  }

  /** The first `n` new ids have fresh rows; every other row is as it was. */
  ghost predicate FreshUpTo(t: StreamTable, rows: map<nat, StreamRow>, n: nat) {
    && (forall id :: id in rows <==> id in t.rows || InRange(t.nextId, n, id))
    && forall id | id in rows :: rows[id] == if InRange(t.nextId, n, id) then FreshRow(id) else t.rows[id]
  }

  lemma FreshUpToStep(t: StreamTable, rows: map<nat, StreamRow>, n: nat)
    requires FreshUpTo(t, rows, n)
    ensures FreshUpTo(t, rows[t.nextId + n := FreshRow(t.nextId + n)], n + 1)
  {
    assert forall id: nat :: InRange(t.nextId, n + 1, id) <==> InRange(t.nextId, n, id) || id == t.nextId + n;
  }

  lemma FreshUpToAll(t: StreamTable, rows: map<nat, StreamRow>, n: nat)
    requires FreshUpTo(t, rows, n)
    ensures rows == CreateRange(t, n).rows
  {
  }

  /** The first `n` new ids are leased, in the map and the deadline index; everything else is as it was. */
  ghost predicate LeasedUpTo(t: LeaseTable, u: LeaseTable, n: nat, deadline: int) {
    && (forall id :: id in u.prepared <==> id in t.prepared || InRange(t.nextId, n, id))
    && (forall id | id in u.prepared :: u.prepared[id] == if InRange(t.nextId, n, id) then deadline else t.prepared[id])
    && forall e :: e in u.byDeadline <==> e in t.byDeadline || (e.0 == deadline && InRange(t.nextId, n, e.1))
  }

  lemma LeasedUpToStep(t: LeaseTable, u: LeaseTable, n: nat, deadline: int)
    requires LeasedUpTo(t, u, n, deadline)
    ensures
      var id := t.nextId + n;
      LeasedUpTo(t, u.(prepared := u.prepared[id := deadline], byDeadline := u.byDeadline + {(deadline, id)}),
                 n + 1, deadline)
  {
    assert forall id: nat :: InRange(t.nextId, n + 1, id) <==> InRange(t.nextId, n, id) || id == t.nextId + n;
  }

  /** The table the specification gives after leasing `count` ids. */
  function Leased(t: LeaseTable, count: nat, deadline: int): LeaseTable {
    var ids := IdRange(t.nextId, count);
    LeaseTable(t.nextId + count, t.prepared + (map id | id in ids :: deadline),
               t.byDeadline + (set id | id in ids :: (deadline, id)))
  }

  lemma LeasedUpToAll(t: LeaseTable, u: LeaseTable, n: nat, deadline: int)
    requires LeasedUpTo(t, u, n, deadline) && u.nextId == t.nextId + n
    ensures u == Leased(t, n, deadline)
  {
    assert u.prepared == Leased(t, n, deadline).prepared;
    assert u.byDeadline == Leased(t, n, deadline).byDeadline;
  }

  /** The data timestamp of a compaction is the earliest of now and what it replaces. */
  lemma {:induction false} DataTimeIsEarliest(t: SetTable, ids: seq<nat>, nowMs: int)
    requires forall id | id in ids :: id in t.rows
    ensures DataTime(t, ids, nowMs) <= nowMs
    ensures forall id | id in ids :: DataTime(t, ids, nowMs) <= t.rows[id].meta.dataMs
    ensures DataTime(t, ids, nowMs) == nowMs
            || exists id :: id in ids && t.rows[id].meta.dataMs == DataTime(t, ids, nowMs)
  {
    if ids != [] {
      var n := |ids| - 1;
      assert ids == ids[..n] + [ids[n]];
      DataTimeIsEarliest(t, ids[..n], nowMs);
      assert ids[n] in ids;
    }
  }

  function KeySet(keys: seq<OffsetKey>): set<OffsetKey> {
    set k | k in keys
  }

  lemma DropKeysStep(t: ObjectTable, keys: seq<OffsetKey>, i: nat)
    requires i < |keys|
    ensures DropKeys(t, {}) == t
    ensures
      var u := DropKeys(t, KeySet(keys[..i]));
      DropKeys(t, KeySet(keys[..i + 1])) == ObjectTable(u.rows - {keys[i]}, u.ids - {keys[i].objectId})
  {
    assert keys[..i + 1] == keys[..i] + [keys[i]];
    assert KeySet(keys[..i + 1]) == KeySet(keys[..i]) + {keys[i]};
    var u, v := DropKeys(t, KeySet(keys[..i])), DropKeys(t, KeySet(keys[..i + 1]));
    assert v.rows == u.rows - {keys[i]};
    assert v.ids == u.ids - {keys[i].objectId};
    assert DropKeys(t, {}).rows == t.rows && DropKeys(t, {}).ids == t.ids;
  }

  lemma RangeKeysStep(ranges: seq<OffsetRange>, id: nat, i: nat)
    requires i < |ranges|
    ensures RangeKeys(ranges[..i + 1], id)
            == RangeKeys(ranges[..i], id) + {OffsetKey(ranges[i].streamId, ranges[i].startOffset, id)}
  {
    assert ranges[..i + 1] == ranges[..i] + [ranges[i]];
  }

  /** The first failing range decides the whole fold. */
  lemma {:induction false} AdvanceFails(
      rows: map<nat, StreamRow>, ranges: seq<ObjectStreamRange>, compact: bool, i: nat)
    requires i <= |ranges| && AdvanceAll(rows, ranges[..i], compact).Failure?
    ensures AdvanceAll(rows, ranges, compact) == AdvanceAll(rows, ranges[..i], compact)
    decreases |ranges|
  {
    if i < |ranges| {
      var n := |ranges| - 1;
      assert ranges[..n][..i] == ranges[..i];
      AdvanceFails(rows, ranges[..n], compact, i);
    } else {
      assert ranges[..i] == ranges;
    }
  }

  lemma CommitObjectsStep(s: MetadataState, os: seq<StreamObject>, compact: bool, dataMs: int, nowMs: int, i: nat)
    requires i < |os| && CommitObjects(s, os[..i], compact, dataMs, nowMs).Success?
    ensures CommitObjects(s, os[..i + 1], compact, dataMs, nowMs)
            == CommitObject(CommitObjects(s, os[..i], compact, dataMs, nowMs).value, os[i], compact, dataMs, nowMs)
  {
    PrefixStep(os, i);
  }

  lemma {:induction false} CommitObjectsFail(
      s: MetadataState, os: seq<StreamObject>, compact: bool, dataMs: int, nowMs: int, i: nat)
    requires i <= |os| && CommitObjects(s, os[..i], compact, dataMs, nowMs).Failure?
    ensures CommitObjects(s, os, compact, dataMs, nowMs) == CommitObjects(s, os[..i], compact, dataMs, nowMs)
    decreases |os|
  {
    if i < |os| {
      var n := |os| - 1;
      assert os[..n][..i] == os[..i];
      CommitObjectsFail(s, os[..n], compact, dataMs, nowMs, i);
    } else {
      assert os[..i] == os;
    }
  }

  class StateMachine {
    var streams: StreamTable
    var nodes: map<NodeId, NodeRow>
    var leases: LeaseTable
    var sets: SetTable
    var objects: ObjectTable
    var destroyed: DestroyedQueue
    var kv: map<Utf8, seq<byte>>

    constructor ()
      ensures View() == EMPTY_STATE
    {
      streams := StreamTable(0, map[], {}, {}, map[]);
      nodes, leases := map[], LeaseTable(0, map[], {});
      sets, objects := SetTable(map[], map[], {}), ObjectTable(map[], map[]);
      destroyed, kv := DestroyedQueue(map[], map[], 0), map[];
    }

    function View(): MetadataState
      reads this
    {
      MetadataState(streams, nodes, leases, sets, objects, destroyed, kv)
    }

    method Assign(s: MetadataState)
      modifies this
      ensures View() == s
    {
      streams, nodes, leases, sets := s.streams, s.nodes, s.leases, s.sets;
      objects, destroyed, kv := s.objects, s.destroyed, s.kv;
    }

    // ---- nodes and entries ----

    method RegisterNode(nodeId: NodeId, nodeEpoch: int, address: Utf8, slots: nat) returns (r: Reply)
      modifies `nodes
      ensures r == ReplyOf(DoRegisterNode(old(View()), nodeId, nodeEpoch, address, slots))
      ensures r.Success? ==> View() == DoRegisterNode(old(View()), nodeId, nodeEpoch, address, slots).state
    {
      var kept := address;
      if nodeId in nodes {
        if nodes[nodeId].epoch > nodeEpoch { return Failure(NodeEpochMismatch(nodeId)); }
        if address == [] {
          kept := nodes[nodeId].httpAddress;
        }
      }
      nodes := nodes[nodeId := NodeRow(nodeId, nodeEpoch, kept, slots)];
      return Success(Unit);
    }

    method PutKv(key: Utf8, value: seq<byte>) returns (r: Reply)
      modifies `kv
      ensures r == ReplyOf(DoPutKv(old(View()), key, value)) && View() == DoPutKv(old(View()), key, value).state
    {
      kv := kv[key := value];
      return Success(Value(Some(value)));
    }

    method PutKvIfAbsent(key: Utf8, value: seq<byte>) returns (r: Reply)
      modifies `kv
      ensures r == ReplyOf(DoPutKvIfAbsent(old(View()), key, value))
      ensures View() == DoPutKvIfAbsent(old(View()), key, value).state
    {
      if key in kv { return Success(Value(Some(kv[key]))); }
      kv := kv[key := value];
      return Success(Value(Some(value)));
    }

    method DeleteKv(key: Utf8) returns (r: Reply)
      modifies `kv
      ensures r == ReplyOf(DoDeleteKv(old(View()), key)) && View() == DoDeleteKv(old(View()), key).state
    {
      var removed := if key in kv then Some(kv[key]) else None;
      kv := kv - {key};
      return Success(Value(removed));
    }

    // ---- streams ----

    method CreateStream(nodeId: NodeId, nodeEpoch: int) returns (r: Reply)
      modifies `streams
      ensures r == ReplyOf(DoCreateStream(old(View()), nodeId, nodeEpoch))
      ensures r.Success? ==> View() == DoCreateStream(old(View()), nodeId, nodeEpoch).state
    {
      if !NodeAdmitted(View(), nodeId, nodeEpoch) { return Failure(NodeEpochMismatch(nodeId)); }
      var before, id := streams, streams.nextId;
      streams := streams.(nextId := id + 1);
      streams := streams.(rows := streams.rows[id := FreshRow(id)]);
      FreshUpToStep(before, before.rows, 0);
      FreshUpToAll(before, streams.rows, 1);
      return Success(Id(id));
    }

    method CreateStreams(nodeId: NodeId, nodeEpoch: int, count: nat) returns (r: Reply)
      modifies `streams
      ensures r == ReplyOf(DoCreateStreams(old(View()), nodeId, nodeEpoch, count))
      ensures r.Success? ==> View() == DoCreateStreams(old(View()), nodeId, nodeEpoch, count).state
    {
      if !NodeAdmitted(View(), nodeId, nodeEpoch) { return Failure(NodeEpochMismatch(nodeId)); }
      if count == 0 || count > MAX_CREATE_STREAMS { return Failure(Unexpected); }
      var first := streams.nextId;
      InsertFresh(count);
      return Success(Id(first));
    }

    method InsertFresh(count: nat)
      modifies `streams
      ensures streams == CreateRange(old(streams), count)
    {
      var first, i: nat := streams.nextId, 0;
      ghost var before := streams;
      while i < count
        invariant i <= count && streams == before.(rows := streams.rows) && FreshUpTo(before, streams.rows, i)
      {
        FreshUpToStep(before, streams.rows, i);
        streams := streams.(rows := streams.rows[first + i := FreshRow(first + i)]);
        i := i + 1;
      }
      FreshUpToAll(before, streams.rows, count);
      streams := streams.(nextId := first + count);
    }

    /** One pass over the nodes, in any order, keeping the best so far. */
    method PickNode() returns (winner: Option<NodeId>)
      ensures winner.Some? ==> IsBestNode(View(), winner.value)
      ensures winner.None? ==> !HasBestNode(View())
    {
      winner := None;
      var left, best := nodes.Keys, 0;
      while left != {}
        invariant left <= nodes.Keys
        invariant winner.None? ==> forall n | n in nodes && n !in left :: !Eligible(nodes, n)
        invariant winner.Some? ==> Eligible(nodes, winner.value) && best == Score(View(), winner.value)
        invariant winner.Some? ==>
                    forall n | n in nodes && n !in left && Eligible(nodes, n) :: Preferred(View(), winner.value, n)
        decreases |left|
      {
        var n :| n in left;
        left := left - {n};
        if nodes[n].slots >= 1 {
          var score := Load(streams, n) * 1000 / nodes[n].slots;
          if winner.None? || score < best || (score == best && n < winner.value) {
            winner, best := Some(n), score;
          }
        }
      }
    }

    method OpenStream(nodeId: NodeId, nodeEpoch: int, streamId: nat, epoch: int) returns (r: Reply)
      modifies `streams
      ensures r == ReplyOf(DoOpenStream(old(View()), nodeId, nodeEpoch, streamId, epoch))
      ensures r.Success? ==> View() == DoOpenStream(old(View()), nodeId, nodeEpoch, streamId, epoch).state
    {
      if !NodeAdmitted(View(), nodeId, nodeEpoch) { return Failure(NodeEpochMismatch(nodeId)); }
      if streamId !in streams.rows { return Failure(StreamNotExist(streamId)); }
      var row := streams.rows[streamId];
      if row.epoch > epoch { return Failure(StreamFenced(streamId, epoch)); }
      if row.epoch == epoch {
        if row.state == Opened && row.nodeId == nodeId { return Success(Stream(ToStreamMetadata(row))); }
        return Failure(StreamFenced(streamId, epoch));
      }
      if row.state == Opened { return Failure(StreamNotClosed(streamId)); }
      var next := row.(epoch := epoch, state := Opened, nodeId := nodeId);
      streams := streams.(placedByNode := streams.placedByNode - {(row.nodeId, streamId)});
      streams := streams.(rows := streams.rows[streamId := next]);
      streams := streams.(openingByNode := streams.openingByNode + {(nodeId, streamId)});
      return Success(Stream(ToStreamMetadata(next)));
    }

    method TrimStream(nodeId: NodeId, nodeEpoch: int, streamId: nat, epoch: int, newStart: nat) returns (r: Reply)
      modifies `streams
      ensures r == ReplyOf(DoTrimStream(old(View()), nodeId, nodeEpoch, streamId, epoch, newStart))
      ensures r.Success? ==> View() == DoTrimStream(old(View()), nodeId, nodeEpoch, streamId, epoch, newStart).state
    {
      if !NodeAdmitted(View(), nodeId, nodeEpoch) { return Failure(NodeEpochMismatch(nodeId)); }
      if streamId !in streams.rows { return Failure(StreamNotExist(streamId)); }
      var row := streams.rows[streamId];
      if row.state != Opened { return Failure(Unexpected); }
      if row.epoch != epoch { return Failure(ExpiredEpoch(streamId, epoch)); }
      if newStart < row.startOffset || newStart > row.endOffset { return Failure(Unexpected); }
      streams := streams.(rows := streams.rows[streamId := row.(startOffset := newStart)]);
      return Success(Unit);
    }

    method CloseStream(nodeId: NodeId, nodeEpoch: int, streamId: nat, epoch: int) returns (r: Reply)
      modifies `streams
      ensures r == ReplyOf(DoCloseStream(old(View()), nodeId, nodeEpoch, streamId, epoch))
      ensures r.Success? ==> View() == DoCloseStream(old(View()), nodeId, nodeEpoch, streamId, epoch).state
    {
      if !NodeAdmitted(View(), nodeId, nodeEpoch) { return Failure(NodeEpochMismatch(nodeId)); }
      if streamId !in streams.rows { return Failure(StreamNotExist(streamId)); }
      var row := streams.rows[streamId];
      if row.state == Closed && row.epoch == epoch { return Success(Unit); }
      if row.state != Opened { return Failure(Unexpected); }
      if row.epoch != epoch { return Failure(ExpiredEpoch(streamId, epoch)); }
      streams := streams.(rows := streams.rows[streamId := row.(state := Closed)]);
      streams := streams.(openingByNode := streams.openingByNode - {(row.nodeId, streamId)});
      return Success(Unit);
    }

    method TransferStream(streamId: nat, fromNode: NodeId, toNode: NodeId) returns (r: Reply)
      modifies `streams
      ensures r == ReplyOf(DoTransferStream(old(View()), streamId, fromNode, toNode))
      ensures r.Success? ==> View() == DoTransferStream(old(View()), streamId, fromNode, toNode).state
    {
      if streamId !in streams.rows { return Failure(StreamNotExist(streamId)); }
      var row := streams.rows[streamId];
      if streamId in streams.transfers {
        if streams.transfers[streamId] == PendingTransfer(fromNode, toNode) { return Success(Unit); }
        return Failure(Unexpected);
      }
      if fromNode == toNode { return Failure(Unexpected); }
      if !Eligible(nodes, toNode) { return Failure(NodeEpochMismatch(toNode)); }
      if row.state != Opened || row.nodeId != fromNode { return Failure(Unexpected); }
      streams := streams.(transfers := streams.transfers[streamId := PendingTransfer(fromNode, toNode)]);
      return Success(Unit);
    }

    method CompleteTransfer(streamId: nat, epoch: int) returns (r: Reply)
      modifies `streams
      ensures r == ReplyOf(DoCompleteTransfer(old(View()), streamId, epoch))
      ensures r.Success? ==> View() == DoCompleteTransfer(old(View()), streamId, epoch).state
    {
      if streamId !in streams.transfers { return Failure(Redundant); }
      if streamId !in streams.rows { return Failure(StreamNotExist(streamId)); }
      var pending, row := streams.transfers[streamId], streams.rows[streamId];
      if row.state != Closed { return Failure(StreamNotClosed(streamId)); }
      if row.epoch != epoch { return Failure(ExpiredEpoch(streamId, epoch)); }
      streams := streams.(rows := streams.rows[streamId := row.(nodeId := pending.toNode)]);
      streams := streams.(transfers := streams.transfers - {streamId});
      return Success(Unit);
    }

    method PlaceStream(streamId: nat) returns (r: Reply)
      modifies `streams
      ensures r == ReplyOf(DoPlaceStream(old(View()), streamId))
      ensures r.Success? ==> View() == DoPlaceStream(old(View()), streamId).state
    {
      if streamId !in streams.rows { return Failure(StreamNotExist(streamId)); }
      var row := streams.rows[streamId];
      if row.nodeId != UNPLACED { return Success(Id(NodeAsId(row.nodeId))); }
      if row.state != Closed || row.epoch != NEVER_OPENED { return Failure(Unexpected); }
      var winner := PickNode();
      if winner.None? { return Failure(NodeEpochMismatch(UNPLACED)); }
      Indexes.BestNodeUnique(View(), BestNode(View()), winner.value);
      streams := streams.(rows := streams.rows[streamId := row.(nodeId := winner.value)],
                          placedByNode := streams.placedByNode + {(winner.value, streamId)});
      return Success(Id(NodeAsId(winner.value)));
    }

    // ---- destroyed-object queue ----

    method MarkDestroyed(id: nat, op: CompactOp)
      modifies `destroyed
      ensures destroyed == Mark(old(destroyed), id, op)
    {
      if id in destroyed.byId {
        destroyed := destroyed.(marked := destroyed.marked[destroyed.byId[id] := Destroyed(id, op)]);
      } else {
        var q := destroyed.nextSeq;
        destroyed := destroyed.(nextSeq := q + 1);
        destroyed := destroyed.(marked := destroyed.marked[q := Destroyed(id, op)]);
        destroyed := destroyed.(byId := destroyed.byId[id := q]);
      }
    }

    method MarkDestroyAll(ids: seq<nat>, ops: seq<CompactOp>)
      requires |ops| == |ids|
      modifies `destroyed
      ensures destroyed == MarkAll(old(destroyed), ids, ops)
    {
      var i := 0;
      while i < |ids|
        invariant i <= |ids| && destroyed == MarkAll(old(destroyed), ids[..i], ops[..i])
      {
        MarkDestroyed(ids[i], ops[i]);
        MarkAllStep(old(destroyed), ids, ops, i);
        i := i + 1;
      }
      assert ids[..i] == ids && ops[..i] == ops;
    }

    method CleanDestroyed(ids: seq<nat>) returns (r: Reply)
      modifies `destroyed
      ensures r == Success(Unit) && destroyed == CleanAll(old(destroyed), ids)
    {
      var i := 0;
      while i < |ids|
        invariant i <= |ids| && destroyed == CleanAll(old(destroyed), ids[..i])
      {
        if ids[i] in destroyed.byId {
          var q := destroyed.byId[ids[i]];
          destroyed := destroyed.(byId := destroyed.byId - {ids[i]});
          destroyed := destroyed.(marked := destroyed.marked - {q});
        }
        PrefixStep(ids, i);
        i := i + 1;
      }
      assert ids[..i] == ids;
      r := Success(Unit);
    }

    /** The stream's rows go first; then each of its objects is dropped and queued, in key order. */
    method DeleteStream(nodeId: NodeId, nodeEpoch: int, streamId: nat, epoch: int) returns (r: Reply)
      modifies `streams, `objects, `destroyed
      ensures r == ReplyOf(DoDeleteStream(old(View()), nodeId, nodeEpoch, streamId, epoch))
      ensures r.Success? ==> View() == DoDeleteStream(old(View()), nodeId, nodeEpoch, streamId, epoch).state
    {
      if !NodeAdmitted(View(), nodeId, nodeEpoch) { return Failure(NodeEpochMismatch(nodeId)); }
      if streamId !in streams.rows { return Success(Unit); }
      if streams.rows[streamId].state != Closed { return Failure(StreamNotClosed(streamId)); }
      if streams.rows[streamId].epoch != epoch { return Failure(ExpiredEpoch(streamId, epoch)); }
      RemoveRow(streamId);
      var keys := AscendingKeys(KeysOfStream(objects, streamId));
      assert KeySet(keys) == KeysOfStream(objects, streamId);
      DropObjects(keys);
      return Success(Unit);
    }

    method RemoveRow(streamId: nat)
      modifies `streams
      ensures streams == DropStream(old(streams), streamId)
    {
      streams := streams.(rows := streams.rows - {streamId});
      streams := streams.(placedByNode := (set e | e in streams.placedByNode && e.1 != streamId));
      streams := streams.(transfers := streams.transfers - {streamId});
    }

    method DropObjects(keys: seq<OffsetKey>)
      modifies `objects, `destroyed
      ensures objects == DropKeys(old(objects), KeySet(keys))
      ensures destroyed == MarkAll(old(destroyed), IdsOf(keys), Deletes(|keys|))
    {
      var i := 0;
      assert KeySet(keys[..0]) == {};
      if keys != [] { DropKeysStep(objects, keys, 0); }
      while i < |keys|
        invariant i <= |keys| && objects == DropKeys(old(objects), KeySet(keys[..i]))
        invariant destroyed == MarkAll(old(destroyed), IdsOf(keys)[..i], Deletes(|keys|)[..i])
      {
        DropKeysStep(old(objects), keys, i);
        MarkAllStep(old(destroyed), IdsOf(keys), Deletes(|keys|), i);
        objects := objects.(rows := objects.rows - {keys[i]});
        objects := objects.(ids := objects.ids - {keys[i].objectId});
        MarkDestroyed(keys[i].objectId, Delete);
        i := i + 1;
      }
      assert keys[..i] == keys && IdsOf(keys)[..i] == IdsOf(keys) && Deletes(|keys|)[..i] == Deletes(|keys|);
    }

    // ---- leases ----

    method PrepareObject(nodeId: NodeId, nodeEpoch: int, count: nat, ttlMs: int, nowMs: int) returns (r: Reply)
      modifies `leases
      ensures r == ReplyOf(DoPrepareObject(old(View()), nodeId, nodeEpoch, count, ttlMs, nowMs))
      ensures r.Success? ==> View() == DoPrepareObject(old(View()), nodeId, nodeEpoch, count, ttlMs, nowMs).state
    {
      if !NodeAdmitted(View(), nodeId, nodeEpoch) { return Failure(NodeEpochMismatch(nodeId)); }
      if count == 0 { return Failure(Unexpected); }
      var first := leases.nextId;
      Grant(count, nowMs + Clamp(ttlMs));
      return Success(Id(first));
    }

    method Grant(count: nat, deadline: int)
      modifies `leases
      ensures leases == Leased(old(leases), count, deadline)
    {
      ghost var before := leases;
      var first, i: nat := leases.nextId, 0;
      leases := leases.(nextId := first + count);
      while i < count
        invariant i <= count && leases.nextId == first + count && LeasedUpTo(before, leases, i, deadline)
      {
        LeasedUpToStep(before, leases, i, deadline);
        leases := leases.(prepared := leases.prepared[first + i := deadline]);
        leases := leases.(byDeadline := leases.byDeadline + {(deadline, first + i)});
        i := i + 1;
      }
      LeasedUpToAll(before, leases, count, deadline);
    }

    method Expire(nowMs: int) returns (r: Reply)
      modifies `leases
      ensures r == ReplyOf(DoExpire(old(View()), nowMs)) && View() == DoExpire(old(View()), nowMs).state
    {
      var expired := Expired(leases, nowMs);
      var left := expired;
      while left != {}
        invariant left <= expired && leases.nextId == old(leases).nextId
        invariant leases.byDeadline == old(leases).byDeadline - (expired - left)
        invariant leases.prepared == old(leases).prepared - (set e | e in expired - left :: e.1)
        decreases |left|
      {
        var e :| e in left;
        leases := leases.(byDeadline := leases.byDeadline - {e}, prepared := leases.prepared - {e.1});
        assert expired - (left - {e}) == (expired - left) + {e};
        left := left - {e};
      }
      assert expired - left == expired;
      r := Success(Count(|expired|));
    }

    // ---- commits ----

    method CommitLease(id: nat)
      modifies `leases
      ensures leases == CommitPrepared(old(leases), id)
    {
      if id in leases.prepared {
        var deadline := leases.prepared[id];
        leases := leases.(prepared := leases.prepared - {id});
        leases := leases.(byDeadline := leases.byDeadline - {(deadline, id)});
      }
    }

    /** Returns the error, if any; rows advanced before it stay advanced. */
    method AdvanceRanges(ranges: seq<ObjectStreamRange>, compact: bool) returns (error: Option<MetadataError>)
      modifies `streams
      ensures error.None? ==> AdvanceAll(old(streams).rows, ranges, compact) == Success(streams.rows)
      ensures error.Some? ==> AdvanceAll(old(streams).rows, ranges, compact) == Failure(error.value)
      ensures streams == old(streams).(rows := streams.rows)
    {
      var i := 0;
      while i < |ranges|
        invariant i <= |ranges| && streams == old(streams).(rows := streams.rows)
        invariant AdvanceAll(old(streams).rows, ranges[..i], compact) == Success(streams.rows)
      {
        var next := Advance(streams.rows, ranges[i].streamId, ranges[i].startOffset, ranges[i].endOffset, compact);
        PrefixStep(ranges, i);
        if next.Failure? {
          AdvanceFails(old(streams).rows, ranges, compact, i + 1);
          return Some(next.error);
        }
        streams := streams.(rows := next.value);
        i := i + 1;
      }
      assert ranges[..i] == ranges;
      return None;
    }

    method RemoveStreamSet(id: nat)
      modifies `sets
      ensures sets == RemoveSet(old(sets), id)
    {
      if id in sets.rows {
        var row, i := sets.rows[id], 0;
        sets := sets.(rows := sets.rows - {id});
        while i < |row.meta.ranges|
          invariant i <= |row.meta.ranges|
          invariant sets == old(sets).(rows := old(sets).rows - {id},
                                       ranges := old(sets).ranges - RangeKeys(row.meta.ranges[..i], id))
        {
          var r := row.meta.ranges[i];
          RangeKeysStep(row.meta.ranges, id, i);
          sets := sets.(ranges := sets.ranges - {OffsetKey(r.streamId, r.startOffset, id)});
          i := i + 1;
        }
        assert row.meta.ranges[..i] == row.meta.ranges;
        sets := sets.(byNode := sets.byNode - {(row.nodeId, id)});
      }
    }

    /** Each compacted object leaves its table and enters the cleanup queue. */
    method RetireSets(ids: seq<nat>)
      modifies `sets, `destroyed
      ensures sets == RemoveSets(old(sets), ids)
      ensures destroyed == MarkAll(old(destroyed), ids, Deletes(|ids|))
    {
      var i := 0;
      while i < |ids|
        invariant i <= |ids| && sets == RemoveSets(old(sets), ids[..i])
        invariant destroyed == MarkAll(old(destroyed), ids[..i], Deletes(|ids|)[..i])
      {
        MarkAllStep(old(destroyed), ids, Deletes(|ids|), i);
        RemoveStreamSet(ids[i]);
        MarkDestroyed(ids[i], Delete);
        PrefixStep(ids, i);
        i := i + 1;
      }
      assert ids[..i] == ids && Deletes(|ids|)[..i] == Deletes(|ids|);
    }

    /** The earliest data timestamp of the compacted objects, or none when one is missing. */
    method EarliestData(ids: seq<nat>, nowMs: int) returns (dataMs: Option<int>)
      ensures dataMs.Some? <==> forall id | id in ids :: id in sets.rows
      ensures dataMs.Some? ==> dataMs.value == DataTime(sets, ids, nowMs)
    {
      var i, earliest := 0, nowMs;
      while i < |ids|
        invariant i <= |ids| && (forall id | id in ids[..i] :: id in sets.rows)
        invariant earliest == DataTime(sets, ids[..i], nowMs)
      {
        if ids[i] !in sets.rows {
          assert ids[i] in ids;
          return None;
        }
        PrefixStep(ids, i);
        assert ids[..i + 1] == ids[..i] + [ids[i]];
        earliest := Min(earliest, sets.rows[ids[i]].meta.dataMs);
        i := i + 1;
      }
      assert ids[..i] == ids;
      return Some(earliest);
    }

    method InsertRanges(ranges: seq<OffsetRange>, id: nat)
      modifies `sets
      ensures sets == old(sets).(ranges := IndexRanges(old(sets).ranges, ranges, id))
    {
      var i := 0;
      while i < |ranges|
        invariant i <= |ranges| && sets == old(sets).(ranges := IndexRanges(old(sets).ranges, ranges[..i], id))
      {
        var r := ranges[i];
        sets := sets.(ranges := sets.ranges[OffsetKey(r.streamId, r.startOffset, id) := r.endOffset]);
        PrefixStep(ranges, i);
        i := i + 1;
      }
      assert ranges[..i] == ranges;
    }

    /** Registers the stream-set object of a commit. */
    method AddStreamSet(nodeId: NodeId, req: CommitRequest, compact: bool, dataMs: int, nowMs: int)
        returns (error: Option<MetadataError>)
      modifies `streams, `leases, `sets
      ensures error.None? ==> CommitSet(old(View()), nodeId, req, compact, dataMs, nowMs) == Success(View())
      ensures error.Some? ==> CommitSet(old(View()), nodeId, req, compact, dataMs, nowMs) == Failure(error.value)
    {
      if !IdFree(sets, objects, req.objectId, None) { return Some(Unexpected); }
      CommitLease(req.objectId);
      error := AdvanceRanges(req.streamRanges, compact);
      if error.Some? { return; }
      var meta := SetMeta(req, dataMs, nowMs);
      InsertRanges(meta.ranges, req.objectId);
      sets := sets.(byNode := sets.byNode + {(nodeId, req.objectId)});
      sets := sets.(rows := sets.rows[req.objectId := StreamSetRow(nodeId, meta)]);
    }

    method AddStreamObject(o: StreamObject, dataMs: int, nowMs: int)
      modifies `objects
      ensures objects == AddObject(old(objects), o, dataMs, nowMs)
    {
      var meta := ObjectMeta(o.objectId, SingleStream, [OffsetRange(o.streamId, o.startOffset, o.endOffset)],
                             o.size, o.attributes, nowMs, dataMs);
      objects := objects.(rows := objects.rows[KeyOf(o) := meta]);
      objects := objects.(ids := objects.ids[o.objectId := KeyOf(o)]);
    }

    method CommitOne(o: StreamObject, compact: bool, dataMs: int, nowMs: int) returns (error: Option<MetadataError>)
      modifies `streams, `leases, `objects
      ensures error.None? ==> CommitObject(old(View()), o, compact, dataMs, nowMs) == Success(View())
      ensures error.Some? ==> CommitObject(old(View()), o, compact, dataMs, nowMs) == Failure(error.value)
    {
      if !IdFree(sets, objects, o.objectId, Some(KeyOf(o))) { return Some(Unexpected); }
      CommitLease(o.objectId);
      var rows := Advance(streams.rows, o.streamId, o.startOffset, o.endOffset, compact);
      if rows.Failure? { return Some(rows.error); }
      streams := streams.(rows := rows.value);
      AddStreamObject(o, dataMs, nowMs);
      return None;
    }

    method CommitEach(os: seq<StreamObject>, compact: bool, dataMs: int, nowMs: int)
      returns (error: Option<MetadataError>)
      modifies `streams, `leases, `objects
      ensures error.None? ==> CommitObjects(old(View()), os, compact, dataMs, nowMs) == Success(View())
      ensures error.Some? ==> CommitObjects(old(View()), os, compact, dataMs, nowMs) == Failure(error.value)
    {
      var i := 0;
      while i < |os|
        invariant i <= |os| && CommitObjects(old(View()), os[..i], compact, dataMs, nowMs) == Success(View())
      {
        CommitObjectsStep(old(View()), os, compact, dataMs, nowMs, i);
        error := CommitOne(os[i], compact, dataMs, nowMs);
        if error.Some? {
          CommitObjectsFail(old(View()), os, compact, dataMs, nowMs, i + 1);
          return;
        }
        i := i + 1;
      }
      assert os[..i] == os;
      return None;
    }

    method Commit(nodeId: NodeId, nodeEpoch: int, req: CommitRequest, nowMs: int) returns (r: Reply)
      modifies this
      ensures r == ReplyOf(DoCommit(old(View()), nodeId, nodeEpoch, req, nowMs))
      ensures r.Success? ==> View() == DoCommit(old(View()), nodeId, nodeEpoch, req, nowMs).state
    {
      if !NodeAdmitted(View(), nodeId, nodeEpoch) { return Failure(NodeEpochMismatch(nodeId)); }
      if RedundantCommit(View(), req) { return Failure(Redundant); }
      var dataMs := EarliestData(req.compactedIds, nowMs);
      if dataMs.None? { return Failure(Unexpected); }
      var compact := req.compactedIds != [];
      RetireSets(req.compactedIds);
      ghost var retired := View();
      assert retired == DropCompacted(old(View()), req.compactedIds);
      if req.objectId != NOOP_OBJECT_ID {
        var error := AddStreamSet(nodeId, req, compact, dataMs.value, nowMs);
        if error.Some? { return Failure(error.value); }
      }
      assert CommitSetIfAny(retired, nodeId, req, compact, dataMs.value, nowMs) == Success(View());
      var error := CommitEach(req.streamObjects, compact, dataMs.value, nowMs);
      if error.Some? { return Failure(error.value); }
      return Success(Unit);
    }

    /** Drops the sources that are stream objects of this stream. */
    method DropCommitted(streamId: nat, ids: seq<nat>)
      modifies `objects
      ensures objects == DropSources(old(objects), streamId, ids)
    {
      var i := 0;
      while i < |ids|
        invariant i <= |ids| && objects == DropSources(old(objects), streamId, ids[..i])
      {
        if ids[i] in objects.ids && objects.ids[ids[i]].streamId == streamId {
          var key := objects.ids[ids[i]];
          objects := objects.(rows := objects.rows - {key});
          objects := objects.(ids := objects.ids - {ids[i]});
        }
        PrefixStep(ids, i);
        i := i + 1;
      }
      assert ids[..i] == ids;
    }

    method Compact(nodeId: NodeId, nodeEpoch: int, req: CompactRequest, nowMs: int) returns (r: Reply)
      modifies this
      ensures r == ReplyOf(DoCompact(old(View()), nodeId, nodeEpoch, req, nowMs))
      ensures r.Success? ==> View() == DoCompact(old(View()), nodeId, nodeEpoch, req, nowMs).state
    {
      var noop := req.objectId == NOOP_OBJECT_ID;
      if !NodeAdmitted(View(), nodeId, nodeEpoch) { return Failure(NodeEpochMismatch(nodeId)); }
      if !noop && CommittedIn(objects, req.streamId, req.objectId) { return Failure(Redundant); }
      if req.streamId !in streams.rows { return Failure(StreamNotExist(req.streamId)); }
      var row, epoch := streams.rows[req.streamId], EpochAsSigned(req.streamEpoch);
      if row.epoch != epoch { return Failure(ExpiredEpoch(req.streamId, epoch)); }
      if row.endOffset < req.endOffset || row.startOffset > req.startOffset { return Failure(Unexpected); }
      if !noop && !IdFree(sets, objects, req.objectId, Some(KeyOf(Replacement(req)))) { return Failure(Unexpected); }
      CommitLease(req.objectId);
      if !noop {
        AddStreamObject(Replacement(req), nowMs, nowMs);
      }
      DropCommitted(req.streamId, req.sourceIds);
      if |SourceOps(req)| != |req.sourceIds| { return Failure(Unexpected); }
      MarkDestroyAll(req.sourceIds, SourceOps(req));
      return Success(Unit);
    }

    // ---- dispatch ----

    /** Commands on nodes, entries and single stream rows. */
    method DispatchRow(c: Command) returns (r: Reply)
      requires c.RegisterNode? || c.OpenStream? || c.TrimStream? || c.CloseStream?
               || c.TransferStream? || c.CompleteTransfer? || c.PutKv? || c.PutKvIfAbsent? || c.DeleteKv?
      modifies this
      ensures r == ReplyOf(ApplyCommand(old(View()), c))
      ensures r.Success? ==> View() == ApplyCommand(old(View()), c).state
    {
      match c
      case RegisterNode(n, e, a, slots) => r := RegisterNode(n, e, a, slots);
      case OpenStream(n, e, id, epoch) => r := OpenStream(n, e, id, epoch);
      case TrimStream(n, e, id, epoch, start) => r := TrimStream(n, e, id, epoch, start);
      case CloseStream(n, e, id, epoch) => r := CloseStream(n, e, id, epoch);
      case TransferStream(id, from, to) => r := TransferStream(id, from, to);
      case CompleteTransfer(id, epoch) => r := CompleteTransfer(id, epoch);
      case PutKv(key, value) => r := PutKv(key, value);
      case PutKvIfAbsent(key, value) => r := PutKvIfAbsent(key, value);
      case DeleteKv(key) => r := DeleteKv(key);
    }

    method Dispatch(c: Command) returns (r: Reply)
      modifies this
      ensures r == ReplyOf(ApplyCommand(old(View()), c))
      ensures r.Success? ==> View() == ApplyCommand(old(View()), c).state
    {
      match c
      case PlaceStream(id) => r := PlaceStream(id);
      case DeleteStream(n, e, id, epoch) => r := DeleteStream(n, e, id, epoch);
      case PrepareObject(n, e, count, ttl, now) => r := PrepareObject(n, e, count, ttl, now);
      case CommitStreamSetObject(n, e, req, now) => r := Commit(n, e, req, now);
      case CompactStreamObject(n, e, req, now) => r := Compact(n, e, req, now);
      case ExpirePreparedObjects(now) => r := Expire(now);
      case CleanDestroyedObjects(ids) => r := CleanDestroyed(ids);
      case CreateStreams(n, e, count) => r := CreateStreams(n, e, count);
      case CreateStream(n, e) => r := CreateStream(n, e);
      case _ => r := DispatchRow(c);
    }

    /** A failed command leaves no trace, however far its handler got. */
    method Apply(c: Command) returns (r: Reply)
      modifies this
      ensures r == ReplyOf(ApplyCommand(old(View()), c)) && View() == Step(old(View()), c)
    {
      var saved := View();
      r := Dispatch(c);
      if r.Failure? {
        Assign(saved);
      }
    }

    /** Applies a batch in order, collecting each command's own result. */
    method ApplyBatch(cs: seq<Command>) returns (replies: seq<Reply>)
      modifies this
      ensures View() == Run(old(View()), cs) && replies == Replies(old(View()), cs)
    {
      replies := [];
      var i := 0;
      while i < |cs|
        invariant i <= |cs| && View() == Run(old(View()), cs[..i]) && replies == Replies(old(View()), cs[..i])
      {
        var r := Apply(cs[i]);
        replies := replies + [r];
        PrefixStep(cs, i);
        i := i + 1;
      }
      assert cs[..i] == cs;
    }
  }

  ghost function Replies(s: MetadataState, cs: seq<Command>): seq<Reply> {
    if cs == [] then []
    else
      var n := |cs| - 1;
      Replies(s, cs[..n]) + [ReplyOf(ApplyCommand(Run(s, cs[..n]), cs[n]))]
  }
}
