/** What a run of commands makes of leases, objects, the cleanup queue and key-value entries. */
module ObjectLife {
  import opened Bytes
  import opened Metadata
  import opened Apply
  import opened Indexes
  import opened Ownership
  import opened Lifecycle
  import opened Coverage
  import opened Offsets
  import opened Retry
  import opened StreamLife

  // ---- key-value entries ----

  ghost function LastValue(commands: seq<Command>, j: nat, key: Utf8): Option<seq<byte>>
    requires j <= |commands|
  {
    if j == 0 then None
    else
      var before := LastValue(commands, j - 1, key);
      match commands[j - 1]
      case PutKv(k, value) => if k == key then Some(value) else before
      case PutKvIfAbsent(k, value) => if k == key && before.None? then Some(value) else before
      case DeleteKv(k) => if k == key then None else before
      case _ => before
  }

  lemma OtherCommandsKeepKv(s: MetadataState, c: Command)
    requires !c.PutKv? && !c.PutKvIfAbsent? && !c.DeleteKv?
    ensures Step(s, c).kv == s.kv
  {
    if ApplyCommand(s, c).Ok? && c.CommitStreamSetObject? {
      CommitFrame(s, c.nodeId, c.nodeEpoch, c.commit, c.nowMs);
    }
  }

  /** On every run a key holds what was last put, the first value among puts that must not overwrite. */
  lemma {:induction false} KvIsLastWrite(commands: seq<Command>, j: nat, key: Utf8)
    requires j <= |commands|
    ensures LastValue(commands, j, key) == if key in At(commands, j).kv then Some(At(commands, j).kv[key]) else None
  {
    if j > 0 {
      var s, c := At(commands, j - 1), commands[j - 1];
      KvIsLastWrite(commands, j - 1, key);
      AtStep(commands, j - 1);
      if !c.PutKv? && !c.PutKvIfAbsent? && !c.DeleteKv? {
        OtherCommandsKeepKv(s, c);
      }
    }
  }

  /** A put answers what the key then holds, a removal what it held. */
  lemma KvAnswers(commands: seq<Command>, i: nat)
    requires i < |commands| && (commands[i].PutKv? || commands[i].PutKvIfAbsent? || commands[i].DeleteKv?)
    ensures ApplyCommand(At(commands, i), commands[i]).Ok?
    ensures
      ApplyCommand(At(commands, i), commands[i]).result
      == Value(LastValue(commands, if commands[i].DeleteKv? then i else i + 1, commands[i].key))
  {
    KvIsLastWrite(commands, i, commands[i].key);
    KvIsLastWrite(commands, i + 1, commands[i].key);
    AtStep(commands, i);
  }

  // ---- leases ----

  /** The ids a command takes out of their leases. */
  predicate Consumes(c: Command, id: nat) {
    match c
    case CommitStreamSetObject(_, _, req, _) => id in SetIds(req) || id in ObjectIds(req.streamObjects)
    case CompactStreamObject(_, _, req, _) => req.objectId == id
    case _ => false
  }

  /** What one command makes of an id's lease. */
  ghost function LeaseNext(s: MetadataState, c: Command, before: Option<int>, id: nat): Option<int> {
    if !ApplyCommand(s, c).Ok? then before
    else if c.PrepareObject? && InRange(s.leases.nextId, c.count, id) then Some(c.nowMs + Max(c.ttlMs, 0))
    else if Consumes(c, id) then None
    else if c.ExpirePreparedObjects? && before.Some? && before.value <= c.nowMs then None
    else before
  }

  /** The deadline of the last lease that was not consumed or expired. */
  ghost function LastLease(commands: seq<Command>, j: nat, id: nat): Option<int>
    requires j <= |commands|
  {
    if j == 0 then None else LeaseNext(At(commands, j - 1), commands[j - 1], LastLease(commands, j - 1, id), id)
  }

  function LeaseOf(t: LeaseTable, id: nat): Option<int> {
    if id in t.prepared then Some(t.prepared[id]) else None
  }

  lemma {:induction false} CommitObjectsDeadlines(
      s: MetadataState, os: seq<StreamObject>, compact: bool, dataMs: int, nowMs: int, id: nat)
    requires CommitObjects(s, os, compact, dataMs, nowMs).Success? && id !in ObjectIds(os)
    ensures LeaseOf(CommitObjects(s, os, compact, dataMs, nowMs).value.leases, id) == LeaseOf(s.leases, id)
  {
    if os != [] {
      var n := |os| - 1;
      assert ObjectIds(os[..n]) == ObjectIds(os)[..n] && ObjectIds(os)[n] in ObjectIds(os);
      CommitObjectsDeadlines(s, os[..n], compact, dataMs, nowMs, id);
    }
  }

  lemma CommitDeadlines(s: MetadataState, c: Command, id: nat)
    requires c.CommitStreamSetObject? && ApplyCommand(s, c).Ok?
    ensures LeaseOf(Step(s, c).leases, id) == if Consumes(c, id) then None else LeaseOf(s.leases, id)
  {
    var req := c.commit;
    if Consumes(c, id) {
      CommitMoves(s, c);
      assert id in ToSet(SetIds(req)) || id in ToSet(ObjectIds(req.streamObjects));
    } else {
      var compact := req.compactedIds != [];
      var dataMs := DataTime(s.sets, req.compactedIds, c.nowMs);
      var inserted := CommitSetIfAny(DropCompacted(s, req.compactedIds), c.nodeId, req, compact, dataMs, c.nowMs).value;
      CommitObjectsDeadlines(inserted, req.streamObjects, compact, dataMs, c.nowMs, id);
    }
  }

  lemma ExpireDeadlines(s: MetadataState, c: Command, id: nat)
    requires LeasesExact(s.leases) && c.ExpirePreparedObjects?
    ensures
      var was := LeaseOf(s.leases, id);
      LeaseOf(Step(s, c).leases, id) == if was.Some? && was.value <= c.nowMs then None else was
  {
    if id in s.leases.prepared {
      assert (s.leases.prepared[id], id) in s.leases.byDeadline;
    }
  }

  lemma OtherDeadlines(s: MetadataState, c: Command, id: nat)
    requires !c.CommitStreamSetObject? && !c.ExpirePreparedObjects? && ApplyCommand(s, c).Ok?
    ensures
      LeaseOf(Step(s, c).leases, id) ==
      if c.PrepareObject? && InRange(s.leases.nextId, c.count, id) then Some(c.nowMs + Max(c.ttlMs, 0))
      else if Consumes(c, id) then None else LeaseOf(s.leases, id)
  {
  }

  lemma StepLease(s: MetadataState, c: Command, id: nat)
    requires LeasesExact(s.leases)
    ensures LeaseOf(Step(s, c).leases, id) == LeaseNext(s, c, LeaseOf(s.leases, id), id)
  {
    if ApplyCommand(s, c).Ok? {
      if c.CommitStreamSetObject? {
        CommitDeadlines(s, c, id);
      } else if c.ExpirePreparedObjects? {
        ExpireDeadlines(s, c, id);
      } else {
        OtherDeadlines(s, c, id);
      }
    }
  }

  lemma RunStepLease(commands: seq<Command>, j: nat, id: nat)
    requires j < |commands| && forall c :: c in commands ==> Registrable(c)
    ensures LeaseOf(At(commands, j + 1).leases, id)
            == LeaseNext(At(commands, j), commands[j], LeaseOf(At(commands, j).leases, id), id)
  {
    AtStep(commands, j);
    IndexesExactOnEveryRun(commands[..j]);
    StepLease(At(commands, j), commands[j], id);
  }

  /** On every run an id is leased, until the deadline asked for, from its preparation to its commit or expiry. */
  lemma {:induction false} LeaseIsLastWrite(commands: seq<Command>, j: nat, id: nat)
    requires j <= |commands| && forall c :: c in commands ==> Registrable(c)
    ensures LeaseOf(At(commands, j).leases, id) == LastLease(commands, j, id)
  {
    if j > 0 {
      LeaseIsLastWrite(commands, j - 1, id);
      RunStepLease(commands, j - 1, id);
    }
  }

  lemma LeaseCounterStep(s: MetadataState, c: Command)
    ensures Step(s, c).leases.nextId
            == s.leases.nextId + if c.PrepareObject? && ApplyCommand(s, c).Ok? then c.count else 0
  {
    if ApplyCommand(s, c).Ok? && c.CommitStreamSetObject? {
      CommitMoves(s, c);
    }
  }

  lemma RunLeaseCounter(commands: seq<Command>, i: nat)
    requires i < |commands|
    ensures At(commands, i).leases.nextId <= At(commands, i + 1).leases.nextId
  {
    AtStep(commands, i);
    LeaseCounterStep(At(commands, i), commands[i]);
  }

  lemma {:induction false} LeaseCounterGrows(commands: seq<Command>, i: nat, j: nat)
    requires i <= j <= |commands|
    ensures At(commands, i).leases.nextId <= At(commands, j).leases.nextId
    decreases j
  {
    if i < j {
      LeaseCounterGrows(commands, i, j - 1);
      RunLeaseCounter(commands, j - 1);
    }
  }

  /** A preparation answers the first of its ids, and preparations of a run hand out disjoint ids. */
  lemma PreparedIdsNeverReused(commands: seq<Command>, i: nat, j: nat)
    requires i < j < |commands| && commands[i].PrepareObject? && commands[j].PrepareObject?
    requires Accepted(commands, i) && Accepted(commands, j)
    ensures
      var a, b := ApplyCommand(At(commands, i), commands[i]).result, ApplyCommand(At(commands, j), commands[j]).result;
      && a.Id? && b.Id? && a.id + commands[i].count <= b.id
      && forall id: nat | InRange(a.id, commands[i].count, id) :: id in At(commands, i + 1).leases.prepared
  {
    AtStep(commands, i);
    LeaseCounterStep(At(commands, i), commands[i]);
    LeaseCounterGrows(commands, i + 1, j);
    forall id: nat | InRange(At(commands, i).leases.nextId, commands[i].count, id)
      ensures id in At(commands, i + 1).leases.prepared
    {
      OtherDeadlines(At(commands, i), commands[i], id);
    }
  }

  /** Expiry answers how many leases it ended. */
  lemma ExpireCounts(s: MetadataState, c: Command)
    requires LeasesExact(s.leases) && c.ExpirePreparedObjects?
    ensures ApplyCommand(s, c).Ok? && ApplyCommand(s, c).result.Count?
    ensures ApplyCommand(s, c).result.count == |s.leases.prepared| - |Step(s, c).leases.prepared|
  {
    var expired, t := Expired(s.leases, c.nowMs), Step(s, c).leases;
    var ids := set e | e in expired :: e.1;
    DistinctIds(s.leases, expired);
    assert t.prepared.Keys == s.leases.prepared.Keys - ids && ids <= s.leases.prepared.Keys;
    assert |s.leases.prepared| == |s.leases.prepared.Keys| && |t.prepared| == |t.prepared.Keys|;
  }

  lemma {:induction false} DistinctIds(t: LeaseTable, entries: set<(int, nat)>)
    requires LeasesExact(t) && entries <= t.byDeadline
    ensures |set e | e in entries :: e.1| == |entries|
    decreases entries
  {
    if entries != {} {
      var e :| e in entries;
      var rest := entries - {e};
      DistinctIds(t, rest);
      var ids := set x | x in rest :: x.1;
      forall x | x in rest ensures x.1 != e.1 {
        assert e in t.byDeadline && x in t.byDeadline;
      }
      assert (set x | x in entries :: x.1) == ids + {e.1};
    }
  }

  // ---- deletion ----

  /** Deleting a stream removes its row, its pending move and every object of it, queues those for deletion,
      and leaves every other stream's objects alone. */
  lemma DeleteTakesAll(s: MetadataState, c: Command, k: OffsetKey)
    requires Inv(s) && c.DeleteStream? && ApplyCommand(s, c).Ok? && c.streamId in s.streams.rows && k in s.objects.rows
    ensures c.streamId !in Step(s, c).streams.rows && c.streamId !in Step(s, c).streams.transfers
    ensures k in Step(s, c).objects.rows <==> k.streamId != c.streamId
    ensures k.streamId != c.streamId ==> Step(s, c).objects.rows[k] == s.objects.rows[k]
    ensures k.streamId == c.streamId ==>
              var q := Step(s, c).destroyed;
              k.objectId in q.byId && q.byId[k.objectId] in q.marked
              && q.marked[q.byId[k.objectId]] == Destroyed(k.objectId, Delete)
  {
    if k.streamId == c.streamId {
      DeleteMarks(s, c, k);
    }
  }

  lemma DeleteMarks(s: MetadataState, c: Command, k: OffsetKey)
    requires Inv(s) && c.DeleteStream? && ApplyCommand(s, c).Ok? && c.streamId in s.streams.rows && k in s.objects.rows
    requires k.streamId == c.streamId
    ensures
      var q := Step(s, c).destroyed;
      k.objectId in q.byId && q.byId[k.objectId] in q.marked
      && q.marked[q.byId[k.objectId]] == Destroyed(k.objectId, Delete)
  {
    DeleteQueues(s, c, k.objectId);
    assert KeyMatches(k, s.objects.rows[k]) && s.objects.ids[k.objectId] == k;
    StepKeeps(s, c);
    var q := Step(s, c).destroyed;
    assert Located(q.byId, k.objectId, q.byId[k.objectId]) <==> Queued(q.marked, q.byId[k.objectId], k.objectId);
  }

  lemma {:induction false} LastDelete(ids: seq<nat>, id: nat)
    ensures LastOp(ids, Deletes(|ids|), id) == if id in ids then Some(Delete) else None
  {
    if ids != [] {
      var n := |ids| - 1;
      assert Deletes(|ids|)[..n] == Deletes(n) && ids == ids[..n] + [ids[n]];
      LastDelete(ids[..n], id);
    }
  }

  lemma {:induction false} LastOpListed(ids: seq<nat>, ops: seq<CompactOp>, id: nat)
    requires |ids| == |ops|
    ensures LastOp(ids, ops, id).Some? <==> id in ids
  {
    if ids != [] {
      var n := |ids| - 1;
      assert ids == ids[..n] + [ids[n]];
      LastOpListed(ids[..n], ops[..n], id);
    }
  }

  /** A listed id is queued with the list's last operation for it. */
  lemma MarkedWith(q: DestroyedQueue, ids: seq<nat>, ops: seq<CompactOp>, id: nat)
    requires QueueExact(q) && |ids| == |ops| && Marked(q, ids, ops) && id in ids
    ensures id in q.byId && q.byId[id] in q.marked && q.marked[q.byId[id]].objectId == id
    ensures LastOp(ids, ops, id).Some? ==> q.marked[q.byId[id]].op == LastOp(ids, ops, id).value
  {
    assert Located(q.byId, id, q.byId[id]) <==> Queued(q.marked, q.byId[id], id);
  }

  // ---- the cleanup queue ----

  /** What an id is queued with, if it is. */
  function QueuedAs(q: DestroyedQueue, id: nat): Option<CompactOp> {
    if id in q.byId && q.byId[id] in q.marked then Some(q.marked[q.byId[id]].op) else None
  }

  lemma {:induction false} MarkAllQueues(q: DestroyedQueue, ids: seq<nat>, ops: seq<CompactOp>, id: nat)
    requires QueueExact(q) && |ids| == |ops|
    ensures
      var last := LastOp(ids, ops, id);
      QueuedAs(MarkAll(q, ids, ops), id) == if last.Some? then last else QueuedAs(q, id)
  {
    if ids != [] {
      var n := |ids| - 1;
      var before := MarkAll(q, ids[..n], ops[..n]);
      MarkAllQueues(q, ids[..n], ops[..n], id);
      MarkAllKeeps(q, ids[..n], ops[..n]);
      if id != ids[n] && id in before.byId {
        assert Located(before.byId, id, before.byId[id]) <==> Queued(before.marked, before.byId[id], id);
        if ids[n] in before.byId {
          var q := before.byId[ids[n]];
          assert Located(before.byId, ids[n], q) <==> Queued(before.marked, q, ids[n]);
        }
      }
    }
  }

  lemma {:induction false} CleanAllQueues(q: DestroyedQueue, ids: seq<nat>, id: nat)
    requires QueueExact(q)
    ensures QueuedAs(CleanAll(q, ids), id) == if id in ids then None else QueuedAs(q, id)
  {
    if ids != [] {
      var n := |ids| - 1;
      var before := CleanAll(q, ids[..n]);
      assert ids == ids[..n] + [ids[n]];
      CleanAllQueues(q, ids[..n], id);
      CleanAllKeeps(q, ids[..n]);
      if id != ids[n] && id in before.byId && ids[n] in before.byId {
        assert Located(before.byId, id, before.byId[id]) <==> Queued(before.marked, before.byId[id], id);
        var q := before.byId[ids[n]];
        assert Located(before.byId, ids[n], q) <==> Queued(before.marked, q, ids[n]);
      }
    }
  }

  /** The operation a command asks for an id to be cleaned up with. */
  ghost function Asks(s: MetadataState, c: Command, id: nat): Option<CompactOp> {
    match c
    case DeleteStream(_, _, sid, _) =>
      if sid in s.streams.rows && id in s.objects.ids && s.objects.ids[id].streamId == sid then Some(Delete) else None
    case CommitStreamSetObject(_, _, req, _) => if id in req.compactedIds then Some(Delete) else None
    case CompactStreamObject(_, _, req, _) =>
      if id !in req.sourceIds then None
      else if |req.operations| == |req.sourceIds| then LastOp(req.sourceIds, req.operations, id)
      else Some(Delete)
    case _ => None
  }

  /** What one command makes of an id's place in the queue. */
  ghost function QueueNext(s: MetadataState, c: Command, before: Option<CompactOp>, id: nat): Option<CompactOp> {
    if !ApplyCommand(s, c).Ok? then before
    else if c.CleanDestroyedObjects? && id in c.objectIds then None
    else if Asks(s, c, id).Some? then Asks(s, c, id)
    else before
  }

  lemma StepQueues(s: MetadataState, c: Command, id: nat)
    requires Inv(s)
    ensures QueuedAs(Step(s, c).destroyed, id) == QueueNext(s, c, QueuedAs(s.destroyed, id), id)
  {
    if ApplyCommand(s, c).Ok? {
      match c
      case CleanDestroyedObjects(ids) => CleanAllQueues(s.destroyed, ids, id);
      case DeleteStream(_, _, _, _) => DeleteQueues(s, c, id);
      case CommitStreamSetObject(_, _, _, _) => CommitQueues(s, c, id);
      case CompactStreamObject(_, _, _, _) => CompactQueues(s, c, id);
      case _ => if StreamCommand(c) { StreamCommandFrame(s, c); }
    }
  }

  lemma CommitQueues(s: MetadataState, c: Command, id: nat)
    requires Inv(s) && c.CommitStreamSetObject? && ApplyCommand(s, c).Ok?
    ensures QueuedAs(Step(s, c).destroyed, id)
            == if Asks(s, c, id).Some? then Asks(s, c, id) else QueuedAs(s.destroyed, id)
  {
    var req := c.commit;
    CommitFrame(s, c.nodeId, c.nodeEpoch, req, c.nowMs);
    MarkAllQueues(s.destroyed, req.compactedIds, Deletes(|req.compactedIds|), id);
    LastDelete(req.compactedIds, id);
  }

  lemma CompactQueues(s: MetadataState, c: Command, id: nat)
    requires Inv(s) && c.CompactStreamObject? && ApplyCommand(s, c).Ok?
    ensures QueuedAs(Step(s, c).destroyed, id)
            == if Asks(s, c, id).Some? then Asks(s, c, id) else QueuedAs(s.destroyed, id)
  {
    var req := c.compact;
    MarkAllQueues(s.destroyed, req.sourceIds, SourceOps(req), id);
    LastDelete(req.sourceIds, id);
    LastOpListed(req.sourceIds, SourceOps(req), id);
  }

  lemma DeleteQueues(s: MetadataState, c: Command, id: nat)
    requires Inv(s) && c.DeleteStream? && ApplyCommand(s, c).Ok?
    ensures QueuedAs(Step(s, c).destroyed, id)
            == if Asks(s, c, id).Some? then Asks(s, c, id) else QueuedAs(s.destroyed, id)
  {
    if c.streamId in s.streams.rows {
      var keys := KeysOfStream(s.objects, c.streamId);
      var ids := IdsOf(AscendingKeys(keys));
      IdsOfKeys(AscendingKeys(keys), keys);
      MarkAllQueues(s.destroyed, ids, Deletes(|ids|), id);
      LastDelete(ids, id);
      assert id in ids <==> id in ToSet(ids);
      if CommittedIn(s.objects, c.streamId, id) {
        assert s.objects.ids[id] in keys;
      }
    }
  }

  /** The operation an id was last marked with since it was last cleaned up. */
  ghost function LastAsked(commands: seq<Command>, j: nat, id: nat): Option<CompactOp>
    requires j <= |commands|
  {
    if j == 0 then None else QueueNext(At(commands, j - 1), commands[j - 1], LastAsked(commands, j - 1, id), id)
  }

  lemma RunStepQueues(commands: seq<Command>, j: nat, id: nat)
    requires j < |commands| && forall c :: c in commands ==> Registrable(c)
    ensures QueuedAs(At(commands, j + 1).destroyed, id)
            == QueueNext(At(commands, j), commands[j], QueuedAs(At(commands, j).destroyed, id), id)
  {
    AtStep(commands, j);
    IndexesExactOnEveryRun(commands[..j]);
    StepQueues(At(commands, j), commands[j], id);
  }

  /** On every run the cleanup queue holds exactly what was marked and not cleaned up since, with the last operation. */
  lemma {:induction false} QueueIsLastAsked(commands: seq<Command>, j: nat, id: nat)
    requires j <= |commands| && forall c :: c in commands ==> Registrable(c)
    ensures QueuedAs(At(commands, j).destroyed, id) == LastAsked(commands, j, id)
  {
    if j > 0 {
      QueueIsLastAsked(commands, j - 1, id);
      RunStepQueues(commands, j - 1, id);
    }
  }

  // ---- when a commit is accepted ----

  /** Every listed range starts where its stream ends by then, counting the ranges listed before it. */
  ghost predicate RangesChain(rows: map<nat, StreamRow>, ranges: seq<ObjectStreamRange>) {
    forall k | 0 <= k < |ranges| ::
      var r := ranges[k];
      r.streamId in rows && r.startOffset == EndOr(LastRangeEnd(ranges[..k], r.streamId), rows[r.streamId].endOffset)
  }

  /** Every listed range lies within its stream's live range. */
  ghost predicate RangesLive(rows: map<nat, StreamRow>, ranges: seq<ObjectStreamRange>) {
    forall k | 0 <= k < |ranges| ::
      var r := ranges[k];
      r.streamId in rows && rows[r.streamId].startOffset <= r.startOffset && r.endOffset <= rows[r.streamId].endOffset
  }

  lemma RangesSnoc(rows: map<nat, StreamRow>, ranges: seq<ObjectStreamRange>)
    requires ranges != []
    ensures
      var n := |ranges| - 1;
      var r := ranges[n];
      && (RangesChain(rows, ranges) <==>
          RangesChain(rows, ranges[..n]) && r.streamId in rows
          && r.startOffset == EndOr(LastRangeEnd(ranges[..n], r.streamId), rows[r.streamId].endOffset))
      && (RangesLive(rows, ranges) <==>
          RangesLive(rows, ranges[..n]) && r.streamId in rows
          && rows[r.streamId].startOffset <= r.startOffset && r.endOffset <= rows[r.streamId].endOffset)
  {
    var n := |ranges| - 1;
    forall k | 0 <= k < n ensures ranges[..n][k] == ranges[k] && ranges[..n][..k] == ranges[..k] {
    }
  }

  /** Ranges are accepted if and only if they chain, or, in a compaction, lie within live data. */
  lemma {:induction false} RangesAcceptedIff(rows: map<nat, StreamRow>, ranges: seq<ObjectStreamRange>, compact: bool)
    ensures AdvanceAll(rows, ranges, compact).Success? <==>
            if compact then RangesLive(rows, ranges) else RangesChain(rows, ranges)
    ensures AdvanceAll(rows, ranges, compact).Success? ==> AdvanceAll(rows, ranges, compact).value.Keys == rows.Keys
    ensures compact && AdvanceAll(rows, ranges, compact).Success? ==> AdvanceAll(rows, ranges, compact).value == rows
  {
    if ranges != [] {
      var n := |ranges| - 1;
      RangesAcceptedIff(rows, ranges[..n], compact);
      RangesSnoc(rows, ranges);
      if !compact && AdvanceAll(rows, ranges[..n], false).Success? && ranges[n].streamId in rows {
        AdvanceAllEnds(rows, ranges[..n], ranges[n].streamId);
      }
    }
  }

  /** A stream object's id is no stream-set object and no stream object under another key, listed ones included, and its
      range chains or is live. */
  ghost predicate ObjectFits(s: MetadataState, os: seq<StreamObject>, k: nat, compact: bool)
    requires k < |os|
  {
    var o := os[k];
    && o.objectId !in s.sets.rows
    && (o.objectId in s.objects.ids ==> s.objects.ids[o.objectId] == OffsetKey(o.streamId, o.startOffset, o.objectId))
    && (forall i | 0 <= i < k && os[i].objectId == o.objectId ::
          os[i].streamId == o.streamId && os[i].startOffset == o.startOffset)
    && o.streamId in s.streams.rows
    && var row := s.streams.rows[o.streamId];
       if compact then row.startOffset <= o.startOffset && o.endOffset <= row.endOffset
       else o.startOffset == EndOr(LastObjectEnd(os[..k], o.streamId), row.endOffset)
  }

  ghost predicate ObjectsFit(s: MetadataState, os: seq<StreamObject>, compact: bool) {
    forall k | 0 <= k < |os| :: ObjectFits(s, os, k, compact)
  }

  lemma ObjectsFitSnoc(s: MetadataState, os: seq<StreamObject>, compact: bool)
    requires os != []
    ensures ObjectsFit(s, os, compact) <==>
            ObjectsFit(s, os[..|os| - 1], compact) && ObjectFits(s, os, |os| - 1, compact)
  {
    var n := |os| - 1;
    forall k | 0 <= k < n ensures ObjectFits(s, os[..n], k, compact) <==> ObjectFits(s, os, k, compact) {
      assert os[..n][..k] == os[..k];
    }
  }

  /** The key an id has once the listed objects are in. */
  lemma {:induction false} CommittedKeyOf(
      s: MetadataState, os: seq<StreamObject>, compact: bool, dataMs: int, nowMs: int, id: nat)
    requires CommitObjects(s, os, compact, dataMs, nowMs).Success?
    ensures
      var t := CommitObjects(s, os, compact, dataMs, nowMs).value;
      && (id in t.objects.ids <==> id in s.objects.ids || exists i :: 0 <= i < |os| && os[i].objectId == id)
      && (forall i | 0 <= i < |os| && os[i].objectId == id :: t.objects.ids[id] == KeyOf(os[i]))
      && (id in s.objects.ids ==> t.objects.ids[id] == s.objects.ids[id])
      && t.sets == s.sets
  {
    if os != [] {
      CommittedKeyOf(s, os[..|os| - 1], compact, dataMs, nowMs, id);
    }
  }

  lemma CompactObjectsRows(s: MetadataState, os: seq<StreamObject>, dataMs: int, nowMs: int)
    requires CommitObjects(s, os, true, dataMs, nowMs).Success?
    ensures CommitObjects(s, os, true, dataMs, nowMs).value.streams == s.streams
  {
    CompactObjectsAt(s, os, dataMs, nowMs, OffsetKey(0, 0, 0));
  }

  lemma NextObjectIff(s: MetadataState, os: seq<StreamObject>, compact: bool, dataMs: int, nowMs: int)
    requires os != [] && CommitObjects(s, os[..|os| - 1], compact, dataMs, nowMs).Success?
    ensures CommitObjects(s, os, compact, dataMs, nowMs).Success? <==> ObjectFits(s, os, |os| - 1, compact)
  {
    var n := |os| - 1;
    var o, t := os[n], CommitObjects(s, os[..n], compact, dataMs, nowMs).value;
    CommittedKeyOf(s, os[..n], compact, dataMs, nowMs, o.objectId);
    CommitObjectsRows(s, os[..n], compact, dataMs, nowMs);
    if compact {
      CompactObjectsRows(s, os[..n], dataMs, nowMs);
    } else if o.streamId in s.streams.rows {
      CommitObjectsEnds(s, os[..n], dataMs, nowMs, o.streamId);
    }
    forall i | 0 <= i < n ensures os[..n][i] == os[i] {
    }
  }

  lemma {:induction false} ObjectsAcceptedIff(
      s: MetadataState, os: seq<StreamObject>, compact: bool, dataMs: int, nowMs: int)
    ensures CommitObjects(s, os, compact, dataMs, nowMs).Success? <==> ObjectsFit(s, os, compact)
  {
    if os != [] {
      ObjectsAcceptedIff(s, os[..|os| - 1], compact, dataMs, nowMs);
      ObjectsFitSnoc(s, os, compact);
      if CommitObjects(s, os[..|os| - 1], compact, dataMs, nowMs).Success? {
        NextObjectIff(s, os, compact, dataMs, nowMs);
      }
    }
  }

  /** The state the stream objects of a commit meet: compacted objects gone, the stream-set object in. */
  ghost function BeforeObjects(s: MetadataState, c: Command): MetadataState
    requires c.CommitStreamSetObject? && forall id | id in c.commit.compactedIds :: id in s.sets.rows
  {
    var req := c.commit;
    var dropped := DropCompacted(s, req.compactedIds);
    var dataMs := DataTime(s.sets, req.compactedIds, c.nowMs);
    var r := CommitSetIfAny(dropped, c.nodeId, req, req.compactedIds != [], dataMs, c.nowMs);
    if r.Success? then r.value else dropped
  }

  /** The stream-set object exists, or there is none to commit and every listed stream object exists. */
  ghost predicate AlreadyCommitted(s: MetadataState, req: CommitRequest) {
    if req.objectId != NOOP_OBJECT_ID then req.objectId in s.sets.rows
    else
      |req.streamObjects| > 0
      && forall k | 0 <= k < |req.streamObjects| ::
           var o := req.streamObjects[k];
           o.objectId in s.objects.ids && s.objects.ids[o.objectId].streamId == o.streamId
  }

  ghost predicate CommitAcceptable(s: MetadataState, c: Command)
    requires c.CommitStreamSetObject?
  {
    var req := c.commit;
    var compact := req.compactedIds != [];
    && RegisteredAt(s, c.nodeId, c.nodeEpoch) && !AlreadyCommitted(s, req)
    && (forall id | id in req.compactedIds :: id in s.sets.rows)
    && (req.objectId != NOOP_OBJECT_ID ==>
          && req.objectId !in s.objects.ids
          && if compact then RangesLive(s.streams.rows, req.streamRanges)
             else RangesChain(s.streams.rows, req.streamRanges))
    && ObjectsFit(BeforeObjects(s, c), req.streamObjects, compact)
  }

  /** A commit is accepted if and only if its node is admitted, its work is not done yet, what it compacts exists, its
      ids are free and its ranges chain, or in a compaction lie within live data. */
  lemma CommitAcceptedIff(s: MetadataState, c: Command)
    requires c.CommitStreamSetObject?
    ensures ApplyCommand(s, c).Ok? <==> CommitAcceptable(s, c)
    ensures RegisteredAt(s, c.nodeId, c.nodeEpoch) ==>
              (ApplyCommand(s, c) == Err(Redundant) <==> AlreadyCommitted(s, c.commit))
  {
    var req := c.commit;
    assert RedundantCommit(s, req) <==> AlreadyCommitted(s, req);
    if RegisteredAt(s, c.nodeId, c.nodeEpoch) && ApplyCommand(s, c).Err? {
      CommitErrors(s, c);
    }
    var compact := req.compactedIds != [];
    if NodeAdmitted(s, c.nodeId, c.nodeEpoch) && !RedundantCommit(s, req)
       && forall id | id in req.compactedIds :: id in s.sets.rows {
      RangesAcceptedIff(s.streams.rows, req.streamRanges, compact);
      RemoveSetsIds(s.sets, req.compactedIds);
      var dataMs := DataTime(s.sets, req.compactedIds, c.nowMs);
      ObjectsAcceptedIff(BeforeObjects(s, c), req.streamObjects, compact, dataMs, c.nowMs);
    }
  }

  // ---- what a commit records ----

  /** The stream-set object is recorded as committed: by whom, with the listed ranges, size and attributes, now, and
      with the earliest data it holds. */
  lemma SetObjectRecorded(s: MetadataState, c: Command)
    requires c.CommitStreamSetObject? && ApplyCommand(s, c).Ok? && c.commit.objectId != NOOP_OBJECT_ID
    ensures c.commit.objectId in Step(s, c).sets.rows
    ensures
      var row, req := Step(s, c).sets.rows[c.commit.objectId], c.commit;
      && row.nodeId == c.nodeId && row.meta.objectId == req.objectId && row.meta.size == req.size
      && row.meta.attributes == req.attributes && row.meta.committedMs == c.nowMs
      && |row.meta.ranges| == |req.streamRanges|
      && (forall k | 0 <= k < |req.streamRanges| ::
            var r := req.streamRanges[k];
            row.meta.ranges[k] == OffsetRange(r.streamId, r.startOffset, r.endOffset))
      && row.meta.dataMs <= c.nowMs
      && (forall id | id in req.compactedIds && id in s.sets.rows :: row.meta.dataMs <= s.sets.rows[id].meta.dataMs)
      && (row.meta.dataMs == c.nowMs
          || exists id :: id in req.compactedIds && id in s.sets.rows
                          && row.meta.dataMs == s.sets.rows[id].meta.dataMs)
  {
    var req := c.commit;
    var compact := req.compactedIds != [];
    var dataMs := DataTime(s.sets, req.compactedIds, c.nowMs);
    var inserted := CommitSetIfAny(DropCompacted(s, req.compactedIds), c.nodeId, req, compact, dataMs, c.nowMs).value;
    CommitObjectsIds(inserted, req.streamObjects, compact, dataMs, c.nowMs);
    EarliestData(s.sets, req.compactedIds, c.nowMs);
  }

  lemma {:induction false} EarliestData(t: SetTable, ids: seq<nat>, nowMs: int)
    requires forall id | id in ids :: id in t.rows
    ensures DataTime(t, ids, nowMs) <= nowMs
    ensures forall id | id in ids :: DataTime(t, ids, nowMs) <= t.rows[id].meta.dataMs
    ensures DataTime(t, ids, nowMs) == nowMs
            || exists id :: id in ids && t.rows[id].meta.dataMs == DataTime(t, ids, nowMs)
  {
    if ids != [] {
      var n := |ids| - 1;
      assert ids[n] in ids && forall id | id in ids[..n] :: id in ids;
      assert ids == ids[..n] + [ids[n]];
      EarliestData(t, ids[..n], nowMs);
    }
  }

  predicate Describes(meta: ObjectMeta, o: StreamObject, dataMs: int, nowMs: int) {
    && meta.objectId == o.objectId && meta.size == o.size && meta.attributes == o.attributes
    && meta.ranges == [OffsetRange(o.streamId, o.startOffset, o.endOffset)]
    && meta.committedMs == nowMs && meta.dataMs == dataMs
  }

  lemma {:induction false} ObjectsRecorded(
      s: MetadataState, os: seq<StreamObject>, compact: bool, dataMs: int, nowMs: int, k: OffsetKey)
    requires CommitObjects(s, os, compact, dataMs, nowMs).Success?
    ensures
      var t, last := CommitObjects(s, os, compact, dataMs, nowMs).value.objects, LastObject(os, k);
      if last.Some? then k in t.rows && Describes(t.rows[k], last.value, dataMs, nowMs)
      else (k in t.rows <==> k in s.objects.rows) && (k in s.objects.rows ==> t.rows[k] == s.objects.rows[k])
  {
    if os != [] {
      ObjectsRecorded(s, os[..|os| - 1], compact, dataMs, nowMs, k);
    }
  }

  /** A commit records each stream object it lists as listed, and leaves every other object as it was,
      compacted stream-set objects aside. */
  lemma CommitRecords(s: MetadataState, c: Command, k: OffsetKey, id: nat)
    requires c.CommitStreamSetObject? && ApplyCommand(s, c).Ok?
    ensures
      var t, req := Step(s, c), c.commit;
      var last := LastObject(req.streamObjects, k);
      && (if last.Some? then
            k in t.objects.rows
            && Describes(t.objects.rows[k], last.value, DataTime(s.sets, req.compactedIds, c.nowMs), c.nowMs)
          else
            && (k in t.objects.rows <==> k in s.objects.rows)
            && (k in s.objects.rows ==> t.objects.rows[k] == s.objects.rows[k]))
      && (id !in SetIds(req) ==>
            && (id in t.sets.rows <==> id in s.sets.rows && id !in req.compactedIds)
            && (id in t.sets.rows ==> t.sets.rows[id] == s.sets.rows[id]))
  {
    var req := c.commit;
    var compact := req.compactedIds != [];
    var dataMs := DataTime(s.sets, req.compactedIds, c.nowMs);
    var inserted := CommitSetIfAny(DropCompacted(s, req.compactedIds), c.nodeId, req, compact, dataMs, c.nowMs).value;
    RemoveSetsRows(s.sets, req.compactedIds);
    assert id in ToSet(req.compactedIds) <==> id in req.compactedIds;
    CommitObjectsIds(inserted, req.streamObjects, compact, dataMs, c.nowMs);
    ObjectsRecorded(inserted, req.streamObjects, compact, dataMs, c.nowMs, k);
  }

  // ---- compaction of stream objects ----

  /** A 64-bit epoch read as two's complement. */
  function SignedEpoch(epoch: nat): int {
    if epoch < 0x8000_0000_0000_0000 then epoch else epoch - 0x1_0000_0000_0000_0000
  }

  /** A compaction is accepted if and only if it is current, its output is new and free, and it names as many operations
      as sources, or none. */
  lemma CompactAcceptedIff(s: MetadataState, c: Command)
    requires c.CompactStreamObject?
    ensures
      var req := c.compact;
      ApplyCommand(s, c).Ok? <==>
        && RegisteredAt(s, c.nodeId, c.nodeEpoch) && req.streamId in s.streams.rows
        && s.streams.rows[req.streamId].epoch == SignedEpoch(req.streamEpoch)
        && s.streams.rows[req.streamId].startOffset <= req.startOffset
        && req.endOffset <= s.streams.rows[req.streamId].endOffset
        && (req.objectId != NOOP_OBJECT_ID ==>
              req.objectId !in s.sets.rows && req.objectId !in s.objects.ids)
        && (req.operations == [] || req.sourceIds == [] || |req.operations| == |req.sourceIds|)
  {
  }

  /** It replaces its sources: afterwards the stream's objects are its output, as described, and whatever else was there
      and no source; every other stream's objects are as they were. */
  lemma CompactReplaces(s: MetadataState, c: Command, k: OffsetKey)
    requires Inv(s) && c.CompactStreamObject? && ApplyCommand(s, c).Ok?
    ensures
      var t, req := Step(s, c).objects, c.compact;
      var output := req.objectId != NOOP_OBJECT_ID && k == OffsetKey(req.streamId, req.startOffset, req.objectId);
      && (k in t.rows <==>
            (output || k in s.objects.rows) && !(k.streamId == req.streamId && k.objectId in req.sourceIds))
      && (k in t.rows && output ==>
            Describes(t.rows[k], StreamObject(req.objectId, req.size, req.streamId, req.startOffset, req.endOffset,
                                              req.attributes), c.nowMs, c.nowMs))
      && (k in t.rows && !output ==> t.rows[k] == s.objects.rows[k])
  {
    var req := c.compact;
    if req.objectId != NOOP_OBJECT_ID {
      AddObjectKeeps(s.objects, Replacement(req), c.nowMs, c.nowMs);
    }
    DropSourcesRows(WithReplacement(s.objects, req, c.nowMs), req.streamId, req.sourceIds);
  }
}
