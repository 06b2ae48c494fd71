/** A proposer that never saw its answer may send the command again, at once or much later. */
module Retry {
  import opened Bytes
  import opened Metadata
  import opened Apply
  import opened Indexes
  import opened Lifecycle
  import opened Ownership
  import opened Offsets

  /** Commands that hand out new ids on every application. */
  predicate Allocates(c: Command) {
    c.CreateStream? || c.CreateStreams? || c.PrepareObject?
  }

  ghost predicate Settled(s: MetadataState, c: Command) {
    Step(Step(s, c), c) == Step(s, c)
  }

  lemma RetryNodeOrKv(s: MetadataState, c: Command)
    requires c.RegisterNode? || c.PutKv? || c.PutKvIfAbsent? || c.DeleteKv?
    ensures Settled(s, c)
  {
    var t := Step(s, c);
    if c.RegisterNode? && ApplyCommand(s, c).Ok? {
      assert t.nodes[c.nodeId := t.nodes[c.nodeId]] == t.nodes;
    } else if c.PutKv? || c.PutKvIfAbsent? {
      assert c.key in t.kv && t.kv[c.key := t.kv[c.key]] == t.kv;
    } else if c.DeleteKv? {
      assert t.kv - {c.key} == t.kv;
    }
  }

  lemma RetryStream(s: MetadataState, c: Command)
    requires UNPLACED !in s.nodes
    requires c.OpenStream? || c.CloseStream? || c.TrimStream? || c.PlaceStream?
    ensures Settled(s, c)
  {
    var t := Step(s, c);
    if c.TrimStream? && ApplyCommand(s, c).Ok? {
      assert t.streams.rows[c.streamId := t.streams.rows[c.streamId]] == t.streams.rows;
    }
  }

  lemma RetryTransfer(s: MetadataState, c: Command)
    requires c.TransferStream? || c.CompleteTransfer? || c.DeleteStream?
    ensures Settled(s, c)
  {
  }

  lemma RetryExpire(s: MetadataState, c: Command)
    requires c.ExpirePreparedObjects?
    ensures Settled(s, c)
  {
    var t := Step(s, c).leases;
    assert Expired(t, c.nowMs) == {};
    assert t.prepared - (set e: (int, nat) | e in Expired(t, c.nowMs) :: e.1) == t.prepared;
  }

  lemma {:induction false} CleanAbsent(q: DestroyedQueue, ids: seq<nat>)
    requires forall id | id in ids :: id !in q.byId
    ensures CleanAll(q, ids) == q
  {
    if ids != [] {
      assert ids[|ids| - 1] in ids;
      CleanAbsent(q, ids[..|ids| - 1]);
    }
  }

  lemma RetryClean(s: MetadataState, c: Command)
    requires c.CleanDestroyedObjects?
    ensures Settled(s, c)
  {
    var q := Step(s, c).destroyed;
    CleanAllIds(s.destroyed, c.objectIds);
    forall id | id in c.objectIds ensures id !in q.byId {
      assert id in ToSet(c.objectIds);
    }
    CleanAbsent(q, c.objectIds);
  }

  // ---- commits ----

  /** Every stream object of a successful commit is registered under its own key. */
  lemma {:induction false} CommittedKeys(
      s: MetadataState, os: seq<StreamObject>, compact: bool, dataMs: int, nowMs: int, i: nat)
    requires i < |os| && CommitObjects(s, os, compact, dataMs, nowMs).Success?
    ensures
      var t := CommitObjects(s, os, compact, dataMs, nowMs).value;
      os[i].objectId in t.objects.ids && t.objects.ids[os[i].objectId] == KeyOf(os[i])
  {
    var n := |os| - 1;
    if i < n {
      CommittedKeys(s, os[..n], compact, dataMs, nowMs, i);
    }
  }

  lemma CommitRegisters(s: MetadataState, c: Command)
    requires c.CommitStreamSetObject? && ApplyCommand(s, c).Ok?
    ensures c.commit.objectId != NOOP_OBJECT_ID ==> c.commit.objectId in Step(s, c).sets.rows
    ensures forall o | o in c.commit.streamObjects :: CommittedIn(Step(s, c).objects, o.streamId, o.objectId)
    ensures Step(s, c).nodes == s.nodes
  {
    var req := c.commit;
    var compact := req.compactedIds != [];
    var dataMs := DataTime(s.sets, req.compactedIds, c.nowMs);
    var inserted := CommitSetIfAny(DropCompacted(s, req.compactedIds), c.nodeId, req, compact, dataMs, c.nowMs).value;
    CommitObjectsFrame(inserted, req.streamObjects, compact, dataMs, c.nowMs);
    forall o | o in req.streamObjects ensures CommittedIn(Step(s, c).objects, o.streamId, o.objectId) {
      var i :| 0 <= i < |req.streamObjects| && req.streamObjects[i] == o;
      CommittedKeys(inserted, req.streamObjects, compact, dataMs, c.nowMs, i);
    }
  }

  /** A compaction-only commit finds its sources gone; anything else finds its objects committed. */
  lemma RetryCommit(s: MetadataState, c: Command)
    requires c.CommitStreamSetObject?
    ensures Settled(s, c)
  {
    if ApplyCommand(s, c).Ok? {
      CommitRegisters(s, c);
      var req, t := c.commit, Step(s, c);
      if !RedundantCommit(t, req) {
        assert req.objectId == NOOP_OBJECT_ID && req.streamObjects == [];
        if req.compactedIds != [] {
          CompactedGone(s, c);
        } else {
          assert t == s;
        }
      }
    }
  }

  lemma CompactedGone(s: MetadataState, c: Command)
    requires c.CommitStreamSetObject? && ApplyCommand(s, c).Ok? && c.commit.compactedIds != []
    requires c.commit.objectId == NOOP_OBJECT_ID && c.commit.streamObjects == []
    ensures c.commit.compactedIds[0] !in Step(s, c).sets.rows && c.commit.compactedIds[0] in c.commit.compactedIds
  {
    RemoveSetsIds(s.sets, c.commit.compactedIds);
    assert c.commit.compactedIds[0] in ToSet(c.commit.compactedIds);
  }

  // ---- compactions ----

  /** The last operation a list gives an id. */
  function LastOp(ids: seq<nat>, ops: seq<CompactOp>, id: nat): Option<CompactOp>
    requires |ids| == |ops|
  {
    if ids == [] then None
    else
      var n := |ids| - 1;
      if ids[n] == id then Some(ops[n]) else LastOp(ids[..n], ops[..n], id)
  }

  /** Every queue entry whose id the list names has the list's last operation for it. */
  ghost predicate Marked(q: DestroyedQueue, ids: seq<nat>, ops: seq<CompactOp>)
    requires |ids| == |ops|
  {
    && (forall id | id in ids :: id in q.byId && q.byId[id] in q.marked)
    && forall k | k in q.marked ::
         var op := LastOp(ids, ops, q.marked[k].objectId); op.Some? ==> q.marked[k].op == op.value
  }

  lemma {:induction false} MarkAllMarks(q: DestroyedQueue, ids: seq<nat>, ops: seq<CompactOp>)
    requires QueueExact(q) && |ids| == |ops|
    ensures QueueExact(MarkAll(q, ids, ops)) && Marked(MarkAll(q, ids, ops), ids, ops)
  {
    MarkAllKeeps(q, ids, ops);
    if ids != [] {
      var n := |ids| - 1;
      MarkAllMarks(q, ids[..n], ops[..n]);
      MarkOne(MarkAll(q, ids[..n], ops[..n]), ids, ops, n);
    }
  }

  lemma MarkOne(q: DestroyedQueue, ids: seq<nat>, ops: seq<CompactOp>, n: nat)
    requires QueueExact(q) && |ids| == |ops| == n + 1 && Marked(q, ids[..n], ops[..n])
    ensures Marked(Mark(q, ids[n], ops[n]), ids, ops)
  {
    var id, m := ids[n], Mark(q, ids[n], ops[n]);
    MarkKeeps(q, id, ops[n]);
    forall other | other in ids ensures other in m.byId && m.byId[other] in m.marked {
      assert other == id || other in ids[..n];
      assert Located(m.byId, other, m.byId[other]) <==> Queued(m.marked, m.byId[other], other);
    }
    forall k | k in m.marked
      ensures var op := LastOp(ids, ops, m.marked[k].objectId); op.Some? ==> m.marked[k].op == op.value
    {
      assert Queued(m.marked, k, m.marked[k].objectId) <==> Located(m.byId, m.marked[k].objectId, k);
    }
  }

  /** Marking what is already marked so changes nothing. */
  lemma {:induction false} MarkAgain(q: DestroyedQueue, ids: seq<nat>, ops: seq<CompactOp>, i: nat)
    requires QueueExact(q) && |ids| == |ops| && Marked(q, ids, ops) && i <= |ids|
    ensures
      var r := MarkAll(q, ids[..i], ops[..i]);
      && r.byId == q.byId && r.nextSeq == q.nextSeq && r.marked.Keys == q.marked.Keys
      && forall k | k in q.marked ::
           var op := LastOp(ids[..i], ops[..i], q.marked[k].objectId);
           r.marked[k] == if op.Some? then Destroyed(q.marked[k].objectId, op.value) else q.marked[k]
  {
    if i > 0 {
      var n := i - 1;
      MarkAgain(q, ids, ops, n);
      assert ids[..i][..n] == ids[..n] && ops[..i][..n] == ops[..n];
      assert ids[n] in ids;
      forall k | k in q.marked ensures k == q.byId[ids[n]] <==> q.marked[k].objectId == ids[n] {
        assert Queued(q.marked, k, ids[n]) <==> Located(q.byId, ids[n], k);
      }
    }
  }

  lemma MarkAllTwice(q: DestroyedQueue, ids: seq<nat>, ops: seq<CompactOp>)
    requires QueueExact(q) && |ids| == |ops|
    ensures MarkAll(MarkAll(q, ids, ops), ids, ops) == MarkAll(q, ids, ops)
  {
    var r := MarkAll(q, ids, ops);
    MarkAllMarks(q, ids, ops);
    MarkAgain(r, ids, ops, |ids|);
    assert ids[..|ids|] == ids && ops[..|ids|] == ops;
    assert MarkAll(r, ids, ops).marked == r.marked;
  }

  function WithEntry(t: ObjectTable, k: OffsetKey, meta: ObjectMeta): ObjectTable {
    ObjectTable(t.rows[k := meta], t.ids[k.objectId := k])
  }

  /** Of a table where only the new entry is a source, dropping the sources drops that entry and nothing else. */
  lemma {:induction false} DropOnlyEntry(t: ObjectTable, k: OffsetKey, meta: ObjectMeta, ids: seq<nat>)
    requires k !in t.rows && k.objectId !in t.ids && forall id | id in ids :: !CommittedIn(t, k.streamId, id)
    ensures DropSources(t, k.streamId, ids) == t
    ensures
      DropSources(WithEntry(t, k, meta), k.streamId, ids) == if k.objectId in ids then t else WithEntry(t, k, meta)
  {
    if ids != [] {
      var n := |ids| - 1;
      DropOnlyEntry(t, k, meta, ids[..n]);
      assert ids == ids[..n] + [ids[n]];
      var u := WithEntry(t, k, meta);
      assert ids[n] == k.objectId ==> u.rows - {k} == t.rows && u.ids - {k.objectId} == t.ids;
    }
  }

  /** After a compaction none of its sources is a stream object of the stream. */
  lemma SourcesGone(s: MetadataState, c: Command)
    requires c.CompactStreamObject? && ApplyCommand(s, c).Ok?
    ensures forall id | id in c.compact.sourceIds :: !CommittedIn(Step(s, c).objects, c.compact.streamId, id)
    ensures
      var req := c.compact;
      req.objectId != NOOP_OBJECT_ID && req.objectId !in req.sourceIds ==>
        CommittedIn(Step(s, c).objects, req.streamId, req.objectId)
    ensures
      var req := c.compact;
      req.objectId != NOOP_OBJECT_ID && req.objectId in req.sourceIds ==> req.objectId !in Step(s, c).objects.ids
  {
    DropSourcesIds(WithReplacement(s.objects, c.compact, c.nowMs), c.compact.streamId, c.compact.sourceIds);
  }

  lemma RetryCompactObjects(s: MetadataState, c: Command)
    requires Inv(s) && c.CompactStreamObject? && ApplyCommand(s, c).Ok?
    requires c.compact.objectId == NOOP_OBJECT_ID || c.compact.objectId in c.compact.sourceIds
    ensures
      var t, req := Step(s, c).objects, c.compact;
      DropSources(WithReplacement(t, req, c.nowMs), req.streamId, req.sourceIds) == t
  {
    var t, req := Step(s, c).objects, c.compact;
    SourcesGone(s, c);
    StepKeeps(s, c);
    if req.objectId == NOOP_OBJECT_ID {
      DropNothing(t, req.streamId, req.sourceIds);
    } else {
      var o := Replacement(req);
      assert KeyOf(o) in t.rows ==> KeyOf(o).objectId in t.ids;
      DropOnlyEntry(t, KeyOf(o), AddObject(t, o, c.nowMs, c.nowMs).rows[KeyOf(o)], req.sourceIds);
    }
  }

  lemma {:induction false} DropNothing(t: ObjectTable, streamId: nat, ids: seq<nat>)
    requires forall id | id in ids :: !CommittedIn(t, streamId, id)
    ensures DropSources(t, streamId, ids) == t
  {
    if ids != [] {
      assert ids[|ids| - 1] in ids;
      DropNothing(t, streamId, ids[..|ids| - 1]);
    }
  }

  lemma RetryCompact(s: MetadataState, c: Command)
    requires Inv(s) && c.CompactStreamObject?
    ensures Settled(s, c)
  {
    if ApplyCommand(s, c).Ok? {
      var req, t := c.compact, Step(s, c);
      SourcesGone(s, c);
      if req.objectId == NOOP_OBJECT_ID || req.objectId in req.sourceIds {
        RetryCompactObjects(s, c);
        MarkAllTwice(s.destroyed, req.sourceIds, SourceOps(req));
      }
    }
  }

  /**
   * Retrying any command that does not allocate ids is safe: applied a second time at once, it leaves the state as the
   * first application left it, in every state with exact indexes.
   */
  lemma RetryChangesNothing(s: MetadataState, c: Command)
    requires Inv(s) && UNPLACED !in s.nodes && !Allocates(c)
    ensures Settled(s, c)
  {
    match c
    case CommitStreamSetObject(_, _, _, _) => RetryCommit(s, c);
    case CompactStreamObject(_, _, _, _) => RetryCompact(s, c);
    case ExpirePreparedObjects(_) => RetryExpire(s, c);
    case CleanDestroyedObjects(_) => RetryClean(s, c);
    case TransferStream(_, _, _) => RetryTransfer(s, c);
    case CompleteTransfer(_, _) => RetryTransfer(s, c);
    case DeleteStream(_, _, _, _) => RetryTransfer(s, c);
    case OpenStream(_, _, _, _) => RetryStream(s, c);
    case CloseStream(_, _, _, _) => RetryStream(s, c);
    case TrimStream(_, _, _, _, _) => RetryStream(s, c);
    case PlaceStream(_) => RetryStream(s, c);
    case _ => RetryNodeOrKv(s, c);
  }

  /** What a retry of an accepted command is told. */
  function SecondReply(first: CommandResult, c: Command): Reply {
    match c
    case CompleteTransfer(_, _) => Failure(Redundant)
    case CommitStreamSetObject(_, _, req, _) =>
      if req.objectId != NOOP_OBJECT_ID || req.streamObjects != [] then Failure(Redundant)
      else if req.compactedIds != [] then Failure(Unexpected)
      else Success(first)
    case CompactStreamObject(_, _, req, _) =>
      if req.objectId != NOOP_OBJECT_ID && req.objectId !in req.sourceIds then Failure(Redundant) else Success(first)
    case ExpirePreparedObjects(_) => Success(Count(0))
    case DeleteKv(_) => Success(Value(None))
    case _ => Success(first)
  }

  lemma CommitRetryReply(s: MetadataState, c: Command)
    requires c.CommitStreamSetObject? && ApplyCommand(s, c).Ok?
    ensures ReplyOf(ApplyCommand(Step(s, c), c)) == SecondReply(ApplyCommand(s, c).result, c)
  {
    CommitRegisters(s, c);
    var req := c.commit;
    if req.objectId == NOOP_OBJECT_ID && req.streamObjects == [] {
      if req.compactedIds != [] {
        CompactedGone(s, c);
      } else {
        assert DropCompacted(s, []) == s;
      }
    }
  }

  lemma CompactRetryReply(s: MetadataState, c: Command)
    requires c.CompactStreamObject? && ApplyCommand(s, c).Ok?
    ensures ReplyOf(ApplyCommand(Step(s, c), c)) == SecondReply(ApplyCommand(s, c).result, c)
  {
    SourcesGone(s, c);
  }

  lemma OtherRetryReply(s: MetadataState, c: Command)
    requires UNPLACED !in s.nodes && !Allocates(c) && ApplyCommand(s, c).Ok?
    requires !c.CommitStreamSetObject? && !c.CompactStreamObject? && !c.ExpirePreparedObjects?
    ensures ReplyOf(ApplyCommand(Step(s, c), c)) == SecondReply(ApplyCommand(s, c).result, c)
  {
  }

  /** A command that does not allocate ids is told the same again when it was refused; when it was accepted,
      the answer is the first one, or says that the work is done. */
  lemma RetryReplies(s: MetadataState, c: Command)
    requires UNPLACED !in s.nodes && !Allocates(c)
    ensures
      var first := ApplyCommand(s, c);
      ReplyOf(ApplyCommand(Step(s, c), c)) == if first.Ok? then SecondReply(first.result, c) else Failure(first.error)
  {
    if ApplyCommand(s, c).Ok? {
      if c.CommitStreamSetObject? {
        CommitRetryReply(s, c);
      } else if c.CompactStreamObject? {
        CompactRetryReply(s, c);
      } else if c.ExpirePreparedObjects? {
        assert Expired(Step(s, c).leases, c.nowMs) == {};
      } else {
        OtherRetryReply(s, c);
      }
    }
  }

  /** An accepted creation or lease never repeats its answer: the second application hands out later ids. */
  lemma RetryAllocatesAgain(s: MetadataState, c: Command)
    requires Allocates(c) && ApplyCommand(s, c).Ok?
    ensures ApplyCommand(Step(s, c), c).Ok? && Step(Step(s, c), c) != Step(s, c)
    ensures ApplyCommand(s, c).result.Id? && ApplyCommand(Step(s, c), c).result.Id?
    ensures ApplyCommand(s, c).result.id < ApplyCommand(Step(s, c), c).result.id
  {
  }

  // ---- retries that arrive later, among any other commands ----

  /** The first offset a request appends at, with its stream. */
  function FirstListed(req: CommitRequest): Option<(nat, nat)> {
    if req.objectId != NOOP_OBJECT_ID && req.streamRanges != [] then
      Some((req.streamRanges[0].streamId, req.streamRanges[0].startOffset))
    else if req.streamObjects != [] then Some((req.streamObjects[0].streamId, req.streamObjects[0].startOffset))
    else None
  }

  lemma {:induction false} FirstRangeFits(rows: map<nat, StreamRow>, ranges: seq<ObjectStreamRange>)
    requires ranges != [] && AdvanceAll(rows, ranges, false).Success?
    ensures ranges[0].streamId in rows && rows[ranges[0].streamId].endOffset == ranges[0].startOffset
  {
    if |ranges| > 1 {
      FirstRangeFits(rows, ranges[..|ranges| - 1]);
    } else {
      assert ranges[..0] == [];
    }
  }

  lemma {:induction false} FirstObjectFits(s: MetadataState, os: seq<StreamObject>, dataMs: int, nowMs: int)
    requires os != [] && CommitObjects(s, os, false, dataMs, nowMs).Success?
    ensures os[0].streamId in s.streams.rows && s.streams.rows[os[0].streamId].endOffset == os[0].startOffset
  {
    if |os| > 1 {
      FirstObjectFits(s, os[..|os| - 1], dataMs, nowMs);
    } else {
      assert os[..0] == [];
    }
  }

  /** An accepted append starts exactly where its first stream ends. */
  lemma CommitFits(s: MetadataState, c: Command)
    requires Appends(c) && ApplyCommand(s, c).Ok? && FirstListed(c.commit).Some?
    ensures
      var (id, start) := FirstListed(c.commit).value;
      id in s.streams.rows && s.streams.rows[id].endOffset == start
  {
    var req := c.commit;
    assert DropCompacted(s, req.compactedIds) == s;
    if req.objectId != NOOP_OBJECT_ID && req.streamRanges != [] {
      FirstRangeFits(s.streams.rows, req.streamRanges);
    } else {
      FirstObjectFits(CommitSetIfAny(s, c.nodeId, req, false, c.nowMs, c.nowMs).value, req.streamObjects, c.nowMs,
                      c.nowMs);
    }
  }

  /** The request appends something to the stream it lists first. */
  predicate Extends(req: CommitRequest) {
    var first := FirstListed(req);
    first.Some? && LastListedEnd(req, first.value.0).Some? && first.value.1 < LastListedEnd(req, first.value.0).value
  }

  /** An append is applied at most once: on any run that moves no offset back, an accepted commit that extends its
      first stream is refused ever after, even once its objects were compacted away and its stream deleted. */
  lemma AppendAppliedOnce(commands: seq<Command>, i: nat, j: nat)
    requires i < j <= |commands| && OnwardRun(commands)
    requires Appends(commands[i]) && Extends(commands[i].commit) && Accepted(commands, i)
    ensures !ApplyCommand(At(commands, j), commands[i]).Ok?
  {
    var c := commands[i];
    var (id, start) := FirstListed(c.commit).value;
    CommitFits(At(commands, i), c);
    CommitEnds(At(commands, i), c, id);
    AtStep(commands, i);
    OffsetsOnwardOnEveryRun(commands, i + 1, j);
    if ApplyCommand(At(commands, j), c).Ok? {
      CommitFits(At(commands, j), c);
    }
  }

  /** A row from an earlier state, if it is still there, has only advanced. */
  lemma RowLater(commands: seq<Command>, i: nat, j: nat, id: nat)
    requires i <= j <= |commands| && id in At(commands, i).streams.rows && id in At(commands, j).streams.rows
    ensures RowAdvances(At(commands, i).streams.rows[id], At(commands, j).streams.rows[id])
  {
    KeysBelow(commands, i);
    RunAdvances(commands, i, j);
  }

  lemma LateOwnershipRetry(commands: seq<Command>, i: nat, j: nat)
    requires i < j <= |commands| && Accepted(commands, i)
    requires commands[i].OpenStream? || commands[i].CloseStream? || commands[i].TrimStream?
    ensures Step(At(commands, j), commands[i]) == At(commands, j)
  {
    var c, t := commands[i], At(commands, j);
    AtStep(commands, i);
    if c.streamId in t.streams.rows {
      RowLater(commands, i + 1, j, c.streamId);
      var rows := t.streams.rows;
      assert rows[c.streamId := rows[c.streamId]] == rows;
    }
  }

  /** A deletion of an id that was handed out before finds nothing, ever after. */
  lemma LateDeleteRetry(commands: seq<Command>, i: nat, j: nat)
    requires i < j <= |commands| && Accepted(commands, i)
    requires commands[i].DeleteStream? && commands[i].streamId < At(commands, i).streams.nextId
    ensures Step(At(commands, j), commands[i]) == At(commands, j)
  {
    var id := commands[i].streamId;
    AtStep(commands, i);
    KeysBelow(commands, i);
    RunAdvances(commands, i, i + 1);
    RunAdvances(commands, i + 1, j);
  }

  /** Accepted opens, closes and trims, and deletions of an id that was handed out before, may be sent again at any
      later point of any run: whatever happened in between, they change nothing. */
  lemma LateRetryChangesNothing(commands: seq<Command>, i: nat, j: nat)
    requires i < j <= |commands| && Accepted(commands, i)
    requires
      || commands[i].OpenStream? || commands[i].CloseStream? || commands[i].TrimStream?
      || (commands[i].DeleteStream? && commands[i].streamId < At(commands, i).streams.nextId)
    ensures Step(At(commands, j), commands[i]) == At(commands, j)
  {
    if commands[i].DeleteStream? {
      LateDeleteRetry(commands, i, j);
    } else {
      LateOwnershipRetry(commands, i, j);
    }
  }

  // ---- deletions of ids not handed out yet ----

  lemma {:induction false} RunConcat(s: MetadataState, a: seq<Command>, b: seq<Command>)
    ensures Run(s, a + b) == Run(Run(s, a), b)
  {
    if b == [] {
      assert a + b == a;
    } else {
      var n := |b| - 1;
      assert (a + b)[..|a| + n] == a + b[..n];
      RunConcat(s, a, b[..n]);
    }
  }

  ghost predicate EpochsFloored(s: MetadataState) {
    forall id | id in s.streams.rows :: s.streams.rows[id].epoch >= NEVER_OPENED
  }

  lemma StepFloors(s: MetadataState, c: Command)
    requires EpochsFloored(s)
    ensures EpochsFloored(Step(s, c))
  {
    if StreamCommand(c) {
      StreamCommandFloors(s, c);
    } else if !c.CommitStreamSetObject? {
      OtherRows(s, c);
    } else if ApplyCommand(s, c).Ok? {
      CommitRows(s, c.nodeId, c.nodeEpoch, c.commit, c.nowMs);
    }
  }

  lemma StreamCommandFloors(s: MetadataState, c: Command)
    requires EpochsFloored(s) && StreamCommand(c)
    ensures EpochsFloored(Step(s, c))
  {
  }

  lemma {:induction false} RunFloors(commands: seq<Command>, i: nat)
    requires i <= |commands|
    ensures EpochsFloored(At(commands, i))
  {
    if i > 0 {
      RunFloors(commands, i - 1);
      AtStep(commands, i - 1);
      StepFloors(At(commands, i - 1), commands[i - 1]);
    }
  }

  /** The command is without effect at the end of every run that continues this one. */
  ghost predicate SpentAfter(commands: seq<Command>, c: Command) {
    forall more: seq<Command> :: Step(Run(EMPTY_STATE, commands + more), c) == Run(EMPTY_STATE, commands + more)
  }

  /** Creations enough to hand out an id, leaving it closed and never opened. */
  lemma {:induction false} CreateUpTo(s: MetadataState, nodeId: NodeId, nodeEpoch: int, count: nat)
    requires NodeAdmitted(s, nodeId, nodeEpoch)
    ensures
      var t := Run(s, seq(count, _ => CreateStream(nodeId, nodeEpoch)));
      && NodeAdmitted(t, nodeId, nodeEpoch) && t.streams.nextId == s.streams.nextId + count
      && forall id | InRange(s.streams.nextId, count, id) :: id in t.streams.rows && t.streams.rows[id] == FreshRow(id)
  {
    if count > 0 {
      var creates := seq(count, _ => CreateStream(nodeId, nodeEpoch));
      assert creates[..count - 1] == seq(count - 1, _ => CreateStream(nodeId, nodeEpoch));
      CreateUpTo(s, nodeId, nodeEpoch, count - 1);
    }
  }

  lemma RunTwo(s: MetadataState, a: Command, b: Command)
    ensures Run(s, [a, b]) == Step(Step(s, a), b)
  {
    var one, two := [a], [a, b];
    assert one[..0] == [] && Run(s, one) == Step(s, a);
    assert two[..1] == one;
  }

  /** A fresh stream can be brought to be closed at any epoch it may have. */
  lemma CloseAt(s: MetadataState, nodeId: NodeId, nodeEpoch: int, id: nat, epoch: int) returns (more: seq<Command>)
    requires NodeAdmitted(s, nodeId, nodeEpoch) && id in s.streams.rows && s.streams.rows[id] == FreshRow(id)
    requires epoch >= NEVER_OPENED
    ensures
      var t := Run(s, more);
      && NodeAdmitted(t, nodeId, nodeEpoch) && id in t.streams.rows
      && t.streams.rows[id].state == Closed && t.streams.rows[id].epoch == epoch
  {
    more := [];
    if epoch > NEVER_OPENED {
      more := [OpenStream(nodeId, nodeEpoch, id, epoch), CloseStream(nodeId, nodeEpoch, id, epoch)];
      RunTwo(s, more[0], more[1]);
    }
  }

  lemma DeletesNow(s: MetadataState, c: Command)
    requires c.DeleteStream? && NodeAdmitted(s, c.nodeId, c.nodeEpoch) && c.streamId in s.streams.rows
    requires s.streams.rows[c.streamId].state == Closed && s.streams.rows[c.streamId].epoch == c.epoch
    ensures Step(s, c) != s
  {
    assert c.streamId !in Step(s, c).streams.rows;
  }

  lemma EarlyDeleteReaches(s: MetadataState, c: Command) returns (more: seq<Command>)
    requires c.DeleteStream? && NodeAdmitted(s, c.nodeId, c.nodeEpoch)
    requires c.streamId >= s.streams.nextId && c.epoch >= NEVER_OPENED
    ensures Step(Run(s, more), c) != Run(s, more)
  {
    var count := c.streamId - s.streams.nextId + 1;
    var creates := seq(count, _ => CreateStream(c.nodeId, c.nodeEpoch));
    CreateUpTo(s, c.nodeId, c.nodeEpoch, count);
    assert InRange(s.streams.nextId, count, c.streamId);
    var close := CloseAt(Run(s, creates), c.nodeId, c.nodeEpoch, c.streamId, c.epoch);
    RunConcat(s, creates, close);
    more := creates + close;
    DeletesNow(Run(s, more), c);
  }

  /** An accepted deletion is without effect at every later point of every continuation if and only if its id had been
      handed out by then, or its epoch is one no stream ever has. */
  lemma DeleteSpentIff(commands: seq<Command>, i: nat)
    requires i < |commands| && commands[i].DeleteStream? && Accepted(commands, i)
    ensures SpentAfter(commands[..i + 1], commands[i]) <==>
            commands[i].streamId < At(commands, i).streams.nextId || commands[i].epoch < NEVER_OPENED
  {
    var c, done := commands[i], commands[..i + 1];
    AtStep(commands, i);
    KeysBelow(commands, i);
    if c.streamId < At(commands, i).streams.nextId || c.epoch < NEVER_OPENED {
      forall more: seq<Command> ensures Step(Run(EMPTY_STATE, done + more), c) == Run(EMPTY_STATE, done + more) {
        DeleteSpentLater(commands, i, more);
      }
    } else {
      var more := EarlyDeleteReaches(At(commands, i + 1), c);
      RunConcat(EMPTY_STATE, done, more);
    }
  }

  lemma DeleteSpentLater(commands: seq<Command>, i: nat, more: seq<Command>)
    requires i < |commands| && commands[i].DeleteStream? && Accepted(commands, i)
    requires commands[i].streamId < At(commands, i).streams.nextId || commands[i].epoch < NEVER_OPENED
    ensures
      var t := Run(EMPTY_STATE, commands[..i + 1] + more);
      Step(t, commands[i]) == t
  {
    var run := commands[..i + 1] + more;
    assert run[..i] == commands[..i] && run[i] == commands[i] && run[..|run|] == run;
    if commands[i].epoch < NEVER_OPENED {
      RunFloors(run, |run|);
    } else {
      LateDeleteRetry(run, i, |run|);
    }
  }

  // ---- compactions ----

  /** Marking changes nothing if and only if everything is already marked so. */
  lemma MarkAllIdleIff(q: DestroyedQueue, ids: seq<nat>, ops: seq<CompactOp>)
    requires QueueExact(q) && |ids| == |ops|
    ensures MarkAll(q, ids, ops) == q <==> Marked(q, ids, ops)
  {
    MarkAllMarks(q, ids, ops);
    if Marked(q, ids, ops) {
      MarkAgain(q, ids, ops, |ids|);
      assert ids[..|ids|] == ids && ops[..|ids|] == ops;
      assert MarkAll(q, ids, ops).marked == q.marked;
    }
  }

  /** The compaction adds nothing, its sources are no objects of the stream, and all of them are queued as it asks. */
  ghost predicate NothingToCompact(s: MetadataState, req: CompactRequest)
    requires |SourceOps(req)| == |req.sourceIds|
  {
    && (req.objectId == NOOP_OBJECT_ID || req.objectId in req.sourceIds) && req.objectId !in s.leases.prepared
    && (forall id | id in req.sourceIds :: !CommittedIn(s.objects, req.streamId, id))
    && Marked(s.destroyed, req.sourceIds, SourceOps(req))
  }

  lemma CompactObjectsIdle(s: MetadataState, c: Command)
    requires Inv(s) && c.CompactStreamObject? && ApplyCommand(s, c).Ok?
    requires c.compact.objectId == NOOP_OBJECT_ID || c.compact.objectId in c.compact.sourceIds
    requires forall id | id in c.compact.sourceIds :: !CommittedIn(s.objects, c.compact.streamId, id)
    ensures Step(s, c).objects == s.objects
  {
    var req, t := c.compact, s.objects;
    if req.objectId == NOOP_OBJECT_ID {
      DropNothing(t, req.streamId, req.sourceIds);
    } else {
      var o := Replacement(req);
      assert KeyOf(o) in t.rows ==> KeyOf(o).objectId in t.ids;
      DropOnlyEntry(t, KeyOf(o), AddObject(t, o, c.nowMs, c.nowMs).rows[KeyOf(o)], req.sourceIds);
    }
  }

  /** An accepted compaction changes nothing if and only if there is nothing left to compact. */
  lemma CompactIdleIff(s: MetadataState, c: Command)
    requires Inv(s) && c.CompactStreamObject? && ApplyCommand(s, c).Ok?
    ensures Step(s, c) == s <==> NothingToCompact(s, c.compact)
  {
    var req := c.compact;
    SourcesGone(s, c);
    MarkAllIdleIff(s.destroyed, req.sourceIds, SourceOps(req));
    if NothingToCompact(s, req) {
      CompactObjectsIdle(s, c);
    }
  }

  /** The node and the stream are as the compaction names them, and its range is live. */
  predicate StillCurrent(s: MetadataState, c: Command)
    requires c.CompactStreamObject?
  {
    && NodeAdmitted(s, c.nodeId, c.nodeEpoch) && c.compact.streamId in s.streams.rows
    && var row := s.streams.rows[c.compact.streamId];
       && row.epoch == EpochAsSigned(c.compact.streamEpoch)
       && row.startOffset <= c.compact.startOffset && c.compact.endOffset <= row.endOffset
  }

  /** An accepted compaction with an output changes nothing at a later point of a run if and only if node or stream
      moved on, or its output is still some object; otherwise it brings the output back. */
  lemma LateCompactRetryIff(commands: seq<Command>, i: nat, j: nat)
    requires i < j <= |commands| && commands[i].CompactStreamObject? && Accepted(commands, i)
    requires commands[i].compact.objectId != NOOP_OBJECT_ID
    requires commands[i].compact.objectId !in commands[i].compact.sourceIds
    ensures
      var s, c := At(commands, j), commands[i];
      && (Step(s, c) == s <==>
          !StillCurrent(s, c) || c.compact.objectId in s.objects.ids || c.compact.objectId in s.sets.rows)
      && (Step(s, c) != s ==> c.compact.objectId in Step(s, c).objects.ids)
  {
    var s, c := At(commands, j), commands[i];
    if ApplyCommand(s, c).Ok? {
      SourcesGone(s, c);
    }
  }
}
