/** Object ids move prepared -> committed -> destroyed and are in one stage at a time. */
module Lifecycle {
  import opened Metadata
  import opened Apply
  import opened Indexes
  import opened Ownership

  function ToSet(ids: seq<nat>): set<nat> {
    set id | id in ids
  }

  function ObjectIds(objects: seq<StreamObject>): (ids: seq<nat>)
    ensures |ids| == |objects|
  {
    seq(|objects|, i requires 0 <= i < |objects| => objects[i].objectId)
  }

  // ---- what each fold does to the id sets ----

  lemma SnocSet(ids: seq<nat>)
    requires ids != []
    ensures ToSet(ids) == ToSet(ids[..|ids| - 1]) + {ids[|ids| - 1]}
  {
    assert ids == ids[..|ids| - 1] + [ids[|ids| - 1]];
  }

  lemma {:induction false} MarkAllIds(q: DestroyedQueue, ids: seq<nat>, ops: seq<CompactOp>)
    requires |ops| == |ids|
    ensures MarkAll(q, ids, ops).byId.Keys == q.byId.Keys + ToSet(ids)
  {
    if ids != [] {
      SnocSet(ids);
      MarkAllIds(q, ids[..|ids| - 1], ops[..|ids| - 1]);
    }
  }

  lemma {:induction false} CleanAllIds(q: DestroyedQueue, ids: seq<nat>)
    ensures CleanAll(q, ids).byId.Keys == q.byId.Keys - ToSet(ids)
  {
    if ids != [] {
      SnocSet(ids);
      CleanAllIds(q, ids[..|ids| - 1]);
    }
  }

  lemma {:induction false} RemoveSetsIds(t: SetTable, ids: seq<nat>)
    ensures RemoveSets(t, ids).rows.Keys == t.rows.Keys - ToSet(ids)
  {
    if ids != [] {
      SnocSet(ids);
      RemoveSetsIds(t, ids[..|ids| - 1]);
    }
  }

  lemma {:induction false} DropSourcesIds(t: ObjectTable, streamId: nat, ids: seq<nat>)
    ensures DropSources(t, streamId, ids).ids.Keys == t.ids.Keys - (set id | id in ids && CommittedIn(t, streamId, id))
    ensures forall id :: id in DropSources(t, streamId, ids).ids ==> DropSources(t, streamId, ids).ids[id] == t.ids[id]
  {
    if ids != [] {
      assert ids == ids[..|ids| - 1] + [ids[|ids| - 1]];
      DropSourcesIds(t, streamId, ids[..|ids| - 1]);
    }
  }

  lemma CommitObjectIds(s: MetadataState, o: StreamObject, compact: bool, dataMs: int, nowMs: int)
    ensures
      var r := CommitObject(s, o, compact, dataMs, nowMs);
      r.Success? ==>
        && r.value.objects.ids.Keys == s.objects.ids.Keys + {o.objectId}
        && r.value.leases.prepared.Keys == s.leases.prepared.Keys - {o.objectId}
        && r.value.leases.nextId == s.leases.nextId
        && r.value.sets == s.sets && r.value.destroyed == s.destroyed && o.objectId !in s.sets.rows
  {
  }

  lemma {:induction false} CommitObjectsIds(
      s: MetadataState, objects: seq<StreamObject>, compact: bool, dataMs: int, nowMs: int)
    ensures
      var r := CommitObjects(s, objects, compact, dataMs, nowMs);
      r.Success? ==>
        && r.value.objects.ids.Keys == s.objects.ids.Keys + ToSet(ObjectIds(objects))
        && r.value.leases.prepared.Keys == s.leases.prepared.Keys - ToSet(ObjectIds(objects))
        && r.value.leases.nextId == s.leases.nextId
        && r.value.sets == s.sets && r.value.destroyed == s.destroyed
        && ToSet(ObjectIds(objects)) !! s.sets.rows.Keys
  {
    if objects != [] {
      var n := |objects| - 1;
      CommitObjectsIds(s, objects[..n], compact, dataMs, nowMs);
      SnocSet(ObjectIds(objects));
      assert ObjectIds(objects)[..n] == ObjectIds(objects[..n]);
      var before := CommitObjects(s, objects[..n], compact, dataMs, nowMs);
      if before.Success? {
        CommitObjectIds(before.value, objects[n], compact, dataMs, nowMs);
      }
    }
  }

  // ---- well-formed requests ----

  /** Ids a command commits. */
  function CommitsIds(c: Command): seq<nat> {
    match c
    case CommitStreamSetObject(_, _, req, _) =>
      SetIds(req) + ObjectIds(req.streamObjects)
    case CompactStreamObject(_, _, req, _) => if req.objectId == NOOP_OBJECT_ID then [] else [req.objectId]
    case _ => []
  }

  /** Commits use ids that were leased and never committed before, each once;
      compaction sources are stream objects of the compacted stream. */
  ghost predicate WellFormed(s: MetadataState, ever: set<nat>, c: Command) {
    var ids := CommitsIds(c);
    && (forall id :: id in ids ==> id < s.leases.nextId && id !in ever)
    && (forall i, j :: 0 <= i < j < |ids| ==> ids[i] != ids[j])
    && (c.CompactStreamObject? ==>
          forall id :: id in c.compact.sourceIds ==> CommittedIn(s.objects, c.compact.streamId, id))
  }

  /** Ids committed by the accepted commands of a run. */
  ghost function EverCommitted(commands: seq<Command>, i: nat): set<nat>
    requires i <= |commands|
  {
    if i == 0 then {}
    else EverCommitted(commands, i - 1) + (if Accepted(commands, i - 1) then ToSet(CommitsIds(commands[i - 1])) else {})
  }

  ghost predicate WellFormedRun(commands: seq<Command>) {
    forall i :: 0 <= i < |commands| ==> WellFormed(At(commands, i), EverCommitted(commands, i), commands[i])
  }

  // ---- disjoint stages ----

  /** No id is leased, committed (as either kind) and queued for cleanup at the same time. */
  ghost predicate Disjoint(s: MetadataState) {
    && s.leases.prepared.Keys !! s.sets.rows.Keys
    && s.leases.prepared.Keys !! s.objects.ids.Keys
    && s.leases.prepared.Keys !! s.destroyed.byId.Keys
    && s.sets.rows.Keys !! s.objects.ids.Keys
    && s.sets.rows.Keys !! s.destroyed.byId.Keys
    && s.objects.ids.Keys !! s.destroyed.byId.Keys
  }

  ghost predicate Staged(s: MetadataState, ever: set<nat>) {
    && Disjoint(s)
    && s.sets.rows.Keys <= ever && s.objects.ids.Keys <= ever && s.destroyed.byId.Keys <= ever
    && s.leases.prepared.Keys !! ever
    && (forall id :: id in ever ==> id < s.leases.nextId)
    && (forall id :: id in s.leases.prepared ==> id < s.leases.nextId)
  }

  function SetIds(req: CommitRequest): seq<nat> {
    if req.objectId == NOOP_OBJECT_ID then [] else [req.objectId]
  }

  /** Where a commit moves ids. */
  lemma CommitMoves(s: MetadataState, c: Command)
    requires c.CommitStreamSetObject? && ApplyCommand(s, c).Ok?
    ensures
      var t, req := Step(s, c), c.commit;
      var new1, new2, gone := ToSet(SetIds(req)), ToSet(ObjectIds(req.streamObjects)), ToSet(req.compactedIds);
      && gone <= s.sets.rows.Keys
      && t.sets.rows.Keys == s.sets.rows.Keys - gone + new1
      && t.objects.ids.Keys == s.objects.ids.Keys + new2
      && t.leases.prepared.Keys == s.leases.prepared.Keys - new1 - new2
      && t.leases.nextId == s.leases.nextId
      && t.destroyed.byId.Keys == s.destroyed.byId.Keys + gone
  {
    var req := c.commit;
    var compact := req.compactedIds != [];
    var dataMs := DataTime(s.sets, req.compactedIds, c.nowMs);
    var dropped := DropCompacted(s, req.compactedIds);
    RemoveSetsIds(s.sets, req.compactedIds);
    MarkAllIds(s.destroyed, req.compactedIds, Deletes(|req.compactedIds|));
    var inserted := CommitSetIfAny(dropped, c.nodeId, req, compact, dataMs, c.nowMs).value;
    assert inserted.sets.rows.Keys == dropped.sets.rows.Keys + ToSet(SetIds(req));
    assert inserted.leases.prepared.Keys == s.leases.prepared.Keys - ToSet(SetIds(req));
    CommitObjectsIds(inserted, req.streamObjects, compact, dataMs, c.nowMs);
  }

  lemma CommitStages(s: MetadataState, ever: set<nat>, c: Command)
    requires Staged(s, ever) && c.CommitStreamSetObject? && ApplyCommand(s, c).Ok? && WellFormed(s, ever, c)
    ensures Staged(Step(s, c), ever + ToSet(CommitsIds(c)))
  {
    CommitMoves(s, c);
    CommittedIdsSplit(c);
    assert forall id :: id in ToSet(CommitsIds(c)) <==> id in CommitsIds(c);
  }

  /** The ids of a commit with distinct ids: its stream-set object's and, apart from it, its stream objects'. */
  lemma CommittedIdsSplit(c: Command)
    requires c.CommitStreamSetObject?
    requires forall i, j :: 0 <= i < j < |CommitsIds(c)| ==> CommitsIds(c)[i] != CommitsIds(c)[j]
    ensures
      var a, b := ToSet(SetIds(c.commit)), ToSet(ObjectIds(c.commit.streamObjects));
      ToSet(CommitsIds(c)) == a + b && a !! b
  {
    var a, b := SetIds(c.commit), ObjectIds(c.commit.streamObjects);
    assert CommitsIds(c) == a + b;
    forall i, j | 0 <= i < |a| && 0 <= j < |b| ensures a[i] != b[j] {
      assert CommitsIds(c)[i] == a[i] && CommitsIds(c)[|a| + j] == b[j];
    }
  }

  lemma CompactStages(s: MetadataState, ever: set<nat>, c: Command)
    requires Staged(s, ever) && c.CompactStreamObject? && ApplyCommand(s, c).Ok? && WellFormed(s, ever, c)
    ensures Staged(Step(s, c), ever + ToSet(CommitsIds(c)))
  {
    var req := c.compact;
    MarkAllIds(s.destroyed, req.sourceIds, SourceOps(req));
    DropSourcesIds(WithReplacement(s.objects, req, c.nowMs), req.streamId, req.sourceIds);
    assert forall id :: id in ToSet(req.sourceIds) ==> CommittedIn(s.objects, req.streamId, id);
    assert forall id :: id in CommitsIds(c) <==> id in ToSet(CommitsIds(c));
  }

  lemma IdsOfKeys(asc: seq<OffsetKey>, keys: set<OffsetKey>)
    requires forall k :: k in asc <==> k in keys
    ensures ToSet(IdsOf(asc)) == set k | k in keys :: k.objectId
  {
    var ids := IdsOf(asc);
    forall id | id in ids ensures id in (set k | k in keys :: k.objectId) {
      var i :| 0 <= i < |ids| && ids[i] == id;
      assert asc[i] in asc;
    }
    forall k | k in keys ensures k.objectId in ids {
      assert k in asc;
      var i :| 0 <= i < |asc| && asc[i] == k;
      assert ids[i] == k.objectId;
    }
  }

  lemma DeleteStages(s: MetadataState, ever: set<nat>, c: Command)
    requires Inv(s) && Staged(s, ever) && c.DeleteStream? && ApplyCommand(s, c).Ok?
    ensures Staged(Step(s, c), ever)
  {
    if c.streamId in s.streams.rows {
      var keys := KeysOfStream(s.objects, c.streamId);
      var asc := AscendingKeys(keys);
      var ids := IdsOf(asc);
      MarkAllIds(s.destroyed, ids, Deletes(|ids|));
      IdsOfKeys(asc, keys);
    }
  }

  lemma OtherStages(s: MetadataState, ever: set<nat>, c: Command)
    requires Staged(s, ever) && ApplyCommand(s, c).Ok?
    requires !c.CommitStreamSetObject? && !c.CompactStreamObject? && !c.DeleteStream?
    ensures Staged(Step(s, c), ever)
  {
    if c.CleanDestroyedObjects? {
      CleanAllIds(s.destroyed, c.objectIds);
    }
  }

  lemma StepStages(s: MetadataState, ever: set<nat>, c: Command)
    requires Inv(s) && Staged(s, ever) && WellFormed(s, ever, c)
    ensures Staged(Step(s, c), ever + if ApplyCommand(s, c).Ok? then ToSet(CommitsIds(c)) else {})
  {
    if ApplyCommand(s, c).Ok? {
      if c.CommitStreamSetObject? {
        CommitStages(s, ever, c);
      } else if c.CompactStreamObject? {
        CompactStages(s, ever, c);
      } else {
        if c.DeleteStream? {
          DeleteStages(s, ever, c);
        } else {
          OtherStages(s, ever, c);
        }
        assert CommitsIds(c) == [];
        assert ever + ToSet(CommitsIds(c)) == ever;
      }
    } else {
      assert ever + {} == ever;
    }
  }

  /** On every well-formed run the four stages stay pairwise disjoint,
      so the cleanup queue never offers a live object. */
  lemma {:induction false} StagesDisjointOnEveryRun(commands: seq<Command>, i: nat)
    requires i <= |commands| && WellFormedRun(commands)
    requires forall c :: c in commands ==> Registrable(c)
    ensures Staged(At(commands, i), EverCommitted(commands, i))
  {
    if i > 0 {
      StagesDisjointOnEveryRun(commands, i - 1);
      IndexesExactOnEveryRun(commands[..i - 1]);
      AtStep(commands, i - 1);
      StepStages(At(commands, i - 1), EverCommitted(commands, i - 1), commands[i - 1]);
    }
  }

  // ---- exactly when a command keeps the stages disjoint ----

  /** Every source is gone from the other stages once the compaction is applied, and the replacement is not queued. */
  ghost predicate SourcesRetired(s: MetadataState, req: CompactRequest) {
    && (req.objectId == NOOP_OBJECT_ID || req.objectId !in s.destroyed.byId || req.objectId in req.sourceIds)
    && (forall id :: id in req.sourceIds ==>
          && id !in s.sets.rows
          && (id in s.leases.prepared ==> id == req.objectId)
          && (id in s.objects.ids ==> s.objects.ids[id].streamId == req.streamId))
  }

  /** An id is a stream object after a compaction: its output or one there before, and no source of the stream. */
  ghost predicate ObjectAfter(s: MetadataState, req: CompactRequest, id: nat) {
    if req.objectId != NOOP_OBJECT_ID && id == req.objectId then id !in req.sourceIds
    else id in s.objects.ids && !(id in req.sourceIds && s.objects.ids[id].streamId == req.streamId)
  }

  lemma CompactMoves(s: MetadataState, c: Command)
    requires c.CompactStreamObject? && ApplyCommand(s, c).Ok?
    ensures
      var t, req := Step(s, c), c.compact;
      && t.leases.prepared.Keys == s.leases.prepared.Keys - {req.objectId} && t.sets == s.sets
      && (forall id :: id in t.destroyed.byId <==> id in s.destroyed.byId || id in req.sourceIds)
      && (forall id :: id in t.objects.ids <==> ObjectAfter(s, req, id))
  {
    var req := c.compact;
    MarkAllIds(s.destroyed, req.sourceIds, SourceOps(req));
    DropSourcesIds(WithReplacement(s.objects, req, c.nowMs), req.streamId, req.sourceIds);
    assert forall id :: id in ToSet(req.sourceIds) <==> id in req.sourceIds;
  }

  /** An accepted compaction keeps the stages disjoint if and only if its sources are live nowhere else. */
  lemma CompactDisjointIff(s: MetadataState, c: Command)
    requires Disjoint(s) && c.CompactStreamObject? && ApplyCommand(s, c).Ok?
    ensures Disjoint(Step(s, c)) <==> SourcesRetired(s, c.compact)
  {
    var t, req := Step(s, c), c.compact;
    CompactMoves(s, c);
    if !SourcesRetired(s, req) {
      if req.objectId != NOOP_OBJECT_ID && req.objectId in s.destroyed.byId && req.objectId !in req.sourceIds {
        assert ObjectAfter(s, req, req.objectId) && req.objectId in t.destroyed.byId;
      } else {
        var id :| id in req.sourceIds && (id in s.sets.rows || (id in s.leases.prepared && id != req.objectId)
                                          || (id in s.objects.ids && s.objects.ids[id].streamId != req.streamId));
        assert id in t.destroyed.byId;
        if id in s.objects.ids && s.objects.ids[id].streamId != req.streamId {
          assert ObjectAfter(s, req, id);
        }
      }
    }
  }

  /** The ids a commit brings to life are neither queued nor retired by the commit itself. */
  ghost predicate NewIdsUnretired(s: MetadataState, req: CommitRequest) {
    ToSet(SetIds(req)) + ToSet(ObjectIds(req.streamObjects)) !! s.destroyed.byId.Keys + ToSet(req.compactedIds)
  }

  /** What the handler does check: new ids are free where they are inserted. */
  lemma CommitIdsFree(s: MetadataState, c: Command)
    requires c.CommitStreamSetObject? && ApplyCommand(s, c).Ok?
    ensures
      var new1, new2 := ToSet(SetIds(c.commit)), ToSet(ObjectIds(c.commit.streamObjects));
      new1 !! s.sets.rows.Keys && new1 !! s.objects.ids.Keys && new2 !! Step(s, c).sets.rows.Keys
  {
    var req := c.commit;
    var compact := req.compactedIds != [];
    var dataMs := DataTime(s.sets, req.compactedIds, c.nowMs);
    var inserted := CommitSetIfAny(DropCompacted(s, req.compactedIds), c.nodeId, req, compact, dataMs, c.nowMs).value;
    CommitObjectsIds(inserted, req.streamObjects, compact, dataMs, c.nowMs);
  }

  /** An accepted commit keeps the stages disjoint if and only if none of its new ids is queued or compacted away. */
  lemma CommitDisjointIff(s: MetadataState, c: Command)
    requires Disjoint(s) && c.CommitStreamSetObject? && ApplyCommand(s, c).Ok?
    ensures Disjoint(Step(s, c)) <==> NewIdsUnretired(s, c.commit)
  {
    CommitMoves(s, c);
    CommitIdsFree(s, c);
    var t, req := Step(s, c), c.commit;
    var new1, new2 := ToSet(SetIds(req)), ToSet(ObjectIds(req.streamObjects));
    assert t.destroyed.byId.Keys == s.destroyed.byId.Keys + ToSet(req.compactedIds);
    assert new1 <= t.sets.rows.Keys && new2 <= t.objects.ids.Keys;
  }

  /** The ids about to be leased were never committed nor queued. */
  ghost predicate LeasesUnused(s: MetadataState, count: nat) {
    forall id: nat :: InRange(s.leases.nextId, count, id) ==>
      id !in s.sets.rows && id !in s.objects.ids && id !in s.destroyed.byId
  }

  /** An accepted lease keeps the stages disjoint if and only if no commit used its ids before. */
  lemma PrepareDisjointIff(s: MetadataState, c: Command)
    requires Disjoint(s) && c.PrepareObject? && ApplyCommand(s, c).Ok?
    ensures Disjoint(Step(s, c)) <==> LeasesUnused(s, c.count)
  {
    var t := Step(s, c);
    assert t.leases.prepared.Keys == s.leases.prepared.Keys + IdRange(s.leases.nextId, c.count);
  }

  lemma DeleteKeepsDisjoint(s: MetadataState, c: Command)
    requires Inv(s) && Disjoint(s) && c.DeleteStream? && ApplyCommand(s, c).Ok?
    ensures Disjoint(Step(s, c))
  {
    if c.streamId in s.streams.rows {
      var keys := KeysOfStream(s.objects, c.streamId);
      var asc := AscendingKeys(keys);
      var ids := IdsOf(asc);
      MarkAllIds(s.destroyed, ids, Deletes(|ids|));
      IdsOfKeys(asc, keys);
    }
  }

  lemma OtherKeepsDisjoint(s: MetadataState, c: Command)
    requires Disjoint(s) && ApplyCommand(s, c).Ok?
    requires !c.CommitStreamSetObject? && !c.CompactStreamObject? && !c.PrepareObject? && !c.DeleteStream?
    ensures Disjoint(Step(s, c))
  {
    if c.CleanDestroyedObjects? {
      CleanAllIds(s.destroyed, c.objectIds);
    }
  }

  /** What the handlers leave to their callers. */
  ghost predicate StageRule(s: MetadataState, c: Command) {
    ApplyCommand(s, c).Ok? ==>
      match c
      case CommitStreamSetObject(_, _, req, _) => NewIdsUnretired(s, req)
      case CompactStreamObject(_, _, req, _) => SourcesRetired(s, req)
      case PrepareObject(_, _, count, _, _) => LeasesUnused(s, count)
      case _ => true
  }

  /** A command keeps the stages disjoint if and only if it follows the rule. */
  lemma StepDisjointIff(s: MetadataState, c: Command)
    requires Inv(s) && Disjoint(s)
    ensures Disjoint(Step(s, c)) <==> StageRule(s, c)
  {
    if ApplyCommand(s, c).Ok? {
      match c
      case CommitStreamSetObject(_, _, _, _) => CommitDisjointIff(s, c);
      case CompactStreamObject(_, _, _, _) => CompactDisjointIff(s, c);
      case PrepareObject(_, _, _, _, _) => PrepareDisjointIff(s, c);
      case DeleteStream(_, _, _, _) => DeleteKeepsDisjoint(s, c);
      case _ => OtherKeepsDisjoint(s, c);
    }
  }

  lemma RunStepDisjointIff(commands: seq<Command>, i: nat)
    requires i < |commands| && (forall c :: c in commands ==> Registrable(c)) && Disjoint(At(commands, i))
    ensures Disjoint(At(commands, i + 1)) <==> StageRule(At(commands, i), commands[i])
  {
    IndexesExactOnEveryRun(commands[..i]);
    AtStep(commands, i);
    StepDisjointIff(At(commands, i), commands[i]);
  }

  ghost predicate FollowsRule(commands: seq<Command>, n: nat)
    requires n <= |commands|
  {
    forall i | 0 <= i < n :: StageRule(At(commands, i), commands[i])
  }

  lemma {:induction false} RuleDisjoint(commands: seq<Command>, n: nat, i: nat)
    requires i <= n <= |commands| && (forall c :: c in commands ==> Registrable(c)) && FollowsRule(commands, n)
    ensures Disjoint(At(commands, i))
  {
    if i > 0 {
      RuleDisjoint(commands, n, i - 1);
      RunStepDisjointIff(commands, i - 1);
    }
  }

  ghost predicate DisjointThroughout(commands: seq<Command>, n: nat)
    requires n <= |commands|
  {
    forall i | 0 <= i <= n :: Disjoint(At(commands, i))
  }

  /** A run keeps the stages disjoint throughout if and only if all its commands follow the rule. */
  lemma RunDisjointIff(commands: seq<Command>, n: nat)
    requires n <= |commands| && forall c :: c in commands ==> Registrable(c)
    ensures DisjointThroughout(commands, n) <==> FollowsRule(commands, n)
  {
    if FollowsRule(commands, n) {
      forall i | 0 <= i <= n ensures Disjoint(At(commands, i)) {
        RuleDisjoint(commands, n, i);
      }
    }
    if DisjointThroughout(commands, n) {
      forall i | 0 <= i < n ensures StageRule(At(commands, i), commands[i]) {
        assert Disjoint(At(commands, i)) && Disjoint(At(commands, i + 1));
        RunStepDisjointIff(commands, i);
      }
    }
  }

  // ---- queue order ----

  /** Ids that stay queued keep their position; new ones go to the back. */
  ghost predicate FifoKept(q: DestroyedQueue, r: DestroyedQueue) {
    && q.nextSeq <= r.nextSeq
    && forall id :: id in r.byId ==> if id in q.byId then r.byId[id] == q.byId[id] else r.byId[id] >= q.nextSeq
  }

  lemma {:induction false} MarkAllFifo(q: DestroyedQueue, ids: seq<nat>, ops: seq<CompactOp>)
    requires |ops| == |ids|
    ensures FifoKept(q, MarkAll(q, ids, ops)) && q.byId.Keys <= MarkAll(q, ids, ops).byId.Keys
  {
    if ids != [] {
      MarkAllFifo(q, ids[..|ids| - 1], ops[..|ids| - 1]);
    }
  }

  lemma {:induction false} CleanAllFifo(q: DestroyedQueue, ids: seq<nat>)
    ensures FifoKept(q, CleanAll(q, ids))
  {
    if ids != [] {
      CleanAllFifo(q, ids[..|ids| - 1]);
    }
  }

  /** No command reorders the cleanup queue. */
  lemma StepFifo(s: MetadataState, c: Command)
    ensures FifoKept(s.destroyed, Step(s, c).destroyed)
  {
    if ApplyCommand(s, c).Ok? {
      match c
      case DeleteStream(_, _, id, _) =>
        var ids := IdsOf(AscendingKeys(KeysOfStream(s.objects, id)));
        MarkAllFifo(s.destroyed, ids, Deletes(|ids|));
      case CommitStreamSetObject(n, e, req, now) =>
        CommitFrame(s, n, e, req, now);
        MarkAllFifo(s.destroyed, req.compactedIds, Deletes(|req.compactedIds|));
      case CompactStreamObject(_, _, req, _) => MarkAllFifo(s.destroyed, req.sourceIds, SourceOps(req));
      case CleanDestroyedObjects(ids) => CleanAllFifo(s.destroyed, ids);
      case _ => if StreamCommand(c) { StreamCommandFrame(s, c); }
    }
  }

  lemma RunStepFifo(commands: seq<Command>, i: nat)
    requires i < |commands|
    ensures FifoKept(At(commands, i).destroyed, At(commands, i + 1).destroyed)
  {
    AtStep(commands, i);
    StepFifo(At(commands, i), commands[i]);
  }

  /** Over a run, an id that stays queued keeps its position, however often it is re-marked. */
  lemma {:induction false} RemarkKeepsPosition(commands: seq<Command>, i: nat, j: nat, id: nat)
    requires i <= j <= |commands|
    requires forall k :: i <= k <= j ==> id in At(commands, k).destroyed.byId
    ensures At(commands, i).destroyed.byId[id] == At(commands, j).destroyed.byId[id]
    decreases j - i
  {
    if i < j {
      RemarkKeepsPosition(commands, i, j - 1, id);
      RunStepFifo(commands, j - 1);
    }
  }
}
