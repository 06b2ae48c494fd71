/** Every live offset of a stream lies in a committed object. */
module Coverage {
  import opened Bytes
  import opened Metadata
  import opened Apply
  import opened Indexes
  import opened Ownership
  import opened Lifecycle

  function EndOf(meta: ObjectMeta): nat {
    if meta.ranges == [] then 0 else meta.ranges[0].endOffset
  }

  predicate SetHolds(t: SetTable, k: OffsetKey, o: nat) {
    k in t.ranges && k.start <= o < t.ranges[k]
  }

  predicate ObjectHolds(t: ObjectTable, k: OffsetKey, o: nat) {
    k in t.rows && k.start <= o < EndOf(t.rows[k])
  }

  /** Some indexed range of the stream contains the offset. */
  ghost predicate Covered(s: MetadataState, streamId: nat, o: nat) {
    exists k: OffsetKey :: k.streamId == streamId && (SetHolds(s.sets, k, o) || ObjectHolds(s.objects, k, o))
  }

  predicate Live(rows: map<nat, StreamRow>, streamId: nat, o: nat) {
    streamId in rows && rows[streamId].startOffset <= o < rows[streamId].endOffset
  }

  ghost predicate LiveCovered(s: MetadataState) {
    forall id: nat, o: nat :: Live(s.streams.rows, id, o) ==> Covered(s, id, o)
  }

  // ---- appending commits ----

  /** Some range list entry, as indexed with the last one winning, contains the offset. */
  ghost predicate RangesHold(ranges: seq<OffsetRange>, streamId: nat, o: nat) {
    exists start: nat :: RangeHolds(ranges, streamId, start, o)
  }

  predicate RangeHolds(ranges: seq<OffsetRange>, streamId: nat, start: nat, o: nat) {
    var e := LastEnd(ranges, streamId, start);
    e.Some? && start <= o < e.value
  }

  /** Appended ranges cover exactly the offsets by which streams grow. */
  lemma {:induction false} AdvanceAllCovers(rows: map<nat, StreamRow>, ranges: seq<ObjectStreamRange>, id: nat, o: nat)
    requires AdvanceAll(rows, ranges, false).Success?
    requires Live(AdvanceAll(rows, ranges, false).value, id, o)
    ensures Live(rows, id, o) || RangesHold(OffsetRanges(ranges), id, o)
    decreases |ranges|
  {
    if ranges != [] {
      var n := |ranges| - 1;
      var r, all := ranges[n], OffsetRanges(ranges);
      var before := AdvanceAll(rows, ranges[..n], false).value;
      assert all[..n] == OffsetRanges(ranges[..n]);
      if r.streamId == id && r.startOffset <= o {
        assert RangeHolds(all, id, r.startOffset, o);
      } else {
        assert Live(before, id, o);
        AdvanceAllCovers(rows, ranges[..n], id, o);
        if !Live(rows, id, o) {
          var start: nat :| RangeHolds(all[..n], id, start, o);
          assert RangeHolds(all, id, start, o);
        }
      }
    }
  }

  lemma AppendSetCovers(s: MetadataState, nodeId: NodeId, req: CommitRequest, dataMs: int, nowMs: int)
    requires Inv(s) && LiveCovered(s) && CommitSet(s, nodeId, req, false, dataMs, nowMs).Success?
    ensures LiveCovered(CommitSet(s, nodeId, req, false, dataMs, nowMs).value)
  {
    var t := CommitSet(s, nodeId, req, false, dataMs, nowMs).value;
    var ranges := OffsetRanges(req.streamRanges);
    forall id: nat, o: nat | Live(t.streams.rows, id, o) ensures Covered(t, id, o) {
      AdvanceAllCovers(s.streams.rows, req.streamRanges, id, o);
      if Live(s.streams.rows, id, o) {
        var k: OffsetKey :| k.streamId == id && (SetHolds(s.sets, k, o) || ObjectHolds(s.objects, k, o));
        IndexRangesAt(s.sets.ranges, ranges, req.objectId, k);
        assert k in s.sets.ranges ==> IndexedEnd(s.sets.rows, k).Some?;
        assert SetHolds(t.sets, k, o) || ObjectHolds(t.objects, k, o);
      } else {
        var start: nat :| RangeHolds(ranges, id, start, o);
        var k := OffsetKey(id, start, req.objectId);
        IndexRangesAt(s.sets.ranges, ranges, req.objectId, k);
        assert SetHolds(t.sets, k, o);
      }
    }
  }

  lemma AppendObjectCovers(s: MetadataState, obj: StreamObject, dataMs: int, nowMs: int)
    requires LiveCovered(s) && CommitObject(s, obj, false, dataMs, nowMs).Success?
    ensures LiveCovered(CommitObject(s, obj, false, dataMs, nowMs).value)
  {
    var t := CommitObject(s, obj, false, dataMs, nowMs).value;
    forall id: nat, o: nat | Live(t.streams.rows, id, o) ensures Covered(t, id, o) {
      if id == obj.streamId && obj.startOffset <= o {
        assert ObjectHolds(t.objects, KeyOf(obj), o);
      } else {
        assert Live(s.streams.rows, id, o);
        var k: OffsetKey :| k.streamId == id && (SetHolds(s.sets, k, o) || ObjectHolds(s.objects, k, o));
        assert SetHolds(t.sets, k, o) || ObjectHolds(t.objects, k, o);
      }
    }
  }

  lemma {:induction false} AppendObjectsCover(s: MetadataState, objects: seq<StreamObject>, dataMs: int, nowMs: int)
    requires LiveCovered(s) && CommitObjects(s, objects, false, dataMs, nowMs).Success?
    ensures LiveCovered(CommitObjects(s, objects, false, dataMs, nowMs).value)
  {
    if objects != [] {
      var n := |objects| - 1;
      AppendObjectsCover(s, objects[..n], dataMs, nowMs);
      AppendObjectCovers(CommitObjects(s, objects[..n], false, dataMs, nowMs).value, objects[n], dataMs, nowMs);
    }
  }

  /** A commit that compacts nothing keeps every live offset covered, whatever ranges it lists. */
  lemma AppendCommitCovers(s: MetadataState, c: Command)
    requires Inv(s) && LiveCovered(s) && c.CommitStreamSetObject? && c.commit.compactedIds == []
    requires ApplyCommand(s, c).Ok?
    ensures LiveCovered(Step(s, c))
  {
    var dropped := DropCompacted(s, []);
    assert dropped == s;
    if c.commit.objectId != NOOP_OBJECT_ID {
      AppendSetCovers(s, c.nodeId, c.commit, c.nowMs, c.nowMs);
    }
    AppendObjectsCover(CommitSetIfAny(s, c.nodeId, c.commit, false, c.nowMs, c.nowMs).value,
                       c.commit.streamObjects, c.nowMs, c.nowMs);
  }

  // ---- compacting commits ----

  /** The last listed object stored under a key. */
  function LastObject(objects: seq<StreamObject>, k: OffsetKey): Option<StreamObject> {
    if objects == [] then None
    else if KeyOf(objects[|objects| - 1]) == k then Some(objects[|objects| - 1])
    else LastObject(objects[..|objects| - 1], k)
  }

  lemma {:induction false} CompactObjectsAt(
      s: MetadataState, objects: seq<StreamObject>, dataMs: int, nowMs: int, k: OffsetKey)
    requires CommitObjects(s, objects, true, dataMs, nowMs).Success?
    ensures
      var t := CommitObjects(s, objects, true, dataMs, nowMs).value;
      var last := LastObject(objects, k);
      && t.sets == s.sets && t.streams == s.streams
      && if last.Some? then k in t.objects.rows && EndOf(t.objects.rows[k]) == last.value.endOffset
         else (k in t.objects.rows <==> k in s.objects.rows)
              && (k in s.objects.rows ==> t.objects.rows[k] == s.objects.rows[k])
  {
    if objects != [] {
      CompactObjectsAt(s, objects[..|objects| - 1], dataMs, nowMs, k);
    }
  }

  lemma {:induction false} CompactAdvance(rows: map<nat, StreamRow>, ranges: seq<ObjectStreamRange>)
    requires AdvanceAll(rows, ranges, true).Success?
    ensures AdvanceAll(rows, ranges, true).value == rows
  {
    if ranges != [] {
      CompactAdvance(rows, ranges[..|ranges| - 1]);
    }
  }

  lemma {:induction false} RemoveSetsRows(t: SetTable, ids: seq<nat>)
    ensures RemoveSets(t, ids).rows == t.rows - ToSet(ids)
  {
    if ids != [] {
      RemoveSetsRows(t, ids[..|ids| - 1]);
      SnocSet(ids);
    }
  }

  /** The entry leaves the index: its object is compacted away or its key is rewritten. */
  predicate RemovesSet(c: Command, k: OffsetKey) {
    c.CommitStreamSetObject? && k.objectId in c.commit.compactedIds
  }

  predicate RemovesObject(c: Command, k: OffsetKey) {
    match c
    case CommitStreamSetObject(_, _, req, _) => LastObject(req.streamObjects, k).Some?
    case CompactStreamObject(_, _, req, _) => k.streamId == req.streamId && k.objectId in req.sourceIds
    case _ => false
  }

  /** An entry the command leaves in place holds the offset. */
  ghost predicate KeptCovers(s: MetadataState, c: Command, streamId: nat, o: nat) {
    exists k: OffsetKey :: k.streamId == streamId
      && ((SetHolds(s.sets, k, o) && !RemovesSet(c, k)) || (ObjectHolds(s.objects, k, o) && !RemovesObject(c, k)))
  }

  predicate NewObjectHolds(objects: seq<StreamObject>, k: OffsetKey, o: nat) {
    var last := LastObject(objects, k);
    last.Some? && k.start <= o < last.value.endOffset
  }

  /** A range the request itself adds holds the offset. */
  ghost predicate RequestCovers(c: Command, streamId: nat, o: nat) {
    match c
    case CommitStreamSetObject(_, _, req, _) =>
      (req.objectId != NOOP_OBJECT_ID && RangesHold(OffsetRanges(req.streamRanges), streamId, o))
      || exists k: OffsetKey :: k.streamId == streamId && NewObjectHolds(req.streamObjects, k, o)
    case CompactStreamObject(_, _, req, _) =>
      req.objectId != NOOP_OBJECT_ID && req.objectId !in req.sourceIds
      && req.streamId == streamId && req.startOffset <= o < req.endOffset
    case _ => false
  }

  /** Every live offset of an entry the command removes is held by what it adds or keeps. */
  ghost predicate CompactionCovers(s: MetadataState, c: Command) {
    forall k: OffsetKey, o: nat ::
      Live(s.streams.rows, k.streamId, o)
      && ((SetHolds(s.sets, k, o) && RemovesSet(c, k)) || (ObjectHolds(s.objects, k, o) && RemovesObject(c, k)))
      ==> RequestCovers(c, k.streamId, o) || KeptCovers(s, c, k.streamId, o)
  }

  predicate Compacts(c: Command) {
    (c.CommitStreamSetObject? && c.commit.compactedIds != []) || c.CompactStreamObject?
  }

  /** After a compacting commit, an offset is covered exactly by kept entries and by the request. */
  lemma SetCompactionEntries(s: MetadataState, c: Command, k: OffsetKey)
    requires Inv(s) && c.CommitStreamSetObject? && Compacts(c) && ApplyCommand(s, c).Ok?
    ensures
      var t := Step(s, c);
      var req := c.commit;
      && t.streams == s.streams
      && t.sets.rows.Keys - {req.objectId} <= s.sets.rows.Keys
      && (forall o: nat :: SetHolds(t.sets, k, o) <==>
           (SetHolds(s.sets, k, o) && !RemovesSet(c, k))
           || (req.objectId != NOOP_OBJECT_ID && k.objectId == req.objectId
               && RangeHolds(OffsetRanges(req.streamRanges), k.streamId, k.start, o)))
      && (forall o: nat :: ObjectHolds(t.objects, k, o) <==>
           (ObjectHolds(s.objects, k, o) && !RemovesObject(c, k)) || NewObjectHolds(req.streamObjects, k, o))
  {
    var t, req := Step(s, c), c.commit;
    var dataMs := DataTime(s.sets, req.compactedIds, c.nowMs);
    var dropped := DropCompacted(s, req.compactedIds);
    var inserted := CommitSetIfAny(dropped, c.nodeId, req, true, dataMs, c.nowMs).value;
    RemoveSetsRows(s.sets, req.compactedIds);
    if req.objectId != NOOP_OBJECT_ID {
      CompactAdvance(s.streams.rows, req.streamRanges);
    }
    CompactObjectsAt(inserted, req.streamObjects, dataMs, c.nowMs, k);
    CommitKeeps(s, c.nodeId, c.nodeEpoch, req, c.nowMs);
    assert k in s.sets.ranges <==> IndexedEnd(s.sets.rows, k).Some?;
    assert k in t.sets.ranges <==> IndexedEnd(t.sets.rows, k).Some?;
    assert k.objectId in ToSet(req.compactedIds) <==> k.objectId in req.compactedIds;
  }

  lemma {:induction false} DropSourcesRows(t: ObjectTable, streamId: nat, ids: seq<nat>)
    requires ObjectsExact(t)
    ensures DropSources(t, streamId, ids).rows
            == t.rows - (set k | k in t.rows && k.streamId == streamId && k.objectId in ids)
  {
    if ids != [] {
      var n := |ids| - 1;
      DropSourcesKeeps(t, streamId, ids[..n]);
      DropSourcesRows(t, streamId, ids[..n]);
      assert ids == ids[..n] + [ids[n]];
    }
  }

  lemma ObjectCompactionEntries(s: MetadataState, c: Command, k: OffsetKey)
    requires Inv(s) && c.CompactStreamObject? && ApplyCommand(s, c).Ok?
    ensures
      var t := Step(s, c);
      var req := c.compact;
      && t.streams == s.streams && t.sets == s.sets
      && forall o: nat :: ObjectHolds(t.objects, k, o) <==>
           (ObjectHolds(s.objects, k, o) && !RemovesObject(c, k))
           || (req.objectId != NOOP_OBJECT_ID && req.objectId !in req.sourceIds && k == KeyOf(Replacement(req))
               && req.startOffset <= o < req.endOffset)
  {
    var req := c.compact;
    if req.objectId != NOOP_OBJECT_ID {
      AddObjectKeeps(s.objects, Replacement(req), c.nowMs, c.nowMs);
    }
    DropSourcesRows(WithReplacement(s.objects, req, c.nowMs), req.streamId, req.sourceIds);
  }

  lemma SetCompactionCovered(s: MetadataState, c: Command, id: nat, o: nat)
    requires Inv(s) && c.CommitStreamSetObject? && Compacts(c) && ApplyCommand(s, c).Ok?
    ensures Step(s, c).streams == s.streams
    ensures Covered(Step(s, c), id, o) <==> KeptCovers(s, c, id, o) || RequestCovers(c, id, o)
  {
    var t, req := Step(s, c), c.commit;
    forall k: OffsetKey {
      SetCompactionEntries(s, c, k);
    }
    SetCompactionEntries(s, c, OffsetKey(id, 0, 0));
    if req.objectId != NOOP_OBJECT_ID && RangesHold(OffsetRanges(req.streamRanges), id, o) {
      var start: nat :| RangeHolds(OffsetRanges(req.streamRanges), id, start, o);
      SetCompactionEntries(s, c, OffsetKey(id, start, req.objectId));
      assert SetHolds(t.sets, OffsetKey(id, start, req.objectId), o);
    }
  }

  /** What holds an offset after a compaction of stream objects was kept or is the replacement. */
  lemma ObjectCompactionOnly(s: MetadataState, c: Command, id: nat, o: nat)
    requires Inv(s) && c.CompactStreamObject? && ApplyCommand(s, c).Ok? && Covered(Step(s, c), id, o)
    ensures KeptCovers(s, c, id, o) || RequestCovers(c, id, o)
  {
    var t := Step(s, c);
    var k: OffsetKey :| k.streamId == id && (SetHolds(t.sets, k, o) || ObjectHolds(t.objects, k, o));
    ObjectCompactionEntries(s, c, k);
  }

  lemma ObjectCompactionKeeps(s: MetadataState, c: Command, id: nat, o: nat)
    requires Inv(s) && c.CompactStreamObject? && ApplyCommand(s, c).Ok? && KeptCovers(s, c, id, o)
    ensures Covered(Step(s, c), id, o)
  {
    var t := Step(s, c);
    var k: OffsetKey :| k.streamId == id
      && ((SetHolds(s.sets, k, o) && !RemovesSet(c, k)) || (ObjectHolds(s.objects, k, o) && !RemovesObject(c, k)));
    ObjectCompactionEntries(s, c, k);
    assert SetHolds(t.sets, k, o) || ObjectHolds(t.objects, k, o);
  }

  lemma ObjectCompactionCovered(s: MetadataState, c: Command, id: nat, o: nat)
    requires Inv(s) && c.CompactStreamObject? && ApplyCommand(s, c).Ok?
    ensures Step(s, c).streams == s.streams
    ensures Covered(Step(s, c), id, o) <==> KeptCovers(s, c, id, o) || RequestCovers(c, id, o)
  {
    var added := KeyOf(Replacement(c.compact));
    ObjectCompactionEntries(s, c, added);
    if Covered(Step(s, c), id, o) {
      ObjectCompactionOnly(s, c, id, o);
    }
    if KeptCovers(s, c, id, o) {
      ObjectCompactionKeeps(s, c, id, o);
    }
    if RequestCovers(c, id, o) {
      assert ObjectHolds(Step(s, c).objects, added, o);
    }
  }

  lemma CompactionCovered(s: MetadataState, c: Command, id: nat, o: nat)
    requires Inv(s) && Compacts(c) && ApplyCommand(s, c).Ok?
    ensures Step(s, c).streams == s.streams
    ensures Covered(Step(s, c), id, o) <==> KeptCovers(s, c, id, o) || RequestCovers(c, id, o)
  {
    if c.CommitStreamSetObject? {
      SetCompactionCovered(s, c, id, o);
    } else {
      ObjectCompactionCovered(s, c, id, o);
    }
  }

  /** An accepted compaction keeps every live offset covered if and only if
      the offsets of what it removes are held by what it adds or keeps. */
  lemma CompactionCoversIff(s: MetadataState, c: Command)
    requires Inv(s) && LiveCovered(s) && Compacts(c) && ApplyCommand(s, c).Ok?
    ensures LiveCovered(Step(s, c)) <==> CompactionCovers(s, c)
  {
    var t := Step(s, c);
    CompactionCovered(s, c, 0, 0);
    if CompactionCovers(s, c) {
      forall id: nat, o: nat | Live(t.streams.rows, id, o) ensures Covered(t, id, o) {
        CompactionCovered(s, c, id, o);
        assert Covered(s, id, o);
        var k: OffsetKey :| k.streamId == id && (SetHolds(s.sets, k, o) || ObjectHolds(s.objects, k, o));
      }
    }
    if LiveCovered(t) {
      forall k: OffsetKey, o: nat | Live(s.streams.rows, k.streamId, o)
        ensures RequestCovers(c, k.streamId, o) || KeptCovers(s, c, k.streamId, o)
      {
        CompactionCovered(s, c, k.streamId, o);
        assert Covered(t, k.streamId, o);
      }
    }
  }

  // ---- every other command ----

  /** Dropping the objects of one stream uncovers no other stream. */
  lemma DeleteCovers(s: MetadataState, c: Command)
    requires LiveCovered(s) && c.DeleteStream? && ApplyCommand(s, c).Ok?
    ensures LiveCovered(Step(s, c))
  {
    var t := Step(s, c);
    forall id: nat, o: nat | Live(t.streams.rows, id, o) ensures Covered(t, id, o) {
      assert Live(s.streams.rows, id, o);
      var k: OffsetKey :| k.streamId == id && (SetHolds(s.sets, k, o) || ObjectHolds(s.objects, k, o));
      assert SetHolds(t.sets, k, o) || ObjectHolds(t.objects, k, o);
    }
  }

  lemma OtherCovers(s: MetadataState, c: Command)
    requires LiveCovered(s) && ApplyCommand(s, c).Ok?
    requires !c.CommitStreamSetObject? && !c.CompactStreamObject? && !c.DeleteStream?
    ensures LiveCovered(Step(s, c))
  {
    var t := Step(s, c);
    assert t.sets == s.sets && t.objects == s.objects;
    forall id: nat, o: nat | Live(t.streams.rows, id, o) ensures Covered(t, id, o) {
      assert Live(s.streams.rows, id, o);
      var k: OffsetKey :| k.streamId == id && (SetHolds(s.sets, k, o) || ObjectHolds(s.objects, k, o));
      assert SetHolds(t.sets, k, o) || ObjectHolds(t.objects, k, o);
    }
  }

  /** A compaction that is accepted covers what it removes. */
  ghost predicate CoverRule(s: MetadataState, c: Command) {
    Compacts(c) && ApplyCommand(s, c).Ok? ==> CompactionCovers(s, c)
  }

  /** A command keeps every live offset covered if and only if it follows the rule. */
  lemma StepCoversIff(s: MetadataState, c: Command)
    requires Inv(s) && LiveCovered(s)
    ensures LiveCovered(Step(s, c)) <==> CoverRule(s, c)
  {
    if ApplyCommand(s, c).Ok? {
      if Compacts(c) {
        CompactionCoversIff(s, c);
      } else if c.CommitStreamSetObject? {
        AppendCommitCovers(s, c);
      } else if c.DeleteStream? {
        DeleteCovers(s, c);
      } else {
        OtherCovers(s, c);
      }
    }
  }

  lemma RunStepCoversIff(commands: seq<Command>, i: nat)
    requires i < |commands| && (forall c :: c in commands ==> Registrable(c)) && LiveCovered(At(commands, i))
    ensures LiveCovered(At(commands, i + 1)) <==> CoverRule(At(commands, i), commands[i])
  {
    IndexesExactOnEveryRun(commands[..i]);
    AtStep(commands, i);
    StepCoversIff(At(commands, i), commands[i]);
  }

  ghost predicate CoverRules(commands: seq<Command>) {
    forall k | 0 <= k < |commands| :: CoverRule(At(commands, k), commands[k])
  }

  /** On every run whose compactions cover what they remove,
      each offset between a stream's start and end lies in a committed object. */
  lemma {:induction false} LiveCoveredOnEveryRun(commands: seq<Command>, i: nat)
    requires i <= |commands| && (forall c :: c in commands ==> Registrable(c)) && CoverRules(commands)
    ensures LiveCovered(At(commands, i))
  {
    if i > 0 {
      LiveCoveredOnEveryRun(commands, i - 1);
      RunStepCoversIff(commands, i - 1);
    }
  }

  ghost predicate CoveredThroughout(commands: seq<Command>) {
    forall i | 0 <= i <= |commands| :: LiveCovered(At(commands, i))
  }

  /** A run keeps every live offset covered throughout if and only if its compactions cover what they remove. */
  lemma RunCoversIff(commands: seq<Command>)
    requires forall c :: c in commands ==> Registrable(c)
    ensures CoveredThroughout(commands) <==> CoverRules(commands)
  {
    if CoverRules(commands) {
      forall i | 0 <= i <= |commands| ensures LiveCovered(At(commands, i)) {
        LiveCoveredOnEveryRun(commands, i);
      }
    }
    if CoveredThroughout(commands) {
      forall k | 0 <= k < |commands| ensures CoverRule(At(commands, k), commands[k]) {
        assert LiveCovered(At(commands, k)) && LiveCovered(At(commands, k + 1));
        RunStepCoversIff(commands, k);
      }
    }
  }
}
