/** Stream offsets only move forward, exactly as long as no commit lists a last end behind its stream's. */
module Offsets {
  import opened Bytes
  import opened Metadata
  import opened Apply
  import opened Indexes
  import opened Ownership
  import opened Coverage

  /** Every stream's live range is a range. */
  ghost predicate Ordered(rows: map<nat, StreamRow>) {
    forall id | id in rows :: rows[id].startOffset <= rows[id].endOffset
  }

  /** No surviving stream's start or end offset goes back. */
  ghost predicate Onward(a: map<nat, StreamRow>, b: map<nat, StreamRow>) {
    forall id | id in a && id in b :: a[id].startOffset <= b[id].startOffset && a[id].endOffset <= b[id].endOffset
  }

  // ---- where a commit leaves the end offsets ----

  /** The end of the last range listed for a stream. */
  function LastRangeEnd(ranges: seq<ObjectStreamRange>, id: nat): Option<nat> {
    if ranges == [] then None
    else if ranges[|ranges| - 1].streamId == id then Some(ranges[|ranges| - 1].endOffset)
    else LastRangeEnd(ranges[..|ranges| - 1], id)
  }

  function LastObjectEnd(objects: seq<StreamObject>, id: nat): Option<nat> {
    if objects == [] then None
    else if objects[|objects| - 1].streamId == id then Some(objects[|objects| - 1].endOffset)
    else LastObjectEnd(objects[..|objects| - 1], id)
  }

  /** The last end a request lists for a stream: stream objects come after the ranges,
      and the ranges count only with a stream-set object. */
  function LastListedEnd(req: CommitRequest, id: nat): Option<nat> {
    var last := LastObjectEnd(req.streamObjects, id);
    if last.Some? then last
    else if req.objectId == NOOP_OBJECT_ID then None
    else LastRangeEnd(req.streamRanges, id)
  }

  function EndOr(last: Option<nat>, current: nat): nat {
    if last.Some? then last.value else current
  }

  lemma {:induction false} AdvanceAllEnds(rows: map<nat, StreamRow>, ranges: seq<ObjectStreamRange>, id: nat)
    requires AdvanceAll(rows, ranges, false).Success? && id in rows
    ensures
      var after := AdvanceAll(rows, ranges, false).value;
      id in after && after[id].endOffset == EndOr(LastRangeEnd(ranges, id), rows[id].endOffset)
  {
    if ranges != [] {
      AdvanceAllEnds(rows, ranges[..|ranges| - 1], id);
    }
  }

  lemma {:induction false} CommitObjectsEnds(s: MetadataState, os: seq<StreamObject>, dataMs: int, nowMs: int, id: nat)
    requires CommitObjects(s, os, false, dataMs, nowMs).Success? && id in s.streams.rows
    ensures
      var after := CommitObjects(s, os, false, dataMs, nowMs).value.streams.rows;
      id in after && after[id].endOffset == EndOr(LastObjectEnd(os, id), s.streams.rows[id].endOffset)
  {
    if os != [] {
      CommitObjectsEnds(s, os[..|os| - 1], dataMs, nowMs, id);
    }
  }

  predicate Appends(c: Command) {
    c.CommitStreamSetObject? && c.commit.compactedIds == []
  }

  /** An accepted appending commit leaves each stream at the last end it lists for it. */
  lemma CommitEnds(s: MetadataState, c: Command, id: nat)
    requires Appends(c) && ApplyCommand(s, c).Ok? && id in s.streams.rows
    ensures
      var after := Step(s, c).streams.rows;
      var row, last := s.streams.rows[id], LastListedEnd(c.commit, id);
      id in after && after[id] == row.(endOffset := EndOr(last, row.endOffset))
  {
    var req := c.commit;
    assert DropCompacted(s, req.compactedIds) == s;
    var inserted := CommitSetIfAny(s, c.nodeId, req, false, c.nowMs, c.nowMs).value;
    if req.objectId != NOOP_OBJECT_ID {
      AdvanceAllEnds(s.streams.rows, req.streamRanges, id);
    }
    CommitObjectsEnds(inserted, req.streamObjects, c.nowMs, c.nowMs, id);
    CommitRows(s, c.nodeId, c.nodeEpoch, req, c.nowMs);
  }

  /** For every stream, the last end the request lists is not below where the stream ends. */
  ghost predicate EndsOnward(rows: map<nat, StreamRow>, req: CommitRequest) {
    forall id | id in rows && LastListedEnd(req, id).Some? :: rows[id].endOffset <= LastListedEnd(req, id).value
  }

  /** An accepted appending commit moves no offset back if and only if no last listed end is behind its stream's. */
  lemma CommitOnwardIff(s: MetadataState, c: Command)
    requires Appends(c) && ApplyCommand(s, c).Ok?
    ensures Onward(s.streams.rows, Step(s, c).streams.rows) <==> EndsOnward(s.streams.rows, c.commit)
  {
    forall id | id in s.streams.rows {
      CommitEnds(s, c, id);
    }
  }

  /** A compacting commit touches no stream row. */
  lemma CompactingCommitRows(s: MetadataState, c: Command)
    requires c.CommitStreamSetObject? && !Appends(c) && ApplyCommand(s, c).Ok?
    ensures Step(s, c).streams.rows == s.streams.rows
  {
    var req := c.commit;
    var dataMs := DataTime(s.sets, req.compactedIds, c.nowMs);
    var inserted := CommitSetIfAny(DropCompacted(s, req.compactedIds), c.nodeId, req, true, dataMs, c.nowMs).value;
    if req.objectId != NOOP_OBJECT_ID {
      CompactAdvance(s.streams.rows, req.streamRanges);
    }
    CompactObjectsAt(inserted, req.streamObjects, dataMs, c.nowMs, OffsetKey(0, 0, 0));
  }

  lemma StreamCommandOnward(s: MetadataState, c: Command)
    requires StreamCommand(c) && forall id :: id in s.streams.rows ==> id < s.streams.nextId
    ensures Onward(s.streams.rows, Step(s, c).streams.rows)
    ensures Ordered(s.streams.rows) ==> Ordered(Step(s, c).streams.rows)
  {
  }

  /** Apart from commits and stream commands, only deletion touches rows, and only to remove one. */
  lemma OtherRows(s: MetadataState, c: Command)
    requires !StreamCommand(c) && !c.CommitStreamSetObject?
    ensures Step(s, c).streams.rows == s.streams.rows
            || (c.DeleteStream? && Step(s, c).streams.rows == s.streams.rows - {c.streamId})
  {
  }

  /** The command is not an accepted append whose last listed end is behind a stream's. */
  ghost predicate StepsOnward(s: MetadataState, c: Command) {
    Appends(c) && ApplyCommand(s, c).Ok? ==> EndsOnward(s.streams.rows, c.commit)
  }

  /** The exact condition, for every command. */
  lemma StepOnwardIff(s: MetadataState, c: Command)
    requires forall id :: id in s.streams.rows ==> id < s.streams.nextId
    ensures Onward(s.streams.rows, Step(s, c).streams.rows) <==> StepsOnward(s, c)
    ensures Ordered(s.streams.rows) && StepsOnward(s, c) ==> Ordered(Step(s, c).streams.rows)
  {
    if StreamCommand(c) {
      StreamCommandOnward(s, c);
    } else if !c.CommitStreamSetObject? {
      OtherRows(s, c);
    } else if ApplyCommand(s, c).Ok? {
      if Appends(c) {
        CommitOnwardIff(s, c);
        CommitRows(s, c.nodeId, c.nodeEpoch, c.commit, c.nowMs);
      } else {
        CompactingCommitRows(s, c);
      }
    }
  }

  // ---- every run ----

  /** A stream present before and after was present in between, so offsets chain. */
  lemma OnwardThrough(a: StreamTable, b: StreamTable, c: StreamTable)
    requires Onward(a.rows, b.rows) && Onward(b.rows, c.rows) && StreamsAdvance(a, b) && StreamsAdvance(b, c)
    requires forall id :: id in a.rows ==> id < a.nextId
    ensures Onward(a.rows, c.rows)
  {
  }

  ghost predicate OnwardRun(commands: seq<Command>) {
    forall k | 0 <= k < |commands| :: StepsOnward(At(commands, k), commands[k])
  }

  /** Over any such run every live range stays a range and no offset goes back. */
  lemma {:induction false} OffsetsOnwardOnEveryRun(commands: seq<Command>, i: nat, j: nat)
    requires i <= j <= |commands| && OnwardRun(commands)
    ensures Ordered(At(commands, j).streams.rows) && Onward(At(commands, i).streams.rows, At(commands, j).streams.rows)
    decreases j
  {
    if j > 0 {
      OffsetsOnwardOnEveryRun(commands, if i < j then i else j - 1, j - 1);
      KeysBelow(commands, j - 1);
      AtStep(commands, j - 1);
      StepOnwardIff(At(commands, j - 1), commands[j - 1]);
      if i < j {
        RunAdvances(commands, i, j - 1);
        RunAdvances(commands, j - 1, j);
        KeysBelow(commands, i);
        OnwardThrough(At(commands, i).streams, At(commands, j - 1).streams, At(commands, j).streams);
      }
    }
  }

  /** No offset ever goes back along the run. */
  ghost predicate NeverBack(commands: seq<Command>) {
    forall i, j | 0 <= i <= j <= |commands| :: Onward(At(commands, i).streams.rows, At(commands, j).streams.rows)
  }

  /** A run moves no offset back if and only if none of its commits lists a last end behind its stream's. */
  lemma RunOnwardIff(commands: seq<Command>)
    ensures NeverBack(commands) <==> OnwardRun(commands)
  {
    if OnwardRun(commands) {
      forall i, j | 0 <= i <= j <= |commands|
        ensures Onward(At(commands, i).streams.rows, At(commands, j).streams.rows)
      {
        OffsetsOnwardOnEveryRun(commands, i, j);
      }
    }
    if NeverBack(commands) {
      forall k | 0 <= k < |commands| ensures StepsOnward(At(commands, k), commands[k]) {
        KeysBelow(commands, k);
        AtStep(commands, k);
        assert Onward(At(commands, k).streams.rows, At(commands, k + 1).streams.rows);
        StepOnwardIff(At(commands, k), commands[k]);
      }
    }
  }

  // ---- a condition on the request alone ----

  /** What an appending commit lists does not end before it starts. */
  predicate ForwardRanges(c: Command) {
    Appends(c) ==>
      && (forall r | r in c.commit.streamRanges :: r.startOffset <= r.endOffset)
      && forall o | o in c.commit.streamObjects :: o.startOffset <= o.endOffset
  }

  lemma {:induction false} AdvanceAllOnward(rows: map<nat, StreamRow>, ranges: seq<ObjectStreamRange>)
    requires forall r | r in ranges :: r.startOffset <= r.endOffset
    ensures var r := AdvanceAll(rows, ranges, false); r.Success? ==> r.value.Keys == rows.Keys && Onward(rows, r.value)
  {
    if ranges != [] {
      var n := |ranges| - 1;
      assert ranges[n] in ranges;
      AdvanceAllOnward(rows, ranges[..n]);
    }
  }

  lemma {:induction false} CommitObjectsOnward(s: MetadataState, os: seq<StreamObject>, dataMs: int, nowMs: int)
    requires forall o | o in os :: o.startOffset <= o.endOffset
    ensures
      var r := CommitObjects(s, os, false, dataMs, nowMs);
      r.Success? ==> r.value.streams.rows.Keys == s.streams.rows.Keys && Onward(s.streams.rows, r.value.streams.rows)
  {
    if os != [] {
      var n := |os| - 1;
      assert os[n] in os;
      CommitObjectsOnward(s, os[..n], dataMs, nowMs);
    }
  }

  /** Forward ranges are enough, whatever the state; they are not needed, since a later range may make up for a
      backward one. */
  lemma ForwardSuffices(s: MetadataState, c: Command)
    requires ForwardRanges(c)
    ensures StepsOnward(s, c)
  {
    if Appends(c) && ApplyCommand(s, c).Ok? {
      var req := c.commit;
      assert DropCompacted(s, req.compactedIds) == s;
      AdvanceAllOnward(s.streams.rows, req.streamRanges);
      CommitObjectsOnward(CommitSetIfAny(s, c.nodeId, req, false, c.nowMs, c.nowMs).value, req.streamObjects,
                          c.nowMs, c.nowMs);
      CommitOnwardIff(s, c);
    }
  }
}
