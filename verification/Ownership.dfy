/** Fencing: who may own a stream at an epoch, over whole runs. */
module Ownership {
  import opened Bytes
  import opened Metadata
  import opened Apply
  import opened Indexes

  /** Node id and epoch a command is gated on, if any. */
  function Gate(c: Command): Option<(NodeId, int)> {
    match c
    case CreateStream(n, e) => Some((n, e))
    case CreateStreams(n, e, _) => Some((n, e))
    case OpenStream(n, e, _, _) => Some((n, e))
    case TrimStream(n, e, _, _, _) => Some((n, e))
    case CloseStream(n, e, _, _) => Some((n, e))
    case DeleteStream(n, e, _, _) => Some((n, e))
    case PrepareObject(n, e, _, _, _) => Some((n, e))
    case CommitStreamSetObject(n, e, _, _) => Some((n, e))
    case CompactStreamObject(n, e, _, _) => Some((n, e))
    case _ => None
  }

  /** The i-th state of a run. */
  ghost function At(commands: seq<Command>, i: nat): MetadataState
    requires i <= |commands|
  {
    Run(EMPTY_STATE, commands[..i])
  }

  /** The i-th command of the run succeeds. */
  ghost predicate Accepted(commands: seq<Command>, i: nat)
    requires i < |commands|
  {
    ApplyCommand(At(commands, i), commands[i]).Ok?
  }

  lemma AtStep(commands: seq<Command>, i: nat)
    requires i < |commands|
    ensures At(commands, i + 1) == Step(At(commands, i), commands[i])
  {
    assert commands[..i + 1][..i] == commands[..i];
  }

  /** Ids only grow; a surviving row keeps its id and never loses epoch;
      an open row at an unchanged epoch was already open on the same node. */
  ghost predicate StreamsAdvance(t: StreamTable, u: StreamTable) {
    && t.nextId <= u.nextId
    && forall id :: id in u.rows ==> id >= t.nextId || (id in t.rows && RowAdvances(t.rows[id], u.rows[id]))
  }

  predicate RowAdvances(a: StreamRow, b: StreamRow) {
    && a.epoch <= b.epoch && a.startOffset <= b.startOffset
    && (a.epoch == b.epoch && b.state == Opened ==> a.state == Opened && a.nodeId == b.nodeId)
  }

  ghost predicate NodesAdvance(s: MetadataState, t: MetadataState) {
    forall n :: n in s.nodes ==> n in t.nodes && s.nodes[n].epoch <= t.nodes[n].epoch
  }

  /** Two row maps that differ in end offsets at most. */
  ghost predicate EndOffsetsOnly(a: map<nat, StreamRow>, b: map<nat, StreamRow>) {
    a.Keys == b.Keys && forall id :: id in a ==> b[id] == a[id].(endOffset := b[id].endOffset)
  }

  lemma {:induction false} AdvanceAllRows(rows: map<nat, StreamRow>, ranges: seq<ObjectStreamRange>, compact: bool)
    ensures var r := AdvanceAll(rows, ranges, compact); r.Success? ==> EndOffsetsOnly(rows, r.value)
  {
    if ranges != [] {
      AdvanceAllRows(rows, ranges[..|ranges| - 1], compact);
    }
  }

  lemma {:induction false} CommitObjectsRows(
      s: MetadataState, objects: seq<StreamObject>, compact: bool, dataMs: int, nowMs: int)
    ensures
      var r := CommitObjects(s, objects, compact, dataMs, nowMs);
      r.Success? ==> EndOffsetsOnly(s.streams.rows, r.value.streams.rows)
  {
    if objects != [] {
      var n := |objects| - 1;
      CommitObjectsRows(s, objects[..n], compact, dataMs, nowMs);
    }
  }

  /** A commit changes no stream row except its end offset. */
  lemma CommitRows(s: MetadataState, nodeId: NodeId, nodeEpoch: int, req: CommitRequest, nowMs: int)
    requires DoCommit(s, nodeId, nodeEpoch, req, nowMs).Ok?
    ensures EndOffsetsOnly(s.streams.rows, DoCommit(s, nodeId, nodeEpoch, req, nowMs).state.streams.rows)
  {
    var compact := req.compactedIds != [];
    var dataMs := DataTime(s.sets, req.compactedIds, nowMs);
    AdvanceAllRows(s.streams.rows, req.streamRanges, compact);
    CommitObjectsRows(CommitSetIfAny(DropCompacted(s, req.compactedIds), nodeId, req, compact, dataMs, nowMs).value,
                      req.streamObjects, compact, dataMs, nowMs);
  }

  lemma StreamCommandAdvances(s: MetadataState, c: Command)
    requires StreamCommand(c) && forall id :: id in s.streams.rows ==> id < s.streams.nextId
    ensures StreamsAdvance(s.streams, Step(s, c).streams)
  {
  }

  lemma StepNodesAdvance(s: MetadataState, c: Command)
    ensures NodesAdvance(s, Step(s, c))
  {
    if ApplyCommand(s, c).Ok? && c.CommitStreamSetObject? {
      CommitFrame(s, c.nodeId, c.nodeEpoch, c.commit, c.nowMs);
    }
  }

  /** Every command advances streams and nodes. */
  lemma StepAdvances(s: MetadataState, c: Command)
    requires forall id :: id in s.streams.rows ==> id < s.streams.nextId
    ensures StreamsAdvance(s.streams, Step(s, c).streams) && NodesAdvance(s, Step(s, c))
  {
    StepNodesAdvance(s, c);
    if StreamCommand(c) {
      StreamCommandAdvances(s, c);
    } else if ApplyCommand(s, c).Ok? && c.CommitStreamSetObject? {
      CommitFrame(s, c.nodeId, c.nodeEpoch, c.commit, c.nowMs);
      CommitRows(s, c.nodeId, c.nodeEpoch, c.commit, c.nowMs);
    }
  }

  /** Ids below the counter stay below it. */
  lemma StepKeysBelow(s: MetadataState, c: Command)
    requires forall id :: id in s.streams.rows ==> id < s.streams.nextId
    ensures forall id :: id in Step(s, c).streams.rows ==> id < Step(s, c).streams.nextId
  {
    if ApplyCommand(s, c).Ok? && c.CommitStreamSetObject? {
      CommitFrame(s, c.nodeId, c.nodeEpoch, c.commit, c.nowMs);
      CommitRows(s, c.nodeId, c.nodeEpoch, c.commit, c.nowMs);
    }
  }

  lemma {:induction false} KeysBelow(commands: seq<Command>, i: nat)
    requires i <= |commands|
    ensures forall id :: id in At(commands, i).streams.rows ==> id < At(commands, i).streams.nextId
  {
    if i > 0 {
      KeysBelow(commands, i - 1);
      AtStep(commands, i - 1);
      StepKeysBelow(At(commands, i - 1), commands[i - 1]);
    }
  }

  /** Between any two points of a run: stream epochs, node epochs and the id counter never go back,
      and an id that left the table never returns. */
  lemma {:induction false} RunAdvances(commands: seq<Command>, i: nat, j: nat)
    requires i <= j <= |commands|
    ensures StreamsAdvance(At(commands, i).streams, At(commands, j).streams)
    ensures NodesAdvance(At(commands, i), At(commands, j))
    decreases j - i
  {
    KeysBelow(commands, i);
    if i < j {
      RunAdvances(commands, i, j - 1);
      KeysBelow(commands, j - 1);
      AtStep(commands, j - 1);
      StepAdvances(At(commands, j - 1), commands[j - 1]);
    }
  }

  lemma OpenedRow(s: MetadataState, c: Command)
    requires c.OpenStream? && ApplyCommand(s, c).Ok?
    ensures
      var t := Step(s, c).streams;
      c.streamId in t.rows && t.rows[c.streamId].epoch == c.epoch && t.rows[c.streamId].state == Opened
      && t.rows[c.streamId].nodeId == c.nodeId
  {
  }

  /** Over any run, a stream is opened at a given epoch by at most one node,
      also when transfers re-point closed rows and when the stream is deleted in between. */
  lemma OneOwnerPerEpoch(commands: seq<Command>, i: nat, j: nat)
    requires i < j < |commands|
    requires commands[i].OpenStream? && commands[j].OpenStream?
    requires Accepted(commands, i) && Accepted(commands, j)
    requires commands[i].streamId == commands[j].streamId && commands[i].epoch == commands[j].epoch
    ensures commands[i].nodeId == commands[j].nodeId
  {
    AtStep(commands, i);
    AtStep(commands, j);
    OpenedRow(At(commands, i), commands[i]);
    OpenedRow(At(commands, j), commands[j]);
    KeysBelow(commands, i + 1);
    RunAdvances(commands, i + 1, j + 1);
  }

  lemma GateAdmits(s: MetadataState, c: Command)
    requires Gate(c).Some? && ApplyCommand(s, c).Ok?
    ensures NodeAdmitted(s, Gate(c).value.0, Gate(c).value.1)
  {
  }

  /** Once a node registered at an epoch, no command gated on an older epoch of that node is accepted. */
  lemma NewerRegistrationFences(commands: seq<Command>, i: nat, j: nat)
    requires i < j < |commands|
    requires commands[i].RegisterNode? && Accepted(commands, i)
    requires Gate(commands[j]).Some? && Gate(commands[j]).value.0 == commands[i].nodeId && Accepted(commands, j)
    ensures Gate(commands[j]).value.1 >= commands[i].nodeEpoch
  {
    AtStep(commands, i);
    RunAdvances(commands, i + 1, j);
    GateAdmits(At(commands, j), commands[j]);
  }

  /** The ids an accepted creation hands out: consecutive from the one it returns. */
  ghost function CreatedIds(s: MetadataState, c: Command): set<nat>
    requires (c.CreateStream? || c.CreateStreams?) && ApplyCommand(s, c).Ok?
  {
    IdRange(ApplyCommand(s, c).result.id, if c.CreateStream? then 1 else c.count)
  }

  /** A creation hands out ids from the counter up and moves the counter past them. */
  lemma CreatesFresh(s: MetadataState, c: Command)
    requires (c.CreateStream? || c.CreateStreams?) && ApplyCommand(s, c).Ok?
    ensures forall id | id in CreatedIds(s, c) :: s.streams.nextId <= id < Step(s, c).streams.nextId
    ensures CreatedIds(s, c) <= Step(s, c).streams.rows.Keys
  {
  }

  /** Creations of a run never hand out the same id twice, and a created id is fresh even if deleted before. */
  lemma StreamIdsNeverReused(commands: seq<Command>, i: nat, j: nat)
    requires i < j < |commands|
    requires (commands[i].CreateStream? || commands[i].CreateStreams?) && Accepted(commands, i)
    requires (commands[j].CreateStream? || commands[j].CreateStreams?) && Accepted(commands, j)
    ensures CreatedIds(At(commands, i), commands[i]) !! CreatedIds(At(commands, j), commands[j])
    ensures CreatedIds(At(commands, i), commands[i]) <= At(commands, i + 1).streams.rows.Keys
  {
    AtStep(commands, i);
    RunAdvances(commands, i + 1, j);
    CreatesFresh(At(commands, i), commands[i]);
    CreatesFresh(At(commands, j), commands[j]);
  }

  /** No command re-targets a pending move: it is completed, deleted with its stream, or stays as it is. */
  lemma StepKeepsPending(s: MetadataState, c: Command, id: nat)
    requires id in s.streams.transfers && id in Step(s, c).streams.transfers
    ensures Step(s, c).streams.transfers[id] == s.streams.transfers[id]
  {
    if ApplyCommand(s, c).Ok? && c.CommitStreamSetObject? {
      CommitFrame(s, c.nodeId, c.nodeEpoch, c.commit, c.nowMs);
    }
  }

  /** Over any run, a move that stays pending keeps its source and target. */
  lemma {:induction false} PendingMoveKeepsTarget(commands: seq<Command>, i: nat, j: nat, id: nat)
    requires i <= j <= |commands|
    requires forall k :: i <= k <= j ==> id in At(commands, k).streams.transfers
    ensures At(commands, j).streams.transfers[id] == At(commands, i).streams.transfers[id]
    decreases j - i
  {
    if i < j {
      PendingMoveKeepsTarget(commands, i, j - 1, id);
      AtStep(commands, j - 1);
      StepKeepsPending(At(commands, j - 1), commands[j - 1], id);
    }
  }
}
