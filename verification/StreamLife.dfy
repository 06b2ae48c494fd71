/** What a run of commands makes of a stream: every field of its row is the work of the last command that wrote it. */
module StreamLife {
  import opened Bytes
  import opened Metadata
  import opened Apply
  import opened Indexes
  import opened Ownership
  import opened Placement

  /** The command was accepted and names this stream. */
  ghost predicate Did(s: MetadataState, c: Command, id: nat) {
    && ApplyCommand(s, c).Ok?
    && (c.PlaceStream? || c.OpenStream? || c.TrimStream? || c.CloseStream? || c.CompleteTransfer?)
    && c.streamId == id
  }

  /** One command's effect on a row that it does not delete, offsets of commits aside. */
  ghost predicate RowWritten(s: MetadataState, c: Command, id: nat)
    requires id in s.streams.rows && id in Step(s, c).streams.rows
  {
    var a, b := s.streams.rows[id], Step(s, c).streams.rows[id];
    && b.streamId == a.streamId
    && b.startOffset == (if Did(s, c, id) && c.TrimStream? then c.newStartOffset else a.startOffset)
    && b.epoch == (if Did(s, c, id) && c.OpenStream? then c.epoch else a.epoch)
    && b.state == (if Did(s, c, id) && c.OpenStream? then Opened
                   else if Did(s, c, id) && c.CloseStream? then Closed else a.state)
  }

  ghost predicate NodeWritten(s: MetadataState, c: Command, id: nat)
    requires id in s.streams.rows && id in Step(s, c).streams.rows
  {
    var a, b := s.streams.rows[id], Step(s, c).streams.rows[id];
    if Did(s, c, id) && c.OpenStream? then b.nodeId == c.nodeId
    else if Did(s, c, id) && c.CompleteTransfer? then
      id in s.streams.transfers && b.nodeId == s.streams.transfers[id].toNode
    else if Did(s, c, id) && c.PlaceStream? && a.nodeId == UNPLACED then IsBestNode(s, b.nodeId)
    else b.nodeId == a.nodeId
  }

  lemma StreamCommandRow(s: MetadataState, c: Command, id: nat)
    requires id in s.streams.rows && id in Step(s, c).streams.rows && id < s.streams.nextId && StreamCommand(c)
    ensures RowWritten(s, c, id)
  {
  }

  lemma StreamCommandNode(s: MetadataState, c: Command, id: nat)
    requires id in s.streams.rows && id in Step(s, c).streams.rows && id < s.streams.nextId && StreamCommand(c)
    ensures NodeWritten(s, c, id)
  {
  }

  lemma OtherRow(s: MetadataState, c: Command, id: nat)
    requires id in s.streams.rows && id in Step(s, c).streams.rows && !StreamCommand(c)
    ensures RowWritten(s, c, id) && NodeWritten(s, c, id)
  {
    if ApplyCommand(s, c).Ok? && c.CommitStreamSetObject? {
      CommitRows(s, c.nodeId, c.nodeEpoch, c.commit, c.nowMs);
    }
  }

  lemma StepRow(s: MetadataState, c: Command, id: nat)
    requires id in s.streams.rows && id in Step(s, c).streams.rows && id < s.streams.nextId
    ensures RowWritten(s, c, id) && NodeWritten(s, c, id)
  {
    if StreamCommand(c) {
      StreamCommandRow(s, c, id);
      StreamCommandNode(s, c, id);
    } else {
      OtherRow(s, c, id);
    }
  }

  // ---- last writers ----

  ghost predicate DidAt(commands: seq<Command>, k: nat, id: nat)
    requires k < |commands|
  {
    Did(At(commands, k), commands[k], id)
  }

  ghost function LastStart(commands: seq<Command>, j: nat, id: nat): nat
    requires j <= |commands|
  {
    if j == 0 then 0
    else if DidAt(commands, j - 1, id) && commands[j - 1].TrimStream? then commands[j - 1].newStartOffset
    else LastStart(commands, j - 1, id)
  }

  ghost function LastEpoch(commands: seq<Command>, j: nat, id: nat): int
    requires j <= |commands|
  {
    if j == 0 then NEVER_OPENED
    else if DidAt(commands, j - 1, id) && commands[j - 1].OpenStream? then commands[j - 1].epoch
    else LastEpoch(commands, j - 1, id)
  }

  ghost function LastState(commands: seq<Command>, j: nat, id: nat): StreamState
    requires j <= |commands|
  {
    if j == 0 then Closed
    else if DidAt(commands, j - 1, id) && commands[j - 1].OpenStream? then Opened
    else if DidAt(commands, j - 1, id) && commands[j - 1].CloseStream? then Closed
    else LastState(commands, j - 1, id)
  }

  ghost function LastNode(commands: seq<Command>, j: nat, id: nat): NodeId
    requires j <= |commands|
  {
    if j == 0 then UNPLACED
    else
      var s, c, before := At(commands, j - 1), commands[j - 1], LastNode(commands, j - 1, id);
      if !DidAt(commands, j - 1, id) then before
      else if c.OpenStream? then c.nodeId
      else if c.CompleteTransfer? && id in s.streams.transfers then s.streams.transfers[id].toNode
      else if c.PlaceStream? && before == UNPLACED && HasBestNode(s) then BestNode(s)
      else before
  }

  /** A row that appears was just created: closed, never opened, unplaced and empty. */
  lemma NewRow(s: MetadataState, c: Command, id: nat)
    requires id !in s.streams.rows && id in Step(s, c).streams.rows
    ensures (c.CreateStream? || c.CreateStreams?) && ApplyCommand(s, c).Ok? && s.streams.nextId <= id
    ensures
      var row := Step(s, c).streams.rows[id];
      && row.streamId == id && row.startOffset == 0 && row.endOffset == 0
      && row.state == Closed && row.epoch == NEVER_OPENED && row.nodeId == UNPLACED
  {
    if ApplyCommand(s, c).Ok? && c.CommitStreamSetObject? {
      CommitRows(s, c.nodeId, c.nodeEpoch, c.commit, c.nowMs);
    }
  }

  lemma NoRowNothingDone(s: MetadataState, c: Command, id: nat)
    requires id !in s.streams.rows
    ensures !Did(s, c, id)
  {
  }

  /** Nothing was done to a stream before it existed. */
  lemma {:induction false} UntouchedBefore(commands: seq<Command>, j: nat, id: nat)
    requires j <= |commands| && id >= At(commands, j).streams.nextId
    ensures LastStart(commands, j, id) == 0 && LastEpoch(commands, j, id) == NEVER_OPENED
    ensures LastState(commands, j, id) == Closed && LastNode(commands, j, id) == UNPLACED
  {
    if j > 0 {
      RunAdvances(commands, j - 1, j);
      UntouchedBefore(commands, j - 1, id);
      KeysBelow(commands, j - 1);
      NoRowNothingDone(At(commands, j - 1), commands[j - 1], id);
    }
  }

  ghost predicate Shows(commands: seq<Command>, j: nat, id: nat)
    requires j <= |commands| && id in At(commands, j).streams.rows
  {
    var row := At(commands, j).streams.rows[id];
    && row.streamId == id && row.startOffset == LastStart(commands, j, id)
    && row.epoch == LastEpoch(commands, j, id) && row.state == LastState(commands, j, id)
    && row.nodeId == LastNode(commands, j, id)
  }

  lemma ShowsNext(commands: seq<Command>, j: nat, id: nat)
    requires j < |commands| && id in At(commands, j).streams.rows && Shows(commands, j, id)
    requires id in At(commands, j + 1).streams.rows
    ensures Shows(commands, j + 1, id)
  {
    AtStep(commands, j);
    KeysBelow(commands, j);
    var s, c := At(commands, j), commands[j];
    StepRow(s, c, id);
    if Did(s, c, id) && c.PlaceStream? && s.streams.rows[id].nodeId == UNPLACED {
      BestNodeUnique(s, BestNode(s), At(commands, j + 1).streams.rows[id].nodeId);
    }
  }

  lemma ShowsNew(commands: seq<Command>, j: nat, id: nat)
    requires j < |commands| && id !in At(commands, j).streams.rows && id in At(commands, j + 1).streams.rows
    ensures Shows(commands, j + 1, id)
  {
    AtStep(commands, j);
    NewRow(At(commands, j), commands[j], id);
    UntouchedBefore(commands, j, id);
    NoRowNothingDone(At(commands, j), commands[j], id);
  }

  /** On every run the row of a stream shows the start of the last accepted trim, the epoch of the last accepted open,
      whether an open or a close came last, and the node it was last opened on, moved to or placed on. */
  lemma {:induction false} RowIsLastWrites(commands: seq<Command>, j: nat, id: nat)
    requires j <= |commands| && id in At(commands, j).streams.rows
    ensures Shows(commands, j, id)
  {
    if j > 0 {
      if id in At(commands, j - 1).streams.rows {
        RowIsLastWrites(commands, j - 1, id);
        ShowsNext(commands, j - 1, id);
      } else {
        ShowsNew(commands, j - 1, id);
      }
    }
  }

  // ---- when a command is accepted ----

  /** The node's last registration was at this epoch. */
  predicate RegisteredAt(s: MetadataState, n: NodeId, epoch: int) {
    n in s.nodes && s.nodes[n].epoch == epoch
  }

  predicate HasSlot(s: MetadataState, n: NodeId) {
    n in s.nodes && s.nodes[n].slots >= 1
  }

  /** What a stream command needs, said of the stream. */
  ghost predicate Acceptable(s: MetadataState, c: Command) {
    match c
    case OpenStream(n, e, id, epoch) =>
      && RegisteredAt(s, n, e) && id in s.streams.rows
      && var row := s.streams.rows[id];
         if row.state == Closed then row.epoch < epoch else row.epoch == epoch && row.nodeId == n
    case TrimStream(n, e, id, epoch, start) =>
      && RegisteredAt(s, n, e) && id in s.streams.rows
      && var row := s.streams.rows[id];
         row.state == Opened && row.epoch == epoch && row.startOffset <= start <= row.endOffset
    case CloseStream(n, e, id, epoch) =>
      RegisteredAt(s, n, e) && id in s.streams.rows && s.streams.rows[id].epoch == epoch
    case DeleteStream(n, e, id, epoch) =>
      && RegisteredAt(s, n, e)
      && (id in s.streams.rows ==> s.streams.rows[id].state == Closed && s.streams.rows[id].epoch == epoch)
    case TransferStream(id, from, to) =>
      && id in s.streams.rows
      && if id in s.streams.transfers then s.streams.transfers[id] == PendingTransfer(from, to)
         else from != to && HasSlot(s, to) && IsOpenedOn(s.streams.rows, (from, id))
    case CompleteTransfer(id, epoch) =>
      && id in s.streams.transfers && id in s.streams.rows
      && s.streams.rows[id].state == Closed && s.streams.rows[id].epoch == epoch
    case PlaceStream(id) =>
      && id in s.streams.rows
      && (s.streams.rows[id].nodeId == UNPLACED ==>
            s.streams.rows[id].state == Closed && s.streams.rows[id].epoch == NEVER_OPENED
            && exists n: NodeId :: HasSlot(s, n))
    case CreateStream(n, e) => RegisteredAt(s, n, e)
    case CreateStreams(n, e, count) => RegisteredAt(s, n, e) && 1 <= count <= 4096
    case PrepareObject(n, e, count, _, _) => RegisteredAt(s, n, e) && 1 <= count
    case RegisterNode(n, e, _, _) => n in s.nodes ==> s.nodes[n].epoch <= e
    case CommitStreamSetObject(_, _, _, _) => ApplyCommand(s, c).Ok?
    case CompactStreamObject(_, _, _, _) => ApplyCommand(s, c).Ok?
    case _ => true
  }

  /** A command on nodes, streams, leases or entries is accepted if and only if that holds. */
  lemma AcceptedIff(s: MetadataState, c: Command)
    ensures ApplyCommand(s, c).Ok? <==> Acceptable(s, c)
  {
    if c.PlaceStream? {
      BestExistsIffEligible(s);
      assert forall n: NodeId :: HasSlot(s, n) <==> Eligible(s.nodes, n);
    }
  }

  /** What an error tells about the state. */
  ghost predicate Explains(s: MetadataState, c: Command, error: MetadataError) {
    match error
    case NodeEpochMismatch(n) =>
      if Gate(c).Some? then n == Gate(c).value.0 && !RegisteredAt(s, n, Gate(c).value.1)
      else if c.RegisterNode? then n == c.nodeId && n in s.nodes && s.nodes[n].epoch > c.nodeEpoch
      else if c.TransferStream? then n == c.toNode && !HasSlot(s, n)
      else n == UNPLACED && c.PlaceStream? && !exists m: NodeId :: HasSlot(s, m)
    case StreamNotExist(id) => id !in s.streams.rows
    case StreamNotClosed(id) => id in s.streams.rows && s.streams.rows[id].state == Opened
    case StreamFenced(id, epoch) =>
      c.OpenStream? && id == c.streamId && epoch == c.epoch && id in s.streams.rows && s.streams.rows[id].epoch >= epoch
    case ExpiredEpoch(id, epoch) => id in s.streams.rows && s.streams.rows[id].epoch != epoch
    case Redundant => c.CompleteTransfer? || c.CommitStreamSetObject? || c.CompactStreamObject?
    case Unexpected => true
  }

  /** Every error of a command that is not a commit or a compaction is true of the state. */
  lemma ErrorsAreTrue(s: MetadataState, c: Command)
    requires ApplyCommand(s, c).Err? && !c.CommitStreamSetObject? && !c.CompactStreamObject?
    ensures Explains(s, c, ApplyCommand(s, c).error)
  {
    if c.PlaceStream? {
      BestExistsIffEligible(s);
      assert forall n: NodeId :: HasSlot(s, n) <==> Eligible(s.nodes, n);
    }
  }

  lemma {:induction false} AdvanceErrors(rows: map<nat, StreamRow>, ranges: seq<ObjectStreamRange>, compact: bool)
    ensures var r := AdvanceAll(rows, ranges, compact); r.Failure? ==> r.error.StreamNotExist? || r.error.Unexpected?
  {
    if ranges != [] {
      AdvanceErrors(rows, ranges[..|ranges| - 1], compact);
    }
  }

  lemma {:induction false} CommitObjectsErrors(
      s: MetadataState, os: seq<StreamObject>, compact: bool, dataMs: int, nowMs: int)
    ensures
      var r := CommitObjects(s, os, compact, dataMs, nowMs);
      r.Failure? ==> r.error.StreamNotExist? || r.error.Unexpected?
  {
    if os != [] {
      CommitObjectsErrors(s, os[..|os| - 1], compact, dataMs, nowMs);
    }
  }

  lemma CommitErrors(s: MetadataState, c: Command)
    requires c.CommitStreamSetObject? && NodeAdmitted(s, c.nodeId, c.nodeEpoch) && ApplyCommand(s, c).Err?
    ensures !ApplyCommand(s, c).error.NodeEpochMismatch?
    ensures ApplyCommand(s, c).error.Redundant? <==> RedundantCommit(s, c.commit)
  {
    var req := c.commit;
    var compact := req.compactedIds != [];
    if forall id | id in req.compactedIds :: id in s.sets.rows {
      var dataMs := DataTime(s.sets, req.compactedIds, c.nowMs);
      AdvanceErrors(s.streams.rows, req.streamRanges, compact);
      var inserted := CommitSetIfAny(DropCompacted(s, req.compactedIds), c.nodeId, req, compact, dataMs, c.nowMs);
      if inserted.Success? {
        CommitObjectsErrors(inserted.value, req.streamObjects, compact, dataMs, c.nowMs);
      }
    }
  }

  /** A command from a node that is not registered at its epoch is told so, before anything else is looked at,
      and no other is told that. */
  lemma UnadmittedIsTold(s: MetadataState, c: Command)
    requires Gate(c).Some?
    ensures (ApplyCommand(s, c) == Err(NodeEpochMismatch(Gate(c).value.0)))
            <==> !RegisteredAt(s, Gate(c).value.0, Gate(c).value.1)
  {
    if c.CommitStreamSetObject? && NodeAdmitted(s, c.nodeId, c.nodeEpoch) && ApplyCommand(s, c).Err? {
      CommitErrors(s, c);
    }
  }

  // ---- answers ----

  /** An open answers the row as it is after it: the offsets recovery starts from, owned by the caller. */
  lemma OpenAnswersRow(commands: seq<Command>, i: nat)
    requires i < |commands| && commands[i].OpenStream? && Accepted(commands, i)
    ensures
      var c, t := commands[i], At(commands, i + 1).streams;
      && c.streamId in t.rows && c.streamId in At(commands, i).streams.rows
      && ApplyCommand(At(commands, i), c).result.Stream?
      && var row, md := t.rows[c.streamId], ApplyCommand(At(commands, i), c).result.stream;
         && md.streamId == c.streamId && md.startOffset == row.startOffset && md.endOffset == row.endOffset
         && md.state == Opened && md.nodeId == c.nodeId && (c.epoch >= 0 ==> md.epoch == c.epoch)
         && row.endOffset == At(commands, i).streams.rows[c.streamId].endOffset
  {
    AtStep(commands, i);
    RowIsLastWrites(commands, i, commands[i].streamId);
  }

  /** Placement answers the node the stream is then on. */
  lemma PlaceAnswersNode(s: MetadataState, c: Command)
    requires c.PlaceStream? && ApplyCommand(s, c).Ok?
    ensures c.streamId in Step(s, c).streams.rows
    ensures ApplyCommand(s, c).result == Id(NodeAsId(Step(s, c).streams.rows[c.streamId].nodeId))
  {
  }

  // ---- moves ----

  /** A move lands where it was asked to: once completed the stream is on the target and nothing is pending. */
  lemma MoveLandsOnTarget(commands: seq<Command>, i: nat, j: nat)
    requires i < j < |commands| && commands[i].TransferStream? && Accepted(commands, i)
    requires commands[j].CompleteTransfer? && commands[j].streamId == commands[i].streamId && Accepted(commands, j)
    requires forall k | i < k <= j :: commands[i].streamId in At(commands, k).streams.transfers
    ensures
      var t, c := At(commands, j + 1).streams, commands[i];
      && c.streamId in t.rows && t.rows[c.streamId].nodeId == c.toNode && c.streamId !in t.transfers
      && t.rows[c.streamId].state == Closed
  {
    var id := commands[i].streamId;
    AtStep(commands, i);
    AtStep(commands, j);
    forall k | i + 1 <= k <= j ensures id in At(commands, k).streams.transfers {
      assert i < k <= j;
    }
    PendingMoveKeepsTarget(commands, i + 1, j, id);
    KeysBelow(commands, j);
    StepRow(At(commands, j), commands[j], id);
  }

  // ---- registrations ----

  /** A node stays admitted at the epoch it registered until it registers again. */
  lemma {:induction false} AdmittedUntilReregistered(commands: seq<Command>, i: nat, j: nat)
    requires i < j <= |commands| && commands[i].RegisterNode? && Accepted(commands, i)
    requires forall k | i < k < j :: commands[k].RegisterNode? ==> commands[k].nodeId != commands[i].nodeId
    ensures
      var c, t := commands[i], At(commands, j);
      && RegisteredAt(t, c.nodeId, c.nodeEpoch) && t.nodes[c.nodeId].slots == c.slots
      && t.nodes[c.nodeId].httpAddress ==
         (if c.httpAddress != [] then c.httpAddress
          else if c.nodeId in At(commands, i).nodes then At(commands, i).nodes[c.nodeId].httpAddress else [])
    decreases j
  {
    AtStep(commands, j - 1);
    if i < j - 1 {
      AdmittedUntilReregistered(commands, i, j - 1);
      NodesWrittenByRegister(At(commands, j - 1), commands[j - 1]);
      assert commands[j - 1].RegisterNode? ==> commands[j - 1].nodeId != commands[i].nodeId;
    }
  }

  ghost function LastRegistered(commands: seq<Command>, j: nat, n: NodeId): Option<int>
    requires j <= |commands|
  {
    if j == 0 then None
    else if commands[j - 1].RegisterNode? && commands[j - 1].nodeId == n && Accepted(commands, j - 1) then
      Some(commands[j - 1].nodeEpoch)
    else LastRegistered(commands, j - 1, n)
  }

  lemma {:induction false} NodeIsLastRegistered(commands: seq<Command>, j: nat, n: NodeId, epoch: int)
    requires j <= |commands|
    ensures RegisteredAt(At(commands, j), n, epoch) <==> LastRegistered(commands, j, n) == Some(epoch)
  {
    if j > 0 {
      AtStep(commands, j - 1);
      NodeIsLastRegistered(commands, j - 1, n, epoch);
      NodesWrittenByRegister(At(commands, j - 1), commands[j - 1]);
    }
  }

  // ---- acceptance, from the run ----

  /** What the commands before it leave an open, trim, close or deletion to be. */
  ghost predicate RunAllows(commands: seq<Command>, j: nat)
    requires j < |commands|
  {
    match commands[j]
    case OpenStream(n, e, id, epoch) =>
      && LastRegistered(commands, j, n) == Some(e) && id in At(commands, j).streams.rows
      && if LastState(commands, j, id) == Closed then LastEpoch(commands, j, id) < epoch
         else LastEpoch(commands, j, id) == epoch && LastNode(commands, j, id) == n
    case TrimStream(n, e, id, epoch, start) =>
      && LastRegistered(commands, j, n) == Some(e) && id in At(commands, j).streams.rows
      && LastState(commands, j, id) == Opened && LastEpoch(commands, j, id) == epoch
      && LastStart(commands, j, id) <= start <= At(commands, j).streams.rows[id].endOffset
    case CloseStream(n, e, id, epoch) =>
      && LastRegistered(commands, j, n) == Some(e) && id in At(commands, j).streams.rows
      && LastEpoch(commands, j, id) == epoch
    case DeleteStream(n, e, id, epoch) =>
      && LastRegistered(commands, j, n) == Some(e)
      && (id in At(commands, j).streams.rows ==>
            LastState(commands, j, id) == Closed && LastEpoch(commands, j, id) == epoch)
    case _ => false
  }

  /** On every run an open is accepted if and only if its node last registered at the epoch it names and the stream is
      closed at a lower epoch, or is the node's own at this one. The others need the last open to be at the epoch they
      name: a close nothing more, a trim the stream open and an offset within it, a deletion the stream closed or
      gone. */
  lemma AcceptedOnRunIff(commands: seq<Command>, j: nat)
    requires j < |commands|
    requires commands[j].OpenStream? || commands[j].TrimStream? || commands[j].CloseStream? || commands[j].DeleteStream?
    ensures Accepted(commands, j) <==> RunAllows(commands, j)
  {
    var s, c := At(commands, j), commands[j];
    AcceptedIff(s, c);
    NodeIsLastRegistered(commands, j, c.nodeId, c.nodeEpoch);
    if c.streamId in s.streams.rows {
      RowIsLastWrites(commands, j, c.streamId);
    }
  }
}
