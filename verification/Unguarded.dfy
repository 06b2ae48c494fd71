/** Accepted commands that break a property the handlers leave to their callers. */
module Unguarded {
  import opened Bytes
  import opened Metadata
  import opened Apply
  import opened Ownership
  import opened Lifecycle
  import opened Coverage
  import opened Offsets

  /** One node, one stream it opened at epoch 0, and [0, 5) committed as stream-set object 0. */
  const SETUP: seq<Command> := [
    RegisterNode(1, 0, [], 1), CreateStream(1, 0), OpenStream(1, 0, 0, 0),
    Commit(CommitRequest(0, 0, 0, [Listed(0, 5)], [], []))]

  function Commit(req: CommitRequest): Command {
    CommitStreamSetObject(1, 0, req, 0)
  }

  function Listed(start: nat, end: nat): ObjectStreamRange {
    ObjectStreamRange(0, 0, start, end, 0)
  }

  function Append(objectId: nat, ranges: seq<ObjectStreamRange>): Command {
    Commit(CommitRequest(objectId, 0, 0, ranges, [], []))
  }

  /** What the setup leaves behind. */
  ghost predicate Prepared(s: MetadataState) {
    && NodeAdmitted(s, 1, 0) && s.streams.rows == map[0 := StreamRow(0, 0, 0, 5, Opened, 1)]
    && s.sets.rows.Keys == {0} && s.sets.rows[0].meta.ranges == [OffsetRange(0, 0, 5)]
    && s.sets.ranges == map[OffsetKey(0, 0, 0) := 5]
    && s.objects == EMPTY_STATE.objects && s.destroyed == EMPTY_STATE.destroyed && s.leases == EMPTY_STATE.leases
  }

  lemma AdvanceSnoc(rows: map<nat, StreamRow>, ranges: seq<ObjectStreamRange>, r: ObjectStreamRange)
    requires AdvanceAll(rows, ranges, false).Success?
    ensures AdvanceAll(rows, ranges + [r], false)
            == Advance(AdvanceAll(rows, ranges, false).value, r.streamId, r.startOffset, r.endOffset, false)
  {
    assert (ranges + [r])[..|ranges|] == ranges;
  }

  /** A commit of fresh ranges as a free object is accepted. */
  lemma AppendAccepted(s: MetadataState, objectId: nat, ranges: seq<ObjectStreamRange>)
    requires NodeAdmitted(s, 1, 0) && objectId != NOOP_OBJECT_ID && IdFree(s.sets, s.objects, objectId, None)
    requires AdvanceAll(s.streams.rows, ranges, false).Success?
    ensures
      var c := Append(objectId, ranges);
      ApplyCommand(s, c).Ok? && Success(Step(s, c)) == CommitSet(s, 1, c.commit, false, 0, 0)
  {
    assert DropCompacted(s, []) == s;
  }

  ghost predicate Unwritten(s: MetadataState) {
    && NodeAdmitted(s, 1, 0) && s.streams.rows == map[0 := StreamRow(0, 0, 0, 0, Opened, 1)]
    && s.sets == EMPTY_STATE.sets && s.objects == EMPTY_STATE.objects
    && s.destroyed == EMPTY_STATE.destroyed && s.leases == EMPTY_STATE.leases
  }

  lemma StreamOpened(c: Command)
    ensures Unwritten(At(SETUP + [c], 3))
  {
    var run := SETUP + [c];
    assert run[..0] == [];
    AtStep(run, 0);
    AtStep(run, 1);
    assert At(run, 2).streams.rows == map[0 := FreshRow(0)];
    AtStep(run, 2);
  }

  lemma FirstCommit(s: MetadataState)
    requires Unwritten(s)
    ensures Prepared(Step(s, Append(0, [Listed(0, 5)])))
  {
    var ranges := [Listed(0, 5)];
    AdvanceSnoc(s.streams.rows, [], Listed(0, 5));
    assert [] + [Listed(0, 5)] == ranges;
    AppendAccepted(s, 0, ranges);
    assert OffsetRanges(ranges) == [OffsetRange(0, 0, 5)] && OffsetRanges(ranges)[..0] == [];
  }

  /** The setup followed by one more command. */
  lemma SetUp(c: Command)
    ensures var run := SETUP + [c]; Prepared(At(run, 4)) && At(run, 5) == Step(At(run, 4), c)
  {
    var run := SETUP + [c];
    StreamOpened(c);
    FirstCommit(At(run, 3));
    AtStep(run, 3);
    AtStep(run, 4);
  }

  /** A backward range is accepted: the stream ends at 5 and then at 2. */
  lemma BackwardRows(s: MetadataState)
    requires Prepared(s)
    ensures AdvanceAll(s.streams.rows, [Listed(5, 2)], false) == Success(map[0 := StreamRow(0, 0, 0, 2, Opened, 1)])
  {
    AdvanceSnoc(s.streams.rows, [], Listed(5, 2));
    assert [] + [Listed(5, 2)] == [Listed(5, 2)];
    var rows := AdvanceAll(s.streams.rows, [Listed(5, 2)], false).value;
    assert rows == map[0 := StreamRow(0, 0, 0, 2, Opened, 1)];
  }

  lemma BackwardRangeAccepted()
    ensures
      var run := SETUP + [Append(1, [Listed(5, 2)])];
      Accepted(run, 4) && 0 in At(run, 5).streams.rows && At(run, 5).streams.rows[0].endOffset == 2
      && !Onward(At(run, 4).streams.rows, At(run, 5).streams.rows)
  {
    var ranges := [Listed(5, 2)];
    var c := Append(1, ranges);
    SetUp(c);
    var s := At(SETUP + [c], 4);
    BackwardRows(s);
    AppendAccepted(s, 1, ranges);
  }

  lemma MadeUpRows(s: MetadataState)
    requires Prepared(s)
    ensures
      AdvanceAll(s.streams.rows, [Listed(5, 2), Listed(2, 7)], false)
      == Success(map[0 := StreamRow(0, 0, 0, 7, Opened, 1)])
  {
    BackwardRows(s);
    AdvanceSnoc(s.streams.rows, [Listed(5, 2)], Listed(2, 7));
    assert [Listed(5, 2)] + [Listed(2, 7)] == [Listed(5, 2), Listed(2, 7)];
    var rows := AdvanceAll(s.streams.rows, [Listed(5, 2), Listed(2, 7)], false).value;
    assert rows == map[0 := StreamRow(0, 0, 0, 7, Opened, 1)];
  }

  /** A backward range made up for within the same commit moves the end onward. */
  lemma MadeUpRangeOnward()
    ensures
      var c := Append(1, [Listed(5, 2), Listed(2, 7)]);
      var run := SETUP + [c];
      Accepted(run, 4) && !ForwardRanges(c) && Onward(At(run, 4).streams.rows, At(run, 5).streams.rows)
  {
    var ranges := [Listed(5, 2), Listed(2, 7)];
    var c := Append(1, ranges);
    SetUp(c);
    var s := At(SETUP + [c], 4);
    MadeUpRows(s);
    AppendAccepted(s, 1, ranges);
    assert ranges[0] in c.commit.streamRanges;
  }

  /** The compaction of object 0, in favour of the listed stream objects. */
  function Compaction(objects: seq<StreamObject>): Command {
    Commit(CommitRequest(NOOP_OBJECT_ID, 0, 0, [], objects, [0]))
  }

  lemma CompactedAway(s: MetadataState)
    requires Prepared(s)
    ensures
      var d := DropCompacted(s, [0]);
      d.sets.rows == map[] && d.sets.ranges == map[] && 0 in d.destroyed.byId && d.streams == s.streams
  {
    var ids := [0];
    assert ids[..0] == [] && RemoveSets(s.sets, ids) == RemoveSet(s.sets, 0);
    assert OffsetKey(0, 0, 0) in RangeKeys(s.sets.rows[0].meta.ranges, 0) by {
      assert OffsetRange(0, 0, 5) in s.sets.rows[0].meta.ranges;
    }
    MarkAllIds(s.destroyed, ids, Deletes(1));
  }

  /** A compaction that replaces nothing is accepted and leaves live offsets in no object. */
  lemma CompactionUncovers()
    ensures
      var run := SETUP + [Compaction([])];
      Accepted(run, 4) && Live(At(run, 5).streams.rows, 0, 3) && !Covered(At(run, 5), 0, 3)
  {
    SetUp(Compaction([]));
    CompactedAway(At(SETUP + [Compaction([])], 4));
  }

  /** A commit may give a stream object the id it compacts away: live and queued for cleanup at once. */
  lemma CommitReusesCompactedId()
    ensures
      var run := SETUP + [Compaction([StreamObject(0, 0, 0, 0, 5, 0)])];
      Accepted(run, 4) && 0 in At(run, 5).objects.ids && 0 in At(run, 5).destroyed.byId
  {
    var o := StreamObject(0, 0, 0, 0, 5, 0);
    var run, os := SETUP + [Compaction([o])], [o];
    SetUp(Compaction([o]));
    var s := At(run, 4);
    CompactedAway(s);
    var d := DropCompacted(s, [0]);
    assert o in os && !RedundantCommit(s, Compaction([o]).commit);
    var dataMs := DataTime(s.sets, [0], 0);
    assert os[..0] == [] && CommitObjects(d, os, true, dataMs, 0) == CommitObject(d, o, true, dataMs, 0);
  }

  /** A compaction may name a live stream-set object as its source. */
  lemma CompactionQueuesLiveObject()
    ensures
      var run := SETUP + [CompactStreamObject(1, 0, CompactRequest(NOOP_OBJECT_ID, 0, 0, 0, 0, 0, [0], [], 0), 0)];
      Accepted(run, 4) && 0 in At(run, 5).sets.rows && 0 in At(run, 5).destroyed.byId
  {
    var c := CompactStreamObject(1, 0, CompactRequest(NOOP_OBJECT_ID, 0, 0, 0, 0, 0, [0], [], 0), 0);
    var run := SETUP + [c];
    SetUp(c);
  }

  /** An id may be committed before it is leased; a later lease then hands out the live id. */
  lemma LeaseHandsOutLiveId()
    ensures
      var run := SETUP + [PrepareObject(1, 0, 1, 0, 0)];
      Accepted(run, 4) && 0 in At(run, 5).sets.rows && 0 in At(run, 5).leases.prepared
  {
    var c := PrepareObject(1, 0, 1, 0, 0);
    SetUp(c);
  }

  /** A deletion of a stream that does not exist yet is accepted, and sent again it deletes the stream. */
  lemma EarlyDeleteDeletes()
    ensures
      var c := DeleteStream(1, 0, 0, NEVER_OPENED);
      var run := [RegisterNode(1, 0, [], 1), c, CreateStream(1, 0), c];
      Accepted(run, 1) && 0 in At(run, 3).streams.rows && Accepted(run, 3) && 0 !in At(run, 4).streams.rows
  {
    var c := DeleteStream(1, 0, 0, NEVER_OPENED);
    var run := [RegisterNode(1, 0, [], 1), c, CreateStream(1, 0), c];
    assert run[..0] == [];
    AtStep(run, 0);
    AtStep(run, 1);
    AtStep(run, 2);
    assert At(run, 3).streams.rows == map[0 := FreshRow(0)];
    AtStep(run, 3);
  }

  // ---- a compaction sent again after its output was compacted ----

  function Rewrite(source: nat, output: nat): Command {
    CompactStreamObject(1, 0, CompactRequest(output, 0, 0, 0, 0, 5, [source], [], 0), 0)
  }

  /** Stream 0 holds [0, 5) in one stream object. */
  ghost predicate HeldBy(s: MetadataState, id: nat) {
    && NodeAdmitted(s, 1, 0) && s.streams.rows == map[0 := StreamRow(0, 0, 0, 5, Opened, 1)]
    && s.sets == EMPTY_STATE.sets && s.leases == EMPTY_STATE.leases
    && s.objects.ids == map[id := OffsetKey(0, 0, id)] && s.objects.rows.Keys == {OffsetKey(0, 0, id)}
  }

  lemma Rewritten(s: MetadataState, id: nat, source: nat, output: nat)
    requires HeldBy(s, id) && output != id && output != source && output != NOOP_OBJECT_ID
    ensures ApplyCommand(s, Rewrite(source, output)).Ok?
    ensures
      var t := Step(s, Rewrite(source, output));
      && output in t.objects.ids && t.destroyed.byId.Keys == s.destroyed.byId.Keys + {source}
      && (source == id ==> HeldBy(t, output))
  {
    var req, ids := Rewrite(source, output).compact, [source];
    MarkAllIds(s.destroyed, ids, SourceOps(req));
    assert ToSet(ids) == {source} && ids[..0] == [];
    var with := WithReplacement(s.objects, req, 0);
    assert DropSources(with, 0, ids) == DropSource(with, 0, source);
  }

  lemma FirstObject(s: MetadataState)
    requires Unwritten(s)
    ensures HeldBy(Step(s, FIRST_OBJECT), 0)
  {
    var o := StreamObject(0, 0, 0, 0, 5, 0);
    var os := [o];
    assert DropCompacted(s, []) == s && os[..0] == [] && o in os;
    assert CommitObjects(s, os, false, 0, 0) == CommitObject(s, o, false, 0, 0);
  }

  const FIRST_OBJECT: Command := Commit(CommitRequest(NOOP_OBJECT_ID, 0, 0, [], [StreamObject(0, 0, 0, 0, 5, 0)], []))

  /** A is committed, compacted into C, C into E, and A into C again. */
  const REVIVAL: seq<Command> := [
    RegisterNode(1, 0, [], 1), CreateStream(1, 0), OpenStream(1, 0, 0, 0), FIRST_OBJECT,
    Rewrite(0, 1), Rewrite(1, 2), Rewrite(0, 1)]

  lemma ObjectCommitted()
    ensures HeldBy(At(REVIVAL, 4), 0)
  {
    StreamOpened(FIRST_OBJECT);
    assert (SETUP + [FIRST_OBJECT])[..3] == REVIVAL[..3];
    AtStep(REVIVAL, 3);
    FirstObject(At(REVIVAL, 3));
  }

  /** The late compaction brings C back while it is queued for cleanup. */
  lemma LateCompactionRevives()
    ensures Accepted(REVIVAL, 4) && Accepted(REVIVAL, 5) && Accepted(REVIVAL, 6) && REVIVAL[6] == REVIVAL[4]
    ensures 1 in At(REVIVAL, 7).objects.ids && 1 in At(REVIVAL, 7).destroyed.byId
  {
    ObjectCommitted();
    Rewritten(At(REVIVAL, 4), 0, 0, 1);
    AtStep(REVIVAL, 4);
    Rewritten(At(REVIVAL, 5), 1, 1, 2);
    AtStep(REVIVAL, 5);
    Rewritten(At(REVIVAL, 6), 2, 0, 1);
    AtStep(REVIVAL, 6);
  }
}
