/** Placement keeps nodes balanced: a loaded node was never a worse choice than any other. */
module Placement {
  import opened Metadata
  import opened Apply
  import opened Indexes

  /** A node to place on exists exactly when some registered node has a slot. */
  lemma BestExistsIffEligible(s: MetadataState)
    ensures HasBestNode(s) <==> exists n: NodeId :: Eligible(s.nodes, n)
  {
    if n0: NodeId :| Eligible(s.nodes, n0) {
      var best, left := n0, s.nodes.Keys;
      while left != {}
        invariant left <= s.nodes.Keys && Eligible(s.nodes, best)
        invariant forall m: NodeId :: Eligible(s.nodes, m) && m !in left ==> Preferred(s, best, m)
        decreases |left|
      {
        var m :| m in left;
        if Eligible(s.nodes, m) && !Preferred(s, best, m) {
          best := m;
        }
        left := left - {m};
      }
      assert IsBestNode(s, best);
    }
  }

  // ---- what is charged to a node, from the rows ----

  predicate ChargedTo(row: StreamRow, n: NodeId) {
    row.nodeId == n && (row.state == Opened || row.epoch == NEVER_OPENED)
  }

  /** Streams open on the node, or placed on it and never opened. */
  function StreamsOn(rows: map<nat, StreamRow>, n: NodeId): set<nat> {
    set id | id in rows && ChargedTo(rows[id], n)
  }

  lemma {:induction false} SameSize(entries: set<(NodeId, nat)>, ids: set<nat>, n: NodeId)
    requires (forall e | e in entries :: e.0 == n && e.1 in ids) && forall id | id in ids :: (n, id) in entries
    ensures |entries| == |ids|
    decreases ids
  {
    if ids == {} {
      if e :| e in entries {
        assert e.1 in ids;
      }
    } else {
      var id :| id in ids;
      SameSize(entries - {(n, id)}, ids - {id}, n);
    }
  }

  function OpenOn(rows: map<nat, StreamRow>, n: NodeId): set<nat> {
    set id | id in rows && rows[id].nodeId == n && rows[id].state == Opened
  }

  function PlacedOn(rows: map<nat, StreamRow>, n: NodeId): set<nat> {
    set id | id in rows && rows[id].nodeId == n && rows[id].state == Closed && rows[id].epoch == NEVER_OPENED
  }

  lemma OpenCounts(t: StreamTable, n: NodeId)
    requires StreamsExact(t)
    ensures |EntriesOf(t.openingByNode, n)| == |OpenOn(t.rows, n)|
  {
    forall id | id in OpenOn(t.rows, n) ensures (n, id) in EntriesOf(t.openingByNode, n) {
      assert IsOpenedOn(t.rows, (n, id));
    }
    SameSize(EntriesOf(t.openingByNode, n), OpenOn(t.rows, n), n);
  }

  lemma PlacedCounts(t: StreamTable, n: NodeId)
    requires StreamsExact(t) && n != UNPLACED
    ensures |EntriesOf(t.placedByNode, n)| == |PlacedOn(t.rows, n)|
  {
    forall id | id in PlacedOn(t.rows, n) ensures (n, id) in EntriesOf(t.placedByNode, n) {
      assert IsPlacedOn(t.rows, (n, id));
    }
    SameSize(EntriesOf(t.placedByNode, n), PlacedOn(t.rows, n), n);
  }

  /** The load of a node is the number of streams charged to it. */
  lemma LoadCounts(s: MetadataState, n: NodeId)
    requires StreamsExact(s.streams) && n != UNPLACED
    ensures Load(s.streams, n) == |StreamsOn(s.streams.rows, n)|
  {
    var rows := s.streams.rows;
    OpenCounts(s.streams, n);
    PlacedCounts(s.streams, n);
    forall id | id in rows ensures id in StreamsOn(rows, n) <==> id in OpenOn(rows, n) || id in PlacedOn(rows, n) {
      assert RowOk(id, rows[id], s.streams.nextId);
    }
    assert StreamsOn(rows, n) == OpenOn(rows, n) + PlacedOn(rows, n) && OpenOn(rows, n) !! PlacedOn(rows, n);
  }

  /** Placement takes the node with the fewest streams per slot, in thousandths and rounded down, the lowest id among
      equals, and never one without a slot. */
  lemma PlacesOnLeastLoaded(s: MetadataState, c: Command, m: NodeId)
    requires Inv(s) && UNPLACED !in s.nodes && c.PlaceStream? && ApplyCommand(s, c).Ok?
    requires s.streams.rows[c.streamId].nodeId == UNPLACED && m in s.nodes && s.nodes[m].slots >= 1
    ensures c.streamId in Step(s, c).streams.rows
    ensures
      var n, rows := Step(s, c).streams.rows[c.streamId].nodeId, s.streams.rows;
      && n in s.nodes && s.nodes[n].slots >= 1
      && var a, b := |StreamsOn(rows, n)| * 1000 / s.nodes[n].slots, |StreamsOn(rows, m)| * 1000 / s.nodes[m].slots;
         a < b || (a == b && n <= m)
  {
    var n := BestNode(s);
    assert Eligible(s.nodes, m) && Preferred(s, n, m);
    LoadCounts(s, n);
    LoadCounts(s, m);
  }

  predicate Loaded(s: MetadataState, n: NodeId) {
    Load(s.streams, n) > 0
  }

  /** Integer arithmetic, as the source computes it: one stream fewer would not have scored above anyone. */
  ghost predicate Fair(s: MetadataState) {
    forall i: NodeId, j: NodeId :: Loaded(s, i) && Eligible(s.nodes, j) ==>
      Eligible(s.nodes, i)
      && (Load(s.streams, i) - 1) * 1000 / s.nodes[i].slots <= Load(s.streams, j) * 1000 / s.nodes[j].slots
  }

  ghost predicate LoadsEligible(s: MetadataState) {
    forall i: NodeId :: Loaded(s, i) ==> Eligible(s.nodes, i)
  }

  /** No stream was ever closed after being opened. */
  ghost predicate NeverClosed(t: StreamTable) {
    forall id | id in t.rows :: t.rows[id].state == Closed ==> t.rows[id].epoch == NEVER_OPENED
  }

  ghost predicate Balanced(s: MetadataState) {
    Inv(s) && UNPLACED !in s.nodes && NeverClosed(s.streams) && LoadsEligible(s) && Fair(s)
  }

  /** Creating, placing, and opening a stream on the node it was placed on. */
  ghost predicate PlacementCommand(s: MetadataState, c: Command) {
    || c.CreateStream? || c.CreateStreams? || c.PlaceStream?
    || (c.OpenStream? && c.nodeId != UNPLACED && c.streamId in s.streams.rows
        && s.streams.rows[c.streamId].nodeId == c.nodeId)
  }

  lemma PositiveFactor(x: int, d: nat)
    requires x * d > 0
    ensures x > 0
  {
  }

  lemma DivMonotone(a: nat, b: nat, d: nat)
    requires a <= b && d >= 1
    ensures a / d <= b / d
  {
    var p, q := a / d, b / d;
    assert a == p * d + a % d && b == q * d + b % d;
    assert (q + 1 - p) * d == q * d + d - p * d;
    PositiveFactor(q + 1 - p, d);
  }

  lemma EntriesAdded(index: set<(NodeId, nat)>, e: (NodeId, nat), n: NodeId)
    requires e !in index
    ensures |EntriesOf(index + {e}, n)| == |EntriesOf(index, n)| + (if e.0 == n then 1 else 0)
  {
    if e.0 == n {
      assert EntriesOf(index + {e}, n) == EntriesOf(index, n) + {e};
    } else {
      assert EntriesOf(index + {e}, n) == EntriesOf(index, n);
    }
  }

  lemma EntriesRemoved(index: set<(NodeId, nat)>, e: (NodeId, nat), n: NodeId)
    requires e in index
    ensures |EntriesOf(index - {e}, n)| == |EntriesOf(index, n)| - (if e.0 == n then 1 else 0)
  {
    EntriesAdded(index - {e}, e, n);
    assert index - {e} + {e} == index;
  }

  /** Placing charges exactly the winner, by one. */
  lemma PlaceLoads(s: MetadataState, id: nat, n: NodeId)
    requires Inv(s) && UNPLACED !in s.nodes && DoPlaceStream(s, id).Ok? && s.streams.rows[id].nodeId == UNPLACED
    ensures HasBestNode(s)
    ensures Load(DoPlaceStream(s, id).state.streams, n) == Load(s.streams, n) + (if n == BestNode(s) then 1 else 0)
  {
    var e := (BestNode(s), id);
    assert e !in s.streams.placedByNode by {
      assert e in s.streams.placedByNode <==> IsPlacedOn(s.streams.rows, e);
    }
    EntriesAdded(s.streams.placedByNode, e, n);
  }

  /** Opening where it was placed moves the charge from placed to opening. */
  lemma OpenLoads(s: MetadataState, c: Command, n: NodeId)
    requires Inv(s) && NeverClosed(s.streams) && c.OpenStream? && PlacementCommand(s, c)
    ensures Load(Step(s, c).streams, n) == Load(s.streams, n)
  {
    var t, u := s.streams, Step(s, c).streams;
    if u != t {
      var e := (c.nodeId, c.streamId);
      assert e in t.placedByNode by { assert e in t.placedByNode <==> IsPlacedOn(t.rows, e); }
      assert e !in t.openingByNode by { assert e in t.openingByNode <==> IsOpenedOn(t.rows, e); }
      EntriesRemoved(t.placedByNode, e, n);
      EntriesAdded(t.openingByNode, e, n);
    }
  }

  lemma PlaceKeepsFair(s: MetadataState, id: nat)
    requires Balanced(s) && DoPlaceStream(s, id).Ok? && s.streams.rows[id].nodeId == UNPLACED
    ensures LoadsEligible(DoPlaceStream(s, id).state) && Fair(DoPlaceStream(s, id).state)
  {
    var u := DoPlaceStream(s, id).state;
    PlaceLoads(s, id, UNPLACED);
    var w := BestNode(s);
    forall i: NodeId | Loaded(u, i) ensures Eligible(u.nodes, i) {
      PlaceLoads(s, id, i);
    }
    forall i: NodeId, j: NodeId | Loaded(u, i) && Eligible(u.nodes, j)
      ensures (Load(u.streams, i) - 1) * 1000 / u.nodes[i].slots <= Load(u.streams, j) * 1000 / u.nodes[j].slots
    {
      PlaceKeepsPair(s, id, i, j);
    }
  }

  lemma PlaceKeepsPair(s: MetadataState, id: nat, i: NodeId, j: NodeId)
    requires Balanced(s) && DoPlaceStream(s, id).Ok? && s.streams.rows[id].nodeId == UNPLACED
    requires Loaded(DoPlaceStream(s, id).state, i) && Eligible(s.nodes, i) && Eligible(s.nodes, j)
    ensures
      var t := DoPlaceStream(s, id).state.streams;
      (Load(t, i) - 1) * 1000 / s.nodes[i].slots <= Load(t, j) * 1000 / s.nodes[j].slots
  {
    PlaceLoads(s, id, i);
    PlaceLoads(s, id, j);
    DivMonotone(Load(s.streams, j) * 1000, Load(DoPlaceStream(s, id).state.streams, j) * 1000, s.nodes[j].slots);
    if i == BestNode(s) {
      assert Preferred(s, i, j);
    } else {
      assert Loaded(s, i) && Eligible(s.nodes, j);
    }
  }

  lemma SameLoadsKeepFair(s: MetadataState, u: MetadataState)
    requires LoadsEligible(s) && Fair(s) && u.nodes == s.nodes
    requires forall n: NodeId :: Load(u.streams, n) == Load(s.streams, n)
    ensures LoadsEligible(u) && Fair(u)
  {
    forall i: NodeId, j: NodeId | Loaded(u, i) && Eligible(u.nodes, j)
      ensures Eligible(u.nodes, i)
      ensures (Load(u.streams, i) - 1) * 1000 / u.nodes[i].slots <= Load(u.streams, j) * 1000 / u.nodes[j].slots
    {
      assert Loaded(s, i) && Eligible(s.nodes, j);
    }
    forall i: NodeId | Loaded(u, i) ensures Eligible(u.nodes, i) {
      assert Loaded(s, i);
    }
  }

  lemma PlacementFrame(s: MetadataState, c: Command)
    requires NeverClosed(s.streams) && PlacementCommand(s, c)
    ensures Step(s, c).nodes == s.nodes && NeverClosed(Step(s, c).streams)
  {
    var t, u := s.streams, Step(s, c).streams;
    forall id | id in u.rows ensures u.rows[id].state == Closed ==> u.rows[id].epoch == NEVER_OPENED {
      assert id in t.rows || u.rows[id] == FreshRow(id);
    }
  }

  lemma SentinelNeverBest(s: MetadataState, c: Command)
    requires UNPLACED !in s.nodes
    ensures !PlacesOnSentinel(s, c)
  {
  }

  lemma CreateLoads(s: MetadataState, c: Command, n: NodeId)
    requires c.CreateStream? || c.CreateStreams?
    ensures Load(Step(s, c).streams, n) == Load(s.streams, n)
  {
  }

  lemma StepKeepsBalance(s: MetadataState, c: Command)
    requires Balanced(s) && PlacementCommand(s, c)
    ensures Balanced(Step(s, c)) && Step(s, c).nodes == s.nodes
  {
    SentinelNeverBest(s, c);
    StepKeeps(s, c);
    PlacementFrame(s, c);
    if c.PlaceStream? {
      PlaceStepFair(s, c);
    } else {
      forall n: NodeId ensures Load(Step(s, c).streams, n) == Load(s.streams, n) {
        if c.OpenStream? { OpenLoads(s, c, n); } else { CreateLoads(s, c, n); }
      }
      SameLoadsKeepFair(s, Step(s, c));
    }
  }

  lemma PlaceStepFair(s: MetadataState, c: Command)
    requires Balanced(s) && c.PlaceStream?
    ensures LoadsEligible(Step(s, c)) && Fair(Step(s, c))
  {
    if Step(s, c) != s {
      PlaceKeepsFair(s, c.streamId);
    }
  }

  /** Every command of the run creates, places, or opens a stream where it was placed. */
  ghost predicate PlacementRun(s: MetadataState, commands: seq<Command>) {
    forall i | 0 <= i < |commands| :: PlacementCommand(Run(s, commands[..i]), commands[i])
  }

  /** From empty load, any run of creations, placements and openings in place stays balanced. */
  lemma {:induction false} PlacementStaysFair(s: MetadataState, commands: seq<Command>)
    requires Inv(s) && UNPLACED !in s.nodes && NeverClosed(s.streams) && PlacementRun(s, commands)
    requires forall n: NodeId :: Load(s.streams, n) == 0
    ensures Balanced(Run(s, commands)) && Run(s, commands).nodes == s.nodes
  {
    if commands != [] {
      var n := |commands| - 1;
      forall i | 0 <= i < n ensures PlacementCommand(Run(s, commands[..n][..i]), commands[..n][i]) {
        assert commands[..n][..i] == commands[..i];
        assert PlacementCommand(Run(s, commands[..i]), commands[i]);
      }
      PlacementStaysFair(s, commands[..n]);
      assert PlacementCommand(Run(s, commands[..n]), commands[n]);
      StepKeepsBalance(Run(s, commands[..n]), commands[n]);
    }
  }
}
