/** The metadata state machine as the replicated one: its codecs meet the laws the protocol needs. */
module ReplicatedMetadata {
  import opened Bytes
  import opened Metadata
  import opened Apply
  import opened Indexes
  import opened Wire
  import opened Codec
  import opened Snapshot
  import Replication
  import StaleAppend

  type Cluster = Replication.Trace<MetadataState, Command, Reply>

  ghost function ReplyTo(s: MetadataState, c: Command): Reply {
    ReplyOf(ApplyCommand(s, c))
  }

  ghost predicate BatchOk(b: seq<Command>) {
    BatchFits(b) && forall c | c in b :: Registrable(c)
  }

  ghost predicate StateOk(s: MetadataState) {
    Inv(s) && UNPLACED !in s.nodes
  }

  ghost function ToBytes(b: seq<Command>): seq<byte> {
    if BatchFits(b) then EncodeBatch(b) else []
  }

  ghost function FromBytes(p: seq<byte>): Option<seq<Command>> {
    var r := DecodeBatch(p);
    if r.Success? then Some(r.value) else None
  }

  ghost function ToSnapshot(s: MetadataState): seq<byte> {
    if StateFits(s) then EncodeSnapshot(s) else []
  }

  ghost function FromSnapshot(p: seq<byte>): Option<MetadataState> {
    var r := DecodeSnapshot(p);
    if r.Success? then Some(r.value) else None
  }

  ghost function MetadataMachine(): Replication.Machine<MetadataState, Command, Reply> {
    Replication.Machine(EMPTY_STATE, Step, ReplyTo, BatchOk, ToBytes, FromBytes,
                        StateOk, StateFits, ToSnapshot, FromSnapshot)
  }

  /** Folding the protocol's step is replaying the commands. */
  lemma {:induction false} RunBatchIsRun(s: MetadataState, b: seq<Command>)
    ensures Replication.RunBatch(MetadataMachine(), s, b) == Run(s, b)
  {
    if b != [] {
      RunBatchIsRun(s, b[..|b| - 1]);
    }
  }

  lemma {:induction false} BatchKeepsExact(s: MetadataState, b: seq<Command>)
    requires StateOk(s) && forall c | c in b :: Registrable(c)
    ensures StateOk(Run(s, b))
  {
    if b != [] {
      var n := |b| - 1;
      assert b[n] in b;
      BatchKeepsExact(s, b[..n]);
      StepKeeps(Run(s, b[..n]), b[n]);
      NodesWrittenByRegister(Run(s, b[..n]), b[n]);
    }
  }

  lemma BatchLaw(b: seq<Command>)
    requires BatchOk(b)
    ensures FromBytes(ToBytes(b)) == Some(b)
  {
    BatchRoundTrip(b);
  }

  lemma SnapshotLaw(s: MetadataState)
    requires StateOk(s) && StateFits(s)
    ensures FromSnapshot(ToSnapshot(s)) == Some(s)
  {
    SnapshotRoundTrip(s);
  }

  lemma FoldLaw(s: MetadataState, b: seq<Command>)
    requires StateOk(s) && BatchOk(b)
    ensures StateOk(Replication.RunBatch(MetadataMachine(), s, b))
  {
    RunBatchIsRun(s, b);
    BatchKeepsExact(s, b);
  }

  /** Batch codec, snapshot identity and index exactness are exactly what replication needs. */
  lemma MetadataLawful()
    ensures Replication.Lawful(MetadataMachine())
  {
    var m := MetadataMachine();
    forall b | m.fits(b) ensures m.decode(m.encode(b)) == Some(b) { BatchLaw(b); }
    forall s | m.good(s) && m.sized(s) ensures m.load(m.save(s)) == Some(s) { SnapshotLaw(s); }
    forall s, b | m.good(s) && m.fits(b) ensures m.good(Replication.RunBatch(m, s, b)) { FoldLaw(s, b); }
    IndexesExactOnEveryRun([]);
  }

  /** On every harmless run of the cluster, nodes at the same index hold the same metadata state. */
  lemma MetadataAgreement(t: Cluster, i: nat, j: nat, p: nat, q: nat)
    requires Replication.HarmlessRun(MetadataMachine(), t) && i <= j < |t.worlds|
    requires p in t.worlds[i].nodes && q in t.worlds[j].nodes
    ensures !t.worlds[i].nodes[p].Failed? && !t.worlds[j].nodes[q].Failed?
    ensures t.worlds[i].nodes[p].tail.applied == t.worlds[j].nodes[q].tail.applied ==>
              t.worlds[i].nodes[p].tail.state == t.worlds[j].nodes[q].tail.state
  {
    MetadataLawful();
    Replication.Agreement(MetadataMachine(), t, i, j, p, q);
  }

  // ---- the guard is needed ----

  lemma EmptyStateFits()
    ensures StateFits(EMPTY_STATE)
  {
    var l := ListingOf(EMPTY_STATE);
    assert l == Listing(0, [], [], 0, [], [], [], [], 0, [], []);
    EmptyListingFits();
  }

  lemma EmptyListingFits()
    ensures Fits(SNAPSHOT, ListingVal(Listing(0, [], [], 0, [], [], [], [], 0, [], [])))
  {
    EmptyPartsFit();
    FitsPointwise([ROWS, PAIRS], [EmptyRows(), EmptyPairs()]);
    NoVals(RowVal);
    NoVals(NodeVal);
    NoVals(LeaseVal);
    NoVals(SetVal);
    NoVals(MetaVal);
    NoVals(MarkVal);
    NoVals(KvVal);
    NoVals(TransferVal);
  }

  lemma NoVals<T>(val: T -> Val)
    ensures Vals([], val) == Items([])
  {
    assert ItemsOf(Vals([], val)) == [];
  }

  ghost function EmptyRows(): Val {
    Items([Num(0), Items([]), Items([]), Num(0), Items([]), Items([])])
  }

  ghost function EmptyPairs(): Val {
    Items([Items([]), Items([]), Num(0), Items([]), Items([])])
  }

  lemma EmptyFits(elem: Shape)
    ensures Fits(Counted(8, elem), Items([])) && Fits(U64, Num(0))
  {
  }

  lemma EmptyPartsFit()
    ensures Fits(ROWS, EmptyRows()) && Fits(PAIRS, EmptyPairs())
  {
    forall elem: Shape ensures Fits(Counted(8, elem), Items([])) { EmptyFits(elem); }
    EmptyFits(U64);
    FitsPointwise(ROW_PARTS, EmptyRows().vs);
    FitsPointwise(PAIR_PARTS, EmptyPairs().vs);
  }

  lemma KeyFits(key: Utf8)
    requires |key| == 1
    ensures Fits(Text, Raw(key)) && Fits(Blob, Raw([])) && 1 < Pow256(4)
  {
    assert Pow256(4) == 256 * Pow256(3) && Pow256(3) == 256 * Pow256(2);
  }

  lemma KvCommandsFit(key: Utf8)
    requires |key| == 1
    ensures CommandFits(DeleteKv(key)) && CommandFits(PutKv(key, []))
  {
    KeyFits(key);
    FitsPointwise(BodyParts(14).value, Fields(DeleteKv(key)));
    FitsPointwise(BodyParts(12).value, Fields(PutKv(key, [])));
  }

  lemma KvCommandsDiffer(key: Utf8)
    ensures Run(EMPTY_STATE, [DeleteKv(key)]) == EMPTY_STATE && Run(EMPTY_STATE, [PutKv(key, [])]) != EMPTY_STATE
  {
    var x, y := [DeleteKv(key)], [PutKv(key, [])];
    assert x[..0] == [] && y[..0] == [];
    assert Run(EMPTY_STATE, x) == Step(EMPTY_STATE, DeleteKv(key));
    assert Step(EMPTY_STATE, DeleteKv(key)).kv == map[];
    assert Run(EMPTY_STATE, y) == Step(EMPTY_STATE, PutKv(key, []));
    assert key in Step(EMPTY_STATE, PutKv(key, [])).kv;
  }

  /** Two batches the machine takes, of which one changes the empty state and the other leaves it alone. */
  lemma ForkingBatches() returns (x: seq<Command>, y: seq<Command>)
    ensures MetadataMachine().fits(x) && MetadataMachine().fits(y)
    ensures Replication.RunBatch(MetadataMachine(), EMPTY_STATE, x) == EMPTY_STATE
    ensures Replication.RunBatch(MetadataMachine(), EMPTY_STATE, y) != EMPTY_STATE
  {
    var key: Utf8 := [107];
    x, y := [DeleteKv(key)], [PutKv(key, [])];
    KeyFits(key);
    KvCommandsFit(key);
    KvCommandsDiffer(key);
    RunBatchIsRun(EMPTY_STATE, x);
    RunBatchIsRun(EMPTY_STATE, y);
  }

  ghost predicate Forked(w: Replication.World<MetadataState, Command, Reply>) {
    && 0 in w.nodes && 1 in w.nodes && w.nodes[0].Up? && w.nodes[1].Up?
    && w.nodes[0].tail.applied == w.nodes[1].tail.applied && w.nodes[0].tail.state != w.nodes[1].tail.state
  }

  /** A run of two nodes, with no statement lost or failed, after which both stand at index 1 with different states. */
  lemma MetadataForksWithoutGuard() returns (t: Cluster)
    ensures Replication.IsRun(MetadataMachine(), t) && Forked(StaleAppend.Last(t))
  {
    var x, y := ForkingBatches();
    MetadataLawful();
    EmptyStateFits();
    t := StaleAppend.StaleAppendForks(MetadataMachine(), x, y);
  }
}
