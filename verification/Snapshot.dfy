/** Snapshots store the primary maps only; restoring rebuilds every secondary index. */
module Snapshot {
  import opened Bytes
  import opened Metadata
  import opened Order
  import opened Apply
  import opened Indexes
  import opened Wire
  import opened Codec

  const SNAPSHOT_VERSION: byte := 0

  const META: Shape := Record([U64, U8, U64, U32, I64, I64, Counted(4, Record([U64, U64, U64]))])

  const ROW_PARTS: seq<Shape> := [
    U64, Counted(8, Record([U64, I64, U64, U64, U8, I32])),
    Counted(8, Record([I32, I64, Text, U32])),
    U64, Counted(8, Record([U64, I64])),
    Counted(8, Record([I32, META]))]

  const PAIR_PARTS: seq<Shape> := [
    Counted(8, META),
    Counted(8, Record([U64, U64, U8])), U64,
    Counted(8, Record([Text, Blob])),
    Counted(8, Record([U64, I32, I32]))]

  const ROWS: Shape := Record(ROW_PARTS)

  const PAIRS: Shape := Record(PAIR_PARTS)

  const SNAPSHOT: Shape := Record([ROWS, PAIRS])

  // ---- key orders of the ordered maps ----

  predicate NatLess(a: nat, b: nat) { a < b }

  predicate NodeLess(a: NodeId, b: NodeId) { a < b }

  /** Byte-wise lexicographic order of strings. */
  predicate TextLess(a: Utf8, b: Utf8) {
    BytesLess(a, b)
  }

  predicate BytesLess(a: seq<byte>, b: seq<byte>) {
    b != [] && (a == [] || a[0] < b[0] || (a[0] == b[0] && BytesLess(a[1..], b[1..])))
  }

  lemma {:induction false} BytesLessTotal(a: seq<byte>, b: seq<byte>)
    ensures !BytesLess(a, a) && (a == b || BytesLess(a, b) || BytesLess(b, a))
    decreases |a|
  {
    if a != [] && b != [] {
      BytesLessTotal(a[1..], b[1..]);
      assert a == [a[0]] + a[1..] && b == [b[0]] + b[1..];
    } else if a != [] {
      BytesLessTotal(a[1..], []);
    }
  }

  lemma {:induction false} BytesLessTransitive(a: seq<byte>, b: seq<byte>, c: seq<byte>)
    requires BytesLess(a, b) && BytesLess(b, c)
    ensures BytesLess(a, c)
    decreases |b|
  {
    if a != [] && a[0] == b[0] && b[0] == c[0] {
      BytesLessTransitive(a[1..], b[1..], c[1..]);
    }
  }

  lemma OrdersTotal()
    ensures StrictTotal(NatLess) && StrictTotal(NodeLess) && StrictTotal(TextLess) && StrictTotal(KeyLess)
  {
    forall a: Utf8, b: Utf8 ensures !TextLess(a, a) && (a == b || TextLess(a, b) || TextLess(b, a)) {
      BytesLessTotal(a, b);
    }
    forall a: Utf8, b: Utf8, c: Utf8 | TextLess(a, b) && TextLess(b, c) ensures TextLess(a, c) {
      BytesLessTransitive(a, b, c);
    }
  }

  function Nats(keys: set<nat>): (s: seq<nat>)
    ensures |s| == |keys| && Ascends(NatLess, s) && forall k :: k in s <==> k in keys
  {
    OrdersTotal();
    Ascending(keys, NatLess)
  }

  function Nodes(keys: set<NodeId>): (s: seq<NodeId>)
    ensures |s| == |keys| && Ascends(NodeLess, s) && forall k :: k in s <==> k in keys
  {
    OrdersTotal();
    Ascending(keys, NodeLess)
  }

  function Texts(keys: set<Utf8>): (s: seq<Utf8>)
    ensures |s| == |keys| && Ascends(TextLess, s) && forall k :: k in s <==> k in keys
  {
    OrdersTotal();
    Ascending(keys, TextLess)
  }

  // ---- primary rows as layout values ----

  function RowVal(r: StreamRow): Val {
    Items([Num(r.streamId), Num(r.epoch), Num(r.startOffset), Num(r.endOffset),
           Num(if r.state == Closed then 0 else 1), Num(r.nodeId)])
  }

  function NodeVal(n: NodeRow): Val {
    Items([Num(n.nodeId), Num(n.epoch), Raw(n.httpAddress), Num(n.slots)])
  }

  function OffsetRangeVal(r: OffsetRange): Val {
    Items([Num(r.streamId), Num(r.startOffset), Num(r.endOffset)])
  }

  function MetaVal(m: ObjectMeta): Val {
    Items([Num(m.objectId), Num(if m.objectType == StreamSet then 0 else 1), Num(m.size), Num(m.attributes),
           Num(m.committedMs), Num(m.dataMs),
           Items(seq(|m.ranges|, i requires 0 <= i < |m.ranges| => OffsetRangeVal(m.ranges[i])))])
  }

  function SetVal(r: StreamSetRow): Val {
    Items([Num(r.nodeId), MetaVal(r.meta)])
  }

  function LeaseVal(p: (nat, int)): Val {
    Items([Num(p.0), Num(p.1)])
  }

  function MarkVal(p: (nat, Destroyed)): Val {
    Items([Num(p.0), Num(p.1.objectId), Num(OpCode(p.1.op))])
  }

  function KvVal(p: (Utf8, seq<byte>)): Val {
    Items([Raw(p.0), Raw(p.1)])
  }

  function TransferVal(p: (nat, PendingTransfer)): Val {
    Items([Num(p.0), Num(p.1.fromNode), Num(p.1.toNode)])
  }

  /** The values of `m` at the given keys, in key order. */
  function At<K, V>(m: map<K, V>, keys: seq<K>): (s: seq<V>)
    requires forall k | k in keys :: k in m
    ensures |s| == |keys|
  {
    if keys == [] then []
    else
      var n := |keys| - 1;
      At(m, keys[..n]) + [m[keys[n]]]
  }

  function Pairs<K, V>(m: map<K, V>, keys: seq<K>): (s: seq<(K, V)>)
    requires forall k | k in keys :: k in m
    ensures |s| == |keys|
  {
    if keys == [] then []
    else
      var n := |keys| - 1;
      Pairs(m, keys[..n]) + [(keys[n], m[keys[n]])]
  }

  function Vals<T>(xs: seq<T>, val: T -> Val): Val {
    Items(seq(|xs|, i requires 0 <= i < |xs| => val(xs[i])))
  }

  /** What a snapshot stores: the counters and the primary maps' rows, each list in key order. */
  datatype Listing = Listing(
    nextStream: nat, streams: seq<StreamRow>, nodes: seq<NodeRow>,
    nextObject: nat, leases: seq<(nat, int)>, sets: seq<StreamSetRow>, objects: seq<ObjectMeta>,
    queue: seq<(nat, Destroyed)>, nextSeq: nat, kv: seq<(Utf8, seq<byte>)>, transfers: seq<(nat, PendingTransfer)>)

  function ListingOf(s: MetadataState): Listing {
    Listing(s.streams.nextId, At(s.streams.rows, Nats(s.streams.rows.Keys)), At(s.nodes, Nodes(s.nodes.Keys)),
            s.leases.nextId, Pairs(s.leases.prepared, Nats(s.leases.prepared.Keys)),
            At(s.sets.rows, Nats(s.sets.rows.Keys)), At(s.objects.rows, AscendingKeys(s.objects.rows.Keys)),
            Pairs(s.destroyed.marked, Nats(s.destroyed.marked.Keys)), s.destroyed.nextSeq,
            Pairs(s.kv, Texts(s.kv.Keys)), Pairs(s.streams.transfers, Nats(s.streams.transfers.Keys)))
  }

  function RowsVal(l: Listing): Val {
    Items([Num(l.nextStream), Vals(l.streams, RowVal), Vals(l.nodes, NodeVal),
           Num(l.nextObject), Vals(l.leases, LeaseVal), Vals(l.sets, SetVal)])
  }

  function PairsVal(l: Listing): Val {
    Items([Vals(l.objects, MetaVal), Vals(l.queue, MarkVal), Num(l.nextSeq),
           Vals(l.kv, KvVal), Vals(l.transfers, TransferVal)])
  }

  function ListingVal(l: Listing): Val {
    Items([RowsVal(l), PairsVal(l)])
  }

  /** Every counter, id and length of the state fits its wire width. */
  predicate StateFits(s: MetadataState) {
    Fits(SNAPSHOT, ListingVal(ListingOf(s)))
  }

  // ---- layout values back to rows ----

  function RowFrom(v: Val): Option<StreamRow> {
    var p := ItemsOf(v);
    if Part(p, 4) != Num(0) && Part(p, 4) != Num(1) then None
    else Some(StreamRow(NatOf(Part(p, 0)), IntOf(Part(p, 1)), NatOf(Part(p, 2)), NatOf(Part(p, 3)),
                        if Part(p, 4) == Num(0) then Closed else Opened, NodeOf(Part(p, 5))))
  }

  function NodeFrom(v: Val): Option<NodeRow> {
    var p := ItemsOf(v);
    Some(NodeRow(NodeOf(Part(p, 0)), IntOf(Part(p, 1)), TextOf(Part(p, 2)), NatOf(Part(p, 3))))
  }

  function LeaseFrom(v: Val): Option<(nat, int)> {
    Some((NatOf(Part(ItemsOf(v), 0)), IntOf(Part(ItemsOf(v), 1))))
  }

  function OffsetRangeFrom(v: Val): OffsetRange {
    var p := ItemsOf(v);
    OffsetRange(NatOf(Part(p, 0)), NatOf(Part(p, 1)), NatOf(Part(p, 2)))
  }

  function MetaFrom(v: Val): Option<ObjectMeta> {
    var p := ItemsOf(v);
    var ranges := ItemsOf(Part(p, 6));
    if Part(p, 1) != Num(0) && Part(p, 1) != Num(1) then None
    else Some(ObjectMeta(NatOf(Part(p, 0)), if Part(p, 1) == Num(0) then StreamSet else SingleStream,
                         seq(|ranges|, i requires 0 <= i < |ranges| => OffsetRangeFrom(ranges[i])),
                         NatOf(Part(p, 2)), NatOf(Part(p, 3)), IntOf(Part(p, 4)), IntOf(Part(p, 5))))
  }

  function SetFrom(v: Val): Option<StreamSetRow> {
    var meta :- MetaFrom(Part(ItemsOf(v), 1));
    Some(StreamSetRow(NodeOf(Part(ItemsOf(v), 0)), meta))
  }

  /** A stream object must have exactly one range. */
  function SingleFrom(v: Val): Option<ObjectMeta> {
    var meta :- MetaFrom(v);
    if |meta.ranges| != 1 then None else Some(meta)
  }

  function MarkFrom(v: Val): Option<(nat, Destroyed)> {
    var p := ItemsOf(v);
    var op :- OpFrom(Part(p, 2));
    Some((NatOf(Part(p, 0)), Destroyed(NatOf(Part(p, 1)), op)))
  }

  function KvFrom(v: Val): Option<(Utf8, seq<byte>)> {
    Some((TextOf(Part(ItemsOf(v), 0)), RawOf(Part(ItemsOf(v), 1))))
  }

  function TransferFrom(v: Val): Option<(nat, PendingTransfer)> {
    var p := ItemsOf(v);
    Some((NatOf(Part(p, 0)), PendingTransfer(NodeOf(Part(p, 1)), NodeOf(Part(p, 2)))))
  }

  function FromAll<T>(vs: seq<Val>, from: Val -> Option<T>): Option<seq<T>> {
    if vs == [] then Some([])
    else
      var init :- FromAll(vs[..|vs| - 1], from);
      var last :- from(vs[|vs| - 1]);
      Some(init + [last])
  }

  lemma {:induction false} FromAllVals<T>(xs: seq<T>, val: T -> Val, from: Val -> Option<T>)
    requires forall x | x in xs :: from(val(x)) == Some(x)
    ensures FromAll(ItemsOf(Vals(xs, val)), from) == Some(xs)
  {
    if xs != [] {
      var n := |xs| - 1;
      FromAllVals(xs[..n], val, from);
      assert ItemsOf(Vals(xs, val))[..n] == ItemsOf(Vals(xs[..n], val));
      assert xs[..n] + [xs[n]] == xs && xs[n] in xs;
    }
  }

  // ---- rebuilding tables row by row ----

  function LoadStream(t: StreamTable, row: StreamRow): StreamTable {
    var e := (row.nodeId, row.streamId);
    t.(rows := t.rows[row.streamId := row],
       openingByNode := if row.state == Opened then t.openingByNode + {e} else t.openingByNode,
       placedByNode := if row.state == Closed && row.epoch == NEVER_OPENED && row.nodeId != UNPLACED
                       then t.placedByNode + {e} else t.placedByNode)
  }

  function LoadStreams(t: StreamTable, rows: seq<StreamRow>): StreamTable {
    if rows == [] then t else LoadStream(LoadStreams(t, rows[..|rows| - 1]), rows[|rows| - 1])
  }

  function LoadLeases(t: LeaseTable, rows: seq<(nat, int)>): LeaseTable {
    if rows == [] then t
    else
      var u, r := LoadLeases(t, rows[..|rows| - 1]), rows[|rows| - 1];
      u.(prepared := u.prepared[r.0 := r.1], byDeadline := u.byDeadline + {(r.1, r.0)})
  }

  function LoadSets(t: SetTable, rows: seq<StreamSetRow>): SetTable {
    if rows == [] then t
    else AddSet(LoadSets(t, rows[..|rows| - 1]), rows[|rows| - 1].meta.objectId, rows[|rows| - 1])
  }

  /** `SingleFrom` admits only metas with exactly one range. */
  function LoadObject(t: ObjectTable, meta: ObjectMeta): ObjectTable {
    if |meta.ranges| != 1 then t
    else
      var k := OffsetKey(meta.ranges[0].streamId, meta.ranges[0].startOffset, meta.objectId);
      ObjectTable(t.rows[k := meta], t.ids[meta.objectId := k])
  }

  function LoadObjects(t: ObjectTable, metas: seq<ObjectMeta>): ObjectTable {
    if metas == [] then t
    else LoadObject(LoadObjects(t, metas[..|metas| - 1]), metas[|metas| - 1])
  }

  function LoadQueue(t: DestroyedQueue, rows: seq<(nat, Destroyed)>): DestroyedQueue {
    if rows == [] then t
    else
      var u, r := LoadQueue(t, rows[..|rows| - 1]), rows[|rows| - 1];
      u.(marked := u.marked[r.0 := r.1], byId := u.byId[r.1.objectId := r.0])
  }

  function LoadMap<K, V>(pairs: seq<(K, V)>): map<K, V> {
    if pairs == [] then map[]
    else LoadMap(pairs[..|pairs| - 1])[pairs[|pairs| - 1].0 := pairs[|pairs| - 1].1]
  }

  function NodePairs(rows: seq<NodeRow>): seq<(NodeId, NodeRow)> {
    seq(|rows|, i requires 0 <= i < |rows| => (rows[i].nodeId, rows[i]))
  }

  function RowListsFrom(p: seq<Val>): Option<(seq<StreamRow>, seq<NodeRow>, seq<(nat, int)>, seq<StreamSetRow>)> {
    var streams :- FromAll(ItemsOf(Part(p, 1)), RowFrom);
    var nodes :- FromAll(ItemsOf(Part(p, 2)), NodeFrom);
    var leases :- FromAll(ItemsOf(Part(p, 4)), LeaseFrom);
    var sets :- FromAll(ItemsOf(Part(p, 5)), SetFrom);
    Some((streams, nodes, leases, sets))
  }

  function PairListsFrom(p: seq<Val>)
    : Option<(seq<ObjectMeta>, seq<(nat, Destroyed)>, seq<(Utf8, seq<byte>)>, seq<(nat, PendingTransfer)>)>
  {
    var objects :- FromAll(ItemsOf(Part(p, 0)), SingleFrom);
    var queue :- FromAll(ItemsOf(Part(p, 1)), MarkFrom);
    var kv :- FromAll(ItemsOf(Part(p, 3)), KvFrom);
    var transfers :- FromAll(ItemsOf(Part(p, 4)), TransferFrom);
    Some((objects, queue, kv, transfers))
  }

  function ListingFrom(v: Val): Option<Listing> {
    var p, q := ItemsOf(Part(ItemsOf(v), 0)), ItemsOf(Part(ItemsOf(v), 1));
    var a :- RowListsFrom(p);
    var b :- PairListsFrom(q);
    Some(Listing(NatOf(Part(p, 0)), a.0, a.1, NatOf(Part(p, 3)), a.2, a.3, b.0, b.1, NatOf(Part(q, 2)), b.2, b.3))
  }

  /** Rebuilds the state, inserting row by row into the primary maps and every secondary index. */
  function Load(l: Listing): MetadataState {
    MetadataState(
      LoadStreams(StreamTable(l.nextStream, map[], {}, {}, map[]), l.streams).(transfers := LoadMap(l.transfers)),
      LoadMap(NodePairs(l.nodes)),
      LoadLeases(LeaseTable(l.nextObject, map[], {}), l.leases),
      LoadSets(SetTable(map[], map[], {}), l.sets),
      LoadObjects(ObjectTable(map[], map[]), l.objects),
      LoadQueue(DestroyedQueue(map[], map[], l.nextSeq), l.queue),
      LoadMap(l.kv))
  }

  function EncodeSnapshot(s: MetadataState): seq<byte>
    requires StateFits(s)
  {
    [SNAPSHOT_VERSION] + Encode(SNAPSHOT, ListingVal(ListingOf(s)))
  }

  function DecodeSnapshot(b: seq<byte>): Result<MetadataState, WireError> {
    if b == [] then Failure(Corrupt)
    else if b[0] != SNAPSHOT_VERSION then Failure(UnsupportedVersion(b[0]))
    else
      var v :- Decode(SNAPSHOT, b[1..]);
      var l := ListingFrom(v.value);
      if l.None? || v.rest != [] then Failure(Corrupt) else Success(Load(l.value))
  }

  // ---- a table reloaded from its own rows is the table itself ----

  /** `u` is `m` cut down to the given keys. */
  ghost predicate Restricts<K(!new), V>(u: map<K, V>, m: map<K, V>, keys: seq<K>) {
    (forall k :: k in u <==> k in keys) && forall k | k in u :: k in m && u[k] == m[k]
  }

  predicate Distinct<K(==)>(keys: seq<K>) {
    forall i, j | 0 <= i < j < |keys| :: keys[i] != keys[j]
  }

  lemma AscendingDistinct<K(!new)>(less: (K, K) -> bool, keys: seq<K>)
    requires StrictTotal(less) && Ascends(less, keys)
    ensures Distinct(keys)
  {
    forall i, j | 0 <= i < j < |keys| ensures keys[i] != keys[j] {
      AscendsDistinct(less, keys, i, j);
    }
  }

  lemma {:induction false} LoadMapRestricts<K(!new), V>(m: map<K, V>, keys: seq<K>)
    requires forall k | k in keys :: k in m
    ensures Restricts(LoadMap(Pairs(m, keys)), m, keys)
  {
    if keys != [] {
      var n := |keys| - 1;
      LoadMapRestricts(m, keys[..n]);
      assert Pairs(m, keys)[..n] == Pairs(m, keys[..n]);
      assert keys == keys[..n] + [keys[n]];
    }
  }

  lemma LoadMapAll<K(!new), V>(m: map<K, V>, keys: seq<K>)
    requires forall k :: k in keys <==> k in m
    ensures LoadMap(Pairs(m, keys)) == m
  {
    LoadMapRestricts(m, keys);
  }

  lemma LoadStreamKeeps(u: StreamTable, row: StreamRow)
    requires StreamsExact(u) && u.transfers == map[] && row.streamId !in u.rows
    requires RowOk(row.streamId, row, u.nextId)
    ensures StreamsExact(LoadStream(u, row))
  {
    var w := LoadStream(u, row);
    forall e: (NodeId, nat)
      ensures e in w.openingByNode <==> IsOpenedOn(w.rows, e)
      ensures e in w.placedByNode <==> IsPlacedOn(w.rows, e)
    {
      assert e in u.openingByNode <==> IsOpenedOn(u.rows, e);
      assert e in u.placedByNode <==> IsPlacedOn(u.rows, e);
      assert e == (e.0, e.1);
    }
  }

  lemma RestrictsOneMore<K(!new), V>(u: map<K, V>, m: map<K, V>, keys: seq<K>, n: nat)
    requires |keys| == n + 1 && keys[n] in m && Restricts(u, m, keys[..n])
    ensures Restricts(u[keys[n] := m[keys[n]]], m, keys)
  {
    assert keys == keys[..n] + [keys[n]];
  }

  lemma {:induction false} LoadStreamsExact(t: StreamTable, keys: seq<nat>)
    requires StreamsExact(t) && Distinct(keys) && forall k | k in keys :: k in t.rows
    ensures
      var u := LoadStreams(StreamTable(t.nextId, map[], {}, {}, map[]), At(t.rows, keys));
      StreamsExact(u) && Restricts(u.rows, t.rows, keys) && u.nextId == t.nextId && u.transfers == map[]
  {
    if keys != [] {
      var n := |keys| - 1;
      LoadStreamsExact(t, keys[..n]);
      var u := LoadStreams(StreamTable(t.nextId, map[], {}, {}, map[]), At(t.rows, keys[..n]));
      assert At(t.rows, keys)[..n] == At(t.rows, keys[..n]) && keys[n] in keys;
      RestrictsOneMore(u.rows, t.rows, keys, n);
      LoadStreamKeeps(u, t.rows[keys[n]]);
    }
  }

  lemma StreamsReload(t: StreamTable)
    requires StreamsExact(t)
    ensures LoadStreams(StreamTable(t.nextId, map[], {}, {}, map[]), At(t.rows, Nats(t.rows.Keys)))
              .(transfers := t.transfers) == t
  {
    var keys := Nats(t.rows.Keys);
    assert forall k | k in keys :: k in t.rows.Keys;
    LoadStreamsExact(t, keys);
    var u := LoadStreams(StreamTable(t.nextId, map[], {}, {}, map[]), At(t.rows, keys));
    assert u.rows == t.rows;
    assert u.openingByNode == t.openingByNode;
    assert u.placedByNode == t.placedByNode;
  }

  lemma {:induction false} LoadLeasesExact(t: LeaseTable, keys: seq<nat>)
    requires LeasesExact(t) && Distinct(keys) && forall k | k in keys :: k in t.prepared
    ensures
      var u := LoadLeases(LeaseTable(t.nextId, map[], {}), Pairs(t.prepared, keys));
      LeasesExact(u) && Restricts(u.prepared, t.prepared, keys) && u.nextId == t.nextId
  {
    if keys != [] {
      var n := |keys| - 1;
      LoadLeasesExact(t, keys[..n]);
      var u := LoadLeases(LeaseTable(t.nextId, map[], {}), Pairs(t.prepared, keys[..n]));
      assert Pairs(t.prepared, keys)[..n] == Pairs(t.prepared, keys[..n]) && keys[n] in keys;
      RestrictsOneMore(u.prepared, t.prepared, keys, n);
    }
  }

  lemma LeasesReload(t: LeaseTable)
    requires LeasesExact(t)
    ensures LoadLeases(LeaseTable(t.nextId, map[], {}), Pairs(t.prepared, Nats(t.prepared.Keys))) == t
  {
    var keys := Nats(t.prepared.Keys);
    assert forall k | k in keys :: k in t.prepared.Keys;
    LoadLeasesExact(t, keys);
    var u := LoadLeases(LeaseTable(t.nextId, map[], {}), Pairs(t.prepared, keys));
    assert u.prepared == t.prepared;
    assert u.byDeadline == t.byDeadline;
  }

  lemma {:induction false} LoadSetsExact(t: SetTable, keys: seq<nat>)
    requires SetsExact(t) && Distinct(keys) && forall k | k in keys :: k in t.rows
    ensures
      var u := LoadSets(SetTable(map[], map[], {}), At(t.rows, keys));
      SetsExact(u) && Restricts(u.rows, t.rows, keys)
  {
    if keys != [] {
      var n := |keys| - 1;
      LoadSetsExact(t, keys[..n]);
      var u := LoadSets(SetTable(map[], map[], {}), At(t.rows, keys[..n]));
      assert At(t.rows, keys)[..n] == At(t.rows, keys[..n]) && keys[n] in keys;
      RestrictsOneMore(u.rows, t.rows, keys, n);
      AddSetKeeps(u, keys[n], t.rows[keys[n]]);
    }
  }

  /** The rows determine the range index and the node index. */
  lemma SetsDetermined(t: SetTable, u: SetTable)
    requires SetsExact(t) && SetsExact(u) && t.rows == u.rows
    ensures t == u
  {
    forall k ensures k in u.ranges <==> k in t.ranges {
      assert k in u.ranges <==> IndexedEnd(t.rows, k).Some?;
    }
    assert u.ranges == t.ranges;
    assert u.byNode == t.byNode;
  }

  lemma SetsReload(t: SetTable)
    requires SetsExact(t)
    ensures LoadSets(SetTable(map[], map[], {}), At(t.rows, Nats(t.rows.Keys))) == t
  {
    var keys := Nats(t.rows.Keys);
    assert forall k | k in keys :: k in t.rows.Keys;
    LoadSetsExact(t, keys);
    var u := LoadSets(SetTable(map[], map[], {}), At(t.rows, keys));
    assert u.rows == t.rows;
    SetsDetermined(t, u);
  }

  lemma {:induction false} SinglesAt(t: ObjectTable, keys: seq<OffsetKey>)
    requires ObjectsExact(t) && forall k | k in keys :: k in t.rows
    ensures forall m | m in At(t.rows, keys) :: |m.ranges| == 1
  {
    if keys != [] {
      SinglesAt(t, keys[..|keys| - 1]);
      assert KeyMatches(keys[|keys| - 1], t.rows[keys[|keys| - 1]]);
    }
  }

  lemma {:induction false} LoadObjectsExact(t: ObjectTable, keys: seq<OffsetKey>)
    requires ObjectsExact(t) && Distinct(keys) && forall k | k in keys :: k in t.rows
    ensures
      var u := LoadObjects(ObjectTable(map[], map[]), At(t.rows, keys));
      ObjectsExact(u) && Restricts(u.rows, t.rows, keys)
  {
    if keys != [] {
      var n := |keys| - 1;
      LoadObjectsExact(t, keys[..n]);
      var u := LoadObjects(ObjectTable(map[], map[]), At(t.rows, keys[..n]));
      assert At(t.rows, keys)[..n] == At(t.rows, keys[..n]) && keys[n] in keys;
      RestrictsOneMore(u.rows, t.rows, keys, n);
      LoadObjectKeeps(t, u, keys[n]);
    }
  }

  lemma LoadObjectKeeps(t: ObjectTable, u: ObjectTable, k: OffsetKey)
    requires ObjectsExact(t) && ObjectsExact(u) && k in t.rows && k !in u.rows
    requires forall other | other in u.rows :: other in t.rows && u.rows[other] == t.rows[other]
    ensures LoadObject(u, t.rows[k]).rows == u.rows[k := t.rows[k]] && ObjectsExact(LoadObject(u, t.rows[k]))
  {
    assert KeyMatches(k, t.rows[k]);
    assert OffsetKey(t.rows[k].ranges[0].streamId, t.rows[k].ranges[0].startOffset, t.rows[k].objectId) == k;
    forall other | other in u.rows ensures other.objectId != k.objectId {
      assert t.ids[other.objectId] == other && t.ids[k.objectId] == k;
    }
  }

  lemma ObjectsDetermined(t: ObjectTable, u: ObjectTable)
    requires ObjectsExact(t) && ObjectsExact(u) && t.rows == u.rows
    ensures t == u
  {
    assert u.ids == t.ids;
  }

  lemma ObjectsReload(t: ObjectTable)
    requires ObjectsExact(t)
    ensures LoadObjects(ObjectTable(map[], map[]), At(t.rows, AscendingKeys(t.rows.Keys))) == t
  {
    var keys := AscendingKeys(t.rows.Keys);
    assert forall k | k in keys :: k in t.rows.Keys;
    assert Distinct(keys) by {
      KeyLessIsTotal();
      AscendingDistinct(KeyLess, keys);
    }
    LoadObjectsExact(t, keys);
    var u := LoadObjects(ObjectTable(map[], map[]), At(t.rows, keys));
    assert u.rows == t.rows;
    ObjectsDetermined(t, u);
  }

  lemma {:induction false} LoadQueueExact(t: DestroyedQueue, keys: seq<nat>)
    requires QueueExact(t) && Distinct(keys) && forall k | k in keys :: k in t.marked
    ensures
      var u := LoadQueue(DestroyedQueue(map[], map[], t.nextSeq), Pairs(t.marked, keys));
      QueueExact(u) && Restricts(u.marked, t.marked, keys) && u.nextSeq == t.nextSeq
  {
    if keys != [] {
      var n := |keys| - 1;
      LoadQueueExact(t, keys[..n]);
      var u := LoadQueue(DestroyedQueue(map[], map[], t.nextSeq), Pairs(t.marked, keys[..n]));
      assert Pairs(t.marked, keys)[..n] == Pairs(t.marked, keys[..n]) && keys[n] in keys;
      RestrictsOneMore(u.marked, t.marked, keys, n);
      LoadMarkKeeps(t, u, keys[n]);
    }
  }

  lemma LoadMarkKeeps(t: DestroyedQueue, u: DestroyedQueue, q: nat)
    requires QueueExact(t) && QueueExact(u) && u.nextSeq == t.nextSeq && q in t.marked && q !in u.marked
    requires forall k | k in u.marked :: k in t.marked && u.marked[k] == t.marked[k]
    ensures QueueExact(u.(marked := u.marked[q := t.marked[q]], byId := u.byId[t.marked[q].objectId := q]))
  {
    var id := t.marked[q].objectId;
    var w := u.(marked := u.marked[q := t.marked[q]], byId := u.byId[id := q]);
    assert Located(t.byId, id, q) by { assert Queued(t.marked, q, id); }
    forall q': nat, id': nat ensures Queued(w.marked, q', id') <==> Located(w.byId, id', q') {
      assert Queued(u.marked, q', id') <==> Located(u.byId, id', q');
      assert Queued(u.marked, q', id') ==> Queued(t.marked, q', id') && Located(t.byId, id', q');
    }
  }

  lemma QueueDetermined(t: DestroyedQueue, u: DestroyedQueue)
    requires QueueExact(t) && QueueExact(u) && t.marked == u.marked && t.nextSeq == u.nextSeq
    ensures t == u
  {
    forall id: nat, q: nat ensures Located(t.byId, id, q) <==> Located(u.byId, id, q) {
      assert Queued(t.marked, q, id) <==> Located(t.byId, id, q);
      assert Queued(u.marked, q, id) <==> Located(u.byId, id, q);
    }
    forall id: nat ensures id in u.byId <==> id in t.byId {
      if id in u.byId { assert Located(u.byId, id, u.byId[id]); }
      if id in t.byId { assert Located(t.byId, id, t.byId[id]); }
    }
    forall id: nat | id in t.byId ensures u.byId[id] == t.byId[id] {
      assert Located(t.byId, id, t.byId[id]);
    }
    assert u.byId == t.byId;
  }

  lemma QueueReload(t: DestroyedQueue)
    requires QueueExact(t)
    ensures LoadQueue(DestroyedQueue(map[], map[], t.nextSeq), Pairs(t.marked, Nats(t.marked.Keys))) == t
  {
    var keys := Nats(t.marked.Keys);
    assert forall k | k in keys :: k in t.marked.Keys;
    LoadQueueExact(t, keys);
    var u := LoadQueue(DestroyedQueue(map[], map[], t.nextSeq), Pairs(t.marked, keys));
    assert u.marked == t.marked;
    QueueDetermined(t, u);
  }

  // ---- the round trip ----

  lemma MetaDecodes(m: ObjectMeta)
    ensures MetaFrom(MetaVal(m)) == Some(m)
  {
    var vs := ItemsOf(Part(ItemsOf(MetaVal(m)), 6));
    assert seq(|vs|, i requires 0 <= i < |vs| => OffsetRangeFrom(vs[i])) == m.ranges;
  }

  lemma MarkDecodes(p: (nat, Destroyed))
    ensures MarkFrom(MarkVal(p)) == Some(p)
  {
    assert p == (p.0, Destroyed(p.1.objectId, p.1.op));
  }

  lemma TransferDecodes(p: (nat, PendingTransfer))
    ensures TransferFrom(TransferVal(p)) == Some(p)
  {
    assert p == (p.0, PendingTransfer(p.1.fromNode, p.1.toNode));
  }

  lemma RowsDecode(rows: seq<StreamRow>)
    ensures FromAll(ItemsOf(Vals(rows, RowVal)), RowFrom) == Some(rows)
  {
    FromAllVals(rows, RowVal, RowFrom);
  }

  lemma NodesDecode(nodes: seq<NodeRow>)
    ensures FromAll(ItemsOf(Vals(nodes, NodeVal)), NodeFrom) == Some(nodes)
  {
    FromAllVals(nodes, NodeVal, NodeFrom);
  }

  lemma LeasesDecode(leases: seq<(nat, int)>)
    ensures FromAll(ItemsOf(Vals(leases, LeaseVal)), LeaseFrom) == Some(leases)
  {
    FromAllVals(leases, LeaseVal, LeaseFrom);
  }

  lemma SetsDecode(sets: seq<StreamSetRow>)
    ensures FromAll(ItemsOf(Vals(sets, SetVal)), SetFrom) == Some(sets)
  {
    forall r: StreamSetRow ensures SetFrom(SetVal(r)) == Some(r) { MetaDecodes(r.meta); }
    FromAllVals(sets, SetVal, SetFrom);
  }

  lemma ObjectsDecode(objects: seq<ObjectMeta>)
    requires forall m | m in objects :: |m.ranges| == 1
    ensures FromAll(ItemsOf(Vals(objects, MetaVal)), SingleFrom) == Some(objects)
  {
    forall m | m in objects ensures SingleFrom(MetaVal(m)) == Some(m) { MetaDecodes(m); }
    FromAllVals(objects, MetaVal, SingleFrom);
  }

  lemma QueueDecodes(queue: seq<(nat, Destroyed)>)
    ensures FromAll(ItemsOf(Vals(queue, MarkVal)), MarkFrom) == Some(queue)
  {
    forall p: (nat, Destroyed) ensures MarkFrom(MarkVal(p)) == Some(p) { MarkDecodes(p); }
    FromAllVals(queue, MarkVal, MarkFrom);
  }

  lemma KvDecodes(kv: seq<(Utf8, seq<byte>)>)
    ensures FromAll(ItemsOf(Vals(kv, KvVal)), KvFrom) == Some(kv)
  {
    FromAllVals(kv, KvVal, KvFrom);
  }

  lemma TransfersDecode(transfers: seq<(nat, PendingTransfer)>)
    ensures FromAll(ItemsOf(Vals(transfers, TransferVal)), TransferFrom) == Some(transfers)
  {
    forall p: (nat, PendingTransfer) ensures TransferFrom(TransferVal(p)) == Some(p) { TransferDecodes(p); }
    FromAllVals(transfers, TransferVal, TransferFrom);
  }

  lemma RowListsDecode(l: Listing)
    ensures RowListsFrom(ItemsOf(RowsVal(l))) == Some((l.streams, l.nodes, l.leases, l.sets))
  {
    RowsDecode(l.streams);
    NodesDecode(l.nodes);
    LeasesDecode(l.leases);
    SetsDecode(l.sets);
  }

  lemma PairListsDecode(l: Listing)
    requires forall m | m in l.objects :: |m.ranges| == 1
    ensures PairListsFrom(ItemsOf(PairsVal(l))) == Some((l.objects, l.queue, l.kv, l.transfers))
  {
    ObjectsDecode(l.objects);
    QueueDecodes(l.queue);
    KvDecodes(l.kv);
    TransfersDecode(l.transfers);
  }

  lemma ListingDecodes(l: Listing)
    requires forall m | m in l.objects :: |m.ranges| == 1
    ensures ListingFrom(ListingVal(l)) == Some(l)
  {
    RowListsDecode(l);
    PairListsDecode(l);
  }

  lemma {:induction false} NodePairsAt(nodes: map<NodeId, NodeRow>, keys: seq<NodeId>)
    requires NodesKeyed(nodes) && forall k | k in keys :: k in nodes
    ensures NodePairs(At(nodes, keys)) == Pairs(nodes, keys)
  {
    if keys != [] {
      var n := |keys| - 1;
      NodePairsAt(nodes, keys[..n]);
      assert NodePairs(At(nodes, keys)) == NodePairs(At(nodes, keys[..n])) + [(keys[n], nodes[keys[n]])];
    }
  }

  lemma NodesReload(nodes: map<NodeId, NodeRow>)
    requires NodesKeyed(nodes)
    ensures LoadMap(NodePairs(At(nodes, Nodes(nodes.Keys)))) == nodes
  {
    var keys := Nodes(nodes.Keys);
    assert forall k :: k in keys <==> k in nodes.Keys;
    NodePairsAt(nodes, keys);
    LoadMapAll(nodes, keys);
  }

  lemma MapsReload(s: MetadataState)
    ensures LoadMap(Pairs(s.kv, Texts(s.kv.Keys))) == s.kv
    ensures LoadMap(Pairs(s.streams.transfers, Nats(s.streams.transfers.Keys))) == s.streams.transfers
  {
    assert forall k :: k in Texts(s.kv.Keys) <==> k in s.kv.Keys;
    assert forall k :: k in Nats(s.streams.transfers.Keys) <==> k in s.streams.transfers.Keys;
    LoadMapAll(s.kv, Texts(s.kv.Keys));
    LoadMapAll(s.streams.transfers, Nats(s.streams.transfers.Keys));
  }

  lemma Reload(s: MetadataState)
    requires Inv(s)
    ensures forall m | m in ListingOf(s).objects :: |m.ranges| == 1
    ensures Load(ListingOf(s)) == s
  {
    SinglesAt(s.objects, AscendingKeys(s.objects.rows.Keys));
    StreamsReload(s.streams);
    NodesReload(s.nodes);
    LeasesReload(s.leases);
    SetsReload(s.sets);
    ObjectsReload(s.objects);
    QueueReload(s.destroyed);
    MapsReload(s);
  }

  /** Restoring the snapshot of any exact state rebuilds that state, secondary indexes included. */
  lemma SnapshotRoundTrip(s: MetadataState)
    requires Inv(s) && StateFits(s)
    ensures DecodeSnapshot(EncodeSnapshot(s)) == Success(s)
  {
    RoundTrip(SNAPSHOT, ListingVal(ListingOf(s)), []);
    Reload(s);
    ListingDecodes(ListingOf(s));
    var b := EncodeSnapshot(s);
    assert b[1..] == Encode(SNAPSHOT, ListingVal(ListingOf(s))) + [];
  }

  /** Two exact states with the same snapshot bytes are the same state. */
  lemma SnapshotInjective(s: MetadataState, t: MetadataState)
    requires Inv(s) && StateFits(s) && Inv(t) && StateFits(t) && EncodeSnapshot(s) == EncodeSnapshot(t)
    ensures s == t
  {
    SnapshotRoundTrip(s);
    SnapshotRoundTrip(t);
  }

  /** Restoring the state any run of registrable commands reaches gives that state back. */
  lemma SnapshotOfEveryRun(commands: seq<Command>)
    requires (forall c | c in commands :: Registrable(c)) && StateFits(Run(EMPTY_STATE, commands))
    ensures DecodeSnapshot(EncodeSnapshot(Run(EMPTY_STATE, commands))) == Success(Run(EMPTY_STATE, commands))
  {
    IndexesExactOnEveryRun(commands);
    SnapshotRoundTrip(Run(EMPTY_STATE, commands));
  }

  /** A snapshot cut short anywhere is refused. */
  lemma SnapshotRejectsPrefix(s: MetadataState, n: nat)
    requires StateFits(s) && n < |EncodeSnapshot(s)|
    ensures DecodeSnapshot(EncodeSnapshot(s)[..n]).Failure?
  {
    if n > 0 {
      PrefixFails(SNAPSHOT, ListingVal(ListingOf(s)), n - 1);
      assert EncodeSnapshot(s)[..n][1..] == Encode(SNAPSHOT, ListingVal(ListingOf(s)))[..n - 1];
    }
  }

  /** A snapshot with anything appended is refused. */
  lemma SnapshotRejectsExtension(s: MetadataState, more: seq<byte>)
    requires StateFits(s) && more != []
    ensures DecodeSnapshot(EncodeSnapshot(s) + more).Failure?
  {
    RoundTrip(SNAPSHOT, ListingVal(ListingOf(s)), more);
    assert (EncodeSnapshot(s) + more)[1..] == Encode(SNAPSHOT, ListingVal(ListingOf(s))) + more;
  }
}
