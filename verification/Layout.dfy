/** The bytes of a command, field by field, as the log stores them. */
module Layout {
  import opened Bytes
  import opened Metadata
  import opened Wire
  import opened Codec

  // ---- fields ----

  function U32Of(n: nat): seq<byte> { LeBytes(n, 4) }

  function U64Of(n: nat): seq<byte> { LeBytes(n, 8) }

  function I32Of(n: int): seq<byte>
    requires n >= -0x8000_0000
  {
    LeBytes(if n < 0 then n + 0x1_0000_0000 else n, 4)
  }

  function I64Of(n: int): seq<byte>
    requires n >= -0x8000_0000_0000_0000
  {
    LeBytes(if n < 0 then n + 0x1_0000_0000_0000_0000 else n, 8)
  }

  function SizedOf(b: seq<byte>): seq<byte> { U32Of(|b|) + b }

  /** Integers are written least significant byte first. */
  lemma LittleEndian(n: nat)
    ensures U32Of(n) == [n % 0x100, n / 0x100 % 0x100, n / 0x1_0000 % 0x100, n / 0x100_0000 % 0x100]
  {
    assert n / 0x100 / 0x100 == n / 0x1_0000 && n / 0x1_0000 / 0x100 == n / 0x100_0000;
    assert LeBytes(n / 0x100_0000, 1) == [n / 0x100_0000 % 0x100] + LeBytes(n / 0x100_0000 / 0x100, 0);
    assert LeBytes(n / 0x1_0000, 2) == [n / 0x1_0000 % 0x100] + LeBytes(n / 0x100_0000, 1);
    assert LeBytes(n / 0x100, 3) == [n / 0x100 % 0x100] + LeBytes(n / 0x1_0000, 2);
  }

  function IdsOf(ids: seq<nat>): seq<byte> {
    if ids == [] then [] else U64Of(ids[0]) + IdsOf(ids[1..])
  }

  function OpsOf(ops: seq<CompactOp>): seq<byte> {
    if ops == [] then []
    else [match ops[0] case Delete => 0 case KeepData => 1 case DeepDelete => 2] + OpsOf(ops[1..])
  }

  function RangesOf(rs: seq<ObjectStreamRange>): seq<byte> {
    if rs == [] then []
    else
      U64Of(rs[0].streamId)
      + (U64Of(rs[0].epoch) + (U64Of(rs[0].startOffset) + (U64Of(rs[0].endOffset) + U64Of(rs[0].size))))
      + RangesOf(rs[1..])
  }

  function ObjectsOf(os: seq<StreamObject>): seq<byte> {
    if os == [] then []
    else
      U64Of(os[0].objectId)
      + (U64Of(os[0].size) + (U64Of(os[0].streamId) + (U64Of(os[0].startOffset)
         + (U64Of(os[0].endOffset) + U32Of(os[0].attributes)))))
      + ObjectsOf(os[1..])
  }

  function CommitBytes(r: CommitRequest): seq<byte> {
    U64Of(r.objectId) + (U64Of(r.size) + (U32Of(r.attributes)
    + (U32Of(|r.streamRanges|) + RangesOf(r.streamRanges) + (U32Of(|r.streamObjects|) + ObjectsOf(r.streamObjects)
    + (U32Of(|r.compactedIds|) + IdsOf(r.compactedIds))))))
  }

  function CompactBytes(r: CompactRequest): seq<byte> {
    U64Of(r.objectId) + (U64Of(r.size) + (U64Of(r.streamId) + (U64Of(r.streamEpoch) + (U64Of(r.startOffset)
    + (U64Of(r.endOffset) + (U32Of(r.attributes) + (U32Of(|r.sourceIds|) + IdsOf(r.sourceIds)
    + (U32Of(|r.operations|) + OpsOf(r.operations)))))))))
  }

  /** Signed fields within their widths. */
  predicate Signed64(n: int) { -0x8000_0000_0000_0000 <= n < 0x8000_0000_0000_0000 }

  predicate Sized(c: Command) {
    match c
    case RegisterNode(_, e, _, _) => Signed64(e)
    case CreateStream(_, e) => Signed64(e)
    case OpenStream(_, e, _, epoch) => Signed64(e) && Signed64(epoch)
    case TrimStream(_, e, _, epoch, _) => Signed64(e) && Signed64(epoch)
    case CloseStream(_, e, _, epoch) => Signed64(e) && Signed64(epoch)
    case DeleteStream(_, e, _, epoch) => Signed64(e) && Signed64(epoch)
    case PrepareObject(_, e, _, ttl, now) => Signed64(e) && Signed64(ttl) && Signed64(now)
    case CommitStreamSetObject(_, e, _, now) => Signed64(e) && Signed64(now)
    case CompactStreamObject(_, e, _, now) => Signed64(e) && Signed64(now)
    case ExpirePreparedObjects(now) => Signed64(now)
    case CompleteTransfer(_, epoch) => Signed64(epoch)
    case CreateStreams(_, e, _) => Signed64(e)
    case _ => true
  }

  /** Type byte, then the fields in order. */
  function CommandBytes(c: Command): seq<byte>
    requires Sized(c)
  {
    match c
    case CreateStream(n, e) => [1] + (I32Of(n) + I64Of(e))
    case OpenStream(n, e, id, epoch) => [2] + (I32Of(n) + (I64Of(e) + (U64Of(id) + I64Of(epoch))))
    case TrimStream(n, e, id, epoch, start) =>
      [3] + (I32Of(n) + (I64Of(e) + (U64Of(id) + (I64Of(epoch) + U64Of(start)))))
    case CloseStream(n, e, id, epoch) => [4] + (I32Of(n) + (I64Of(e) + (U64Of(id) + I64Of(epoch))))
    case DeleteStream(n, e, id, epoch) => [5] + (I32Of(n) + (I64Of(e) + (U64Of(id) + I64Of(epoch))))
    case PrepareObject(n, e, count, ttl, now) =>
      [6] + (I32Of(n) + (I64Of(e) + (U32Of(count) + (I64Of(ttl) + I64Of(now)))))
    case CommitStreamSetObject(n, e, req, now) => [7] + (I32Of(n) + (I64Of(e) + (I64Of(now) + CommitBytes(req))))
    case CompactStreamObject(n, e, req, now) => [8] + (I32Of(n) + (I64Of(e) + (I64Of(now) + CompactBytes(req))))
    case ExpirePreparedObjects(now) => [9] + I64Of(now)
    case RegisterNode(n, e, address, slots) => [10] + (I32Of(n) + (I64Of(e) + (SizedOf(address) + U32Of(slots))))
    case CleanDestroyedObjects(ids) => [11] + (U32Of(|ids|) + IdsOf(ids))
    case PutKv(key, value) => [12] + (SizedOf(key) + SizedOf(value))
    case PutKvIfAbsent(key, value) => [13] + (SizedOf(key) + SizedOf(value))
    case DeleteKv(key) => [14] + SizedOf(key)
    case TransferStream(id, a, b) => [15] + (U64Of(id) + (I32Of(a) + I32Of(b)))
    case CompleteTransfer(id, epoch) => [16] + (U64Of(id) + I64Of(epoch))
    case CreateStreams(n, e, count) => [17] + (I32Of(n) + (I64Of(e) + U32Of(count)))
    case PlaceStream(id) => [18] + U64Of(id)
  }

  // ---- the encoder writes them ----

  lemma Powers()
    ensures Pow256(1) == 0x100 && Pow256(4) == 0x1_0000_0000 && Pow256(8) == 0x1_0000_0000_0000_0000
  {
    assert Pow256(2) == 0x1_0000 && Pow256(3) == 0x100_0000 && Pow256(5) == 0x100_0000_0000;
    assert Pow256(6) == 0x1_0000_0000_0000 && Pow256(7) == 0x100_0000_0000_0000;
  }

  lemma One(a: Shape, x: Val)
    requires FitsAll([a], [x])
    ensures Fits(a, x) && EncodeAll([a], [x]) == Encode(a, x)
  {
    assert EncodeAll([a][1..], [x][1..]) == [];
  }

  lemma More(a: Shape, rest: seq<Shape>, x: Val, xs: seq<Val>)
    requires FitsAll([a] + rest, [x] + xs)
    ensures FitsAll(rest, xs) && Fits(a, x) && EncodeAll([a] + rest, [x] + xs) == Encode(a, x) + EncodeAll(rest, xs)
  {
    assert ([a] + rest)[1..] == rest && ([x] + xs)[1..] == xs;
  }

  lemma Two(a: Shape, b: Shape, x: Val, y: Val)
    requires FitsAll([a, b], [x, y])
    ensures Fits(a, x) && Fits(b, y) && EncodeAll([a, b], [x, y]) == Encode(a, x) + Encode(b, y)
  {
    More(a, [b], x, [y]);
    assert [a] + [b] == [a, b] && [x] + [y] == [x, y];
    One(b, y);
  }

  lemma Three(a: Shape, b: Shape, c: Shape, x: Val, y: Val, z: Val)
    requires FitsAll([a, b, c], [x, y, z])
    ensures Fits(a, x) && Fits(b, y) && Fits(c, z)
    ensures EncodeAll([a, b, c], [x, y, z]) == Encode(a, x) + (Encode(b, y) + Encode(c, z))
  {
    assert [a] + [b, c] == [a, b, c] && [x] + [y, z] == [x, y, z];
    More(a, [b, c], x, [y, z]);
    Two(b, c, y, z);
  }

  lemma Four(a: Shape, b: Shape, c: Shape, d: Shape, x: Val, y: Val, z: Val, u: Val)
    requires FitsAll([a, b, c, d], [x, y, z, u])
    ensures Fits(a, x) && Fits(b, y) && Fits(c, z) && Fits(d, u)
    ensures EncodeAll([a, b, c, d], [x, y, z, u]) == Encode(a, x) + (Encode(b, y) + (Encode(c, z) + Encode(d, u)))
  {
    assert [a] + [b, c, d] == [a, b, c, d] && [x] + [y, z, u] == [x, y, z, u];
    More(a, [b, c, d], x, [y, z, u]);
    Three(b, c, d, y, z, u);
  }

  lemma Five(a: Shape, b: Shape, c: Shape, d: Shape, e: Shape, x: Val, y: Val, z: Val, u: Val, v: Val)
    requires FitsAll([a, b, c, d, e], [x, y, z, u, v])
    ensures Fits(a, x) && Fits(b, y) && Fits(c, z) && Fits(d, u) && Fits(e, v)
    ensures EncodeAll([a, b, c, d, e], [x, y, z, u, v])
            == Encode(a, x) + (Encode(b, y) + (Encode(c, z) + (Encode(d, u) + Encode(e, v))))
  {
    assert [a] + [b, c, d, e] == [a, b, c, d, e] && [x] + [y, z, u, v] == [x, y, z, u, v];
    More(a, [b, c, d, e], x, [y, z, u, v]);
    Four(b, c, d, e, y, z, u, v);
  }

  lemma {:induction false} IdsEncode(ids: seq<nat>)
    requires forall i | 0 <= i < |ids| :: Fits(U64, IdVals(ids)[i])
    ensures EncodeMany(U64, IdVals(ids)) == IdsOf(ids)
  {
    if ids != [] {
      assert IdVals(ids)[1..] == IdVals(ids[1..]);
      IdsEncode(ids[1..]);
    }
  }

  lemma {:induction false} OpsEncode(ops: seq<CompactOp>)
    requires forall i | 0 <= i < |ops| :: Fits(U8, OpVals(ops)[i])
    ensures EncodeMany(U8, OpVals(ops)) == OpsOf(ops)
  {
    if ops != [] {
      assert OpVals(ops)[1..] == OpVals(ops[1..]);
      OpsEncode(ops[1..]);
      assert LeBytes(OpCode(ops[0]) as nat, 1) == [OpCode(ops[0])];
    }
  }

  function RangeVals(rs: seq<ObjectStreamRange>): (vs: seq<Val>)
    ensures |vs| == |rs|
  {
    seq(|rs|, i requires 0 <= i < |rs| => RangeVal(rs[i]))
  }

  lemma {:induction false} RangesEncode(rs: seq<ObjectStreamRange>)
    requires forall i | 0 <= i < |rs| :: Fits(RANGE, RangeVals(rs)[i])
    ensures EncodeMany(RANGE, RangeVals(rs)) == RangesOf(rs)
  {
    if rs != [] {
      var r := rs[0];
      assert RangeVals(rs)[1..] == RangeVals(rs[1..]) && RangeVals(rs)[0] == RangeVal(r);
      Five(U64, U64, U64, U64, U64, Num(r.streamId), Num(r.epoch), Num(r.startOffset), Num(r.endOffset), Num(r.size));
      RangesEncode(rs[1..]);
    }
  }

  function ObjectVals(os: seq<StreamObject>): (vs: seq<Val>)
    ensures |vs| == |os|
  {
    seq(|os|, i requires 0 <= i < |os| => ObjectVal(os[i]))
  }

  lemma ObjectEncode(o: StreamObject)
    requires Fits(STREAM_OBJECT, ObjectVal(o))
    ensures Encode(STREAM_OBJECT, ObjectVal(o))
            == U64Of(o.objectId) + (U64Of(o.size) + (U64Of(o.streamId) + (U64Of(o.startOffset)
               + (U64Of(o.endOffset) + U32Of(o.attributes)))))
  {
    var rest := [Num(o.size), Num(o.streamId), Num(o.startOffset), Num(o.endOffset), Num(o.attributes)];
    assert [U64] + [U64, U64, U64, U64, U32] == [U64, U64, U64, U64, U64, U32];
    assert [Num(o.objectId)] + rest == ObjectVal(o).vs;
    More(U64, [U64, U64, U64, U64, U32], Num(o.objectId), rest);
    Five(U64, U64, U64, U64, U32, rest[0], rest[1], rest[2], rest[3], rest[4]);
  }

  lemma {:induction false} ObjectsEncode(os: seq<StreamObject>)
    requires forall i | 0 <= i < |os| :: Fits(STREAM_OBJECT, ObjectVals(os)[i])
    ensures EncodeMany(STREAM_OBJECT, ObjectVals(os)) == ObjectsOf(os)
  {
    if os != [] {
      assert ObjectVals(os)[1..] == ObjectVals(os[1..]) && ObjectVals(os)[0] == ObjectVal(os[0]);
      ObjectEncode(os[0]);
      ObjectsEncode(os[1..]);
    }
  }

  lemma CommitLists(r: CommitRequest)
    requires Fits(Counted(4, RANGE), Items(RangeVals(r.streamRanges)))
    requires Fits(Counted(4, STREAM_OBJECT), Items(ObjectVals(r.streamObjects)))
    requires Fits(Counted(4, U64), Items(IdVals(r.compactedIds)))
    ensures Encode(Counted(4, RANGE), Items(RangeVals(r.streamRanges)))
            == U32Of(|r.streamRanges|) + RangesOf(r.streamRanges)
    ensures Encode(Counted(4, STREAM_OBJECT), Items(ObjectVals(r.streamObjects)))
            == U32Of(|r.streamObjects|) + ObjectsOf(r.streamObjects)
    ensures Encode(Counted(4, U64), Items(IdVals(r.compactedIds))) == U32Of(|r.compactedIds|) + IdsOf(r.compactedIds)
  {
    RangesEncode(r.streamRanges);
    ObjectsEncode(r.streamObjects);
    IdsEncode(r.compactedIds);
  }

  lemma CommitEncode(r: CommitRequest)
    requires Fits(COMMIT, CommitVal(r))
    ensures Encode(COMMIT, CommitVal(r)) == CommitBytes(r)
  {
    var a, b, c := Counted(4, RANGE), Counted(4, STREAM_OBJECT), Counted(4, U64);
    var x, y, z := Items(RangeVals(r.streamRanges)), Items(ObjectVals(r.streamObjects)), Items(IdVals(r.compactedIds));
    assert x.vs == CommitVal(r).vs[3].vs && y.vs == CommitVal(r).vs[4].vs;
    assert [U64] + [U64, U32, a, b, c] == COMMIT.parts;
    assert [Num(r.objectId)] + [Num(r.size), Num(r.attributes), x, y, z] == CommitVal(r).vs;
    More(U64, [U64, U32, a, b, c], Num(r.objectId), [Num(r.size), Num(r.attributes), x, y, z]);
    Five(U64, U32, a, b, c, Num(r.size), Num(r.attributes), x, y, z);
    CommitLists(r);
  }

  lemma CompactTail(r: CompactRequest, shapes: seq<Shape>, vals: seq<Val>)
    requires shapes == [U64, U64, U32, Counted(4, U64), Counted(4, U8)]
    requires vals == [Num(r.startOffset), Num(r.endOffset), Num(r.attributes),
                      Items(IdVals(r.sourceIds)), Items(OpVals(r.operations))]
    requires FitsAll(shapes, vals)
    ensures EncodeAll(shapes, vals)
            == U64Of(r.startOffset) + (U64Of(r.endOffset) + (U32Of(r.attributes)
               + (U32Of(|r.sourceIds|) + IdsOf(r.sourceIds) + (U32Of(|r.operations|) + OpsOf(r.operations)))))
  {
    Five(shapes[0], shapes[1], shapes[2], shapes[3], shapes[4], vals[0], vals[1], vals[2], vals[3], vals[4]);
    IdsEncode(r.sourceIds);
    OpsEncode(r.operations);
  }

  lemma FourIds(a: nat, b: nat, c: nat, d: nat, shapes: seq<Shape>, vals: seq<Val>)
    requires FitsAll([U64, U64, U64, U64] + shapes, [Num(a), Num(b), Num(c), Num(d)] + vals)
    ensures FitsAll(shapes, vals)
    ensures EncodeAll([U64, U64, U64, U64] + shapes, [Num(a), Num(b), Num(c), Num(d)] + vals)
            == U64Of(a) + (U64Of(b) + (U64Of(c) + (U64Of(d) + EncodeAll(shapes, vals))))
  {
    assert [U64] + ([U64] + ([U64] + ([U64] + shapes))) == [U64, U64, U64, U64] + shapes;
    assert [Num(a)] + ([Num(b)] + ([Num(c)] + ([Num(d)] + vals))) == [Num(a), Num(b), Num(c), Num(d)] + vals;
    More(U64, [U64] + ([U64] + ([U64] + shapes)), Num(a), [Num(b)] + ([Num(c)] + ([Num(d)] + vals)));
    More(U64, [U64] + ([U64] + shapes), Num(b), [Num(c)] + ([Num(d)] + vals));
    More(U64, [U64] + shapes, Num(c), [Num(d)] + vals);
    More(U64, shapes, Num(d), vals);
  }

  lemma CompactEncode(r: CompactRequest)
    requires Fits(COMPACT, CompactVal(r))
    ensures Encode(COMPACT, CompactVal(r)) == CompactBytes(r)
  {
    var shapes := [U64, U64, U32, Counted(4, U64), Counted(4, U8)];
    var vals := [Num(r.startOffset), Num(r.endOffset), Num(r.attributes),
                 Items(IdVals(r.sourceIds)), Items(OpVals(r.operations))];
    assert [U64, U64, U64, U64] + shapes == COMPACT.parts;
    assert [Num(r.objectId), Num(r.size), Num(r.streamId), Num(r.streamEpoch)] + vals == CompactVal(r).vs;
    FourIds(r.objectId, r.size, r.streamId, r.streamEpoch, shapes, vals);
    CompactTail(r, shapes, vals);
  }

  lemma OwnerBytes(n: NodeId, e: int, parts: seq<Shape>, vs: seq<Val>)
    requires FitsAll([I32, I64] + parts, [Num(n), Num(e)] + vs)
    ensures Signed64(e) && FitsAll(parts, vs)
    ensures EncodeAll([I32, I64] + parts, [Num(n), Num(e)] + vs) == I32Of(n) + (I64Of(e) + EncodeAll(parts, vs))
  {
    assert [I32] + ([I64] + parts) == [I32, I64] + parts && [Num(n)] + ([Num(e)] + vs) == [Num(n), Num(e)] + vs;
    More(I32, [I64] + parts, Num(n), [Num(e)] + vs);
    More(I64, parts, Num(e), vs);
    Powers();
  }

  lemma EpochBytes(n: NodeId, e: int, id: nat, epoch: int)
    requires FitsAll([I32, I64, U64, I64], [Num(n), Num(e), Num(id), Num(epoch)])
    ensures Signed64(e) && Signed64(epoch)
    ensures EncodeAll([I32, I64, U64, I64], [Num(n), Num(e), Num(id), Num(epoch)])
            == I32Of(n) + (I64Of(e) + (U64Of(id) + I64Of(epoch)))
  {
    assert [I32, I64, U64, I64] == [I32, I64] + [U64, I64];
    assert [Num(n), Num(e), Num(id), Num(epoch)] == [Num(n), Num(e)] + [Num(id), Num(epoch)];
    OwnerBytes(n, e, [U64, I64], [Num(id), Num(epoch)]);
    Two(U64, I64, Num(id), Num(epoch));
    Powers();
  }

  lemma TrimBytes(n: NodeId, e: int, id: nat, epoch: int, start: nat)
    requires FitsAll([I32, I64, U64, I64, U64], [Num(n), Num(e), Num(id), Num(epoch), Num(start)])
    ensures Signed64(e) && Signed64(epoch)
    ensures EncodeAll([I32, I64, U64, I64, U64], [Num(n), Num(e), Num(id), Num(epoch), Num(start)])
            == I32Of(n) + (I64Of(e) + (U64Of(id) + (I64Of(epoch) + U64Of(start))))
  {
    assert [I32, I64, U64, I64, U64] == [I32, I64] + [U64, I64, U64];
    assert [Num(n), Num(e), Num(id), Num(epoch), Num(start)] == [Num(n), Num(e)] + [Num(id), Num(epoch), Num(start)];
    OwnerBytes(n, e, [U64, I64, U64], [Num(id), Num(epoch), Num(start)]);
    Three(U64, I64, U64, Num(id), Num(epoch), Num(start));
    Powers();
  }

  lemma PrepareBytes(n: NodeId, e: int, count: nat, ttl: int, now: int)
    requires FitsAll([I32, I64, U32, I64, I64], [Num(n), Num(e), Num(count), Num(ttl), Num(now)])
    ensures Signed64(e) && Signed64(ttl) && Signed64(now)
    ensures EncodeAll([I32, I64, U32, I64, I64], [Num(n), Num(e), Num(count), Num(ttl), Num(now)])
            == I32Of(n) + (I64Of(e) + (U32Of(count) + (I64Of(ttl) + I64Of(now))))
  {
    assert [I32, I64, U32, I64, I64] == [I32, I64] + [U32, I64, I64];
    assert [Num(n), Num(e), Num(count), Num(ttl), Num(now)] == [Num(n), Num(e)] + [Num(count), Num(ttl), Num(now)];
    OwnerBytes(n, e, [U32, I64, I64], [Num(count), Num(ttl), Num(now)]);
    Three(U32, I64, I64, Num(count), Num(ttl), Num(now));
    Powers();
  }

  lemma RequestBytes(n: NodeId, e: int, now: int, request: Shape, v: Val)
    requires FitsAll([I32, I64, I64, request], [Num(n), Num(e), Num(now), v])
    ensures Signed64(e) && Signed64(now) && Fits(request, v)
    ensures EncodeAll([I32, I64, I64, request], [Num(n), Num(e), Num(now), v])
            == I32Of(n) + (I64Of(e) + (I64Of(now) + Encode(request, v)))
  {
    assert [I32, I64, I64, request] == [I32, I64] + [I64, request];
    assert [Num(n), Num(e), Num(now), v] == [Num(n), Num(e)] + [Num(now), v];
    OwnerBytes(n, e, [I64, request], [Num(now), v]);
    Two(I64, request, Num(now), v);
    Powers();
  }

  lemma RegisterBytes(n: NodeId, e: int, address: Utf8, slots: nat)
    requires FitsAll([I32, I64, Text, U32], [Num(n), Num(e), Raw(address), Num(slots)])
    ensures Signed64(e)
    ensures EncodeAll([I32, I64, Text, U32], [Num(n), Num(e), Raw(address), Num(slots)])
            == I32Of(n) + (I64Of(e) + (SizedOf(address) + U32Of(slots)))
  {
    assert [I32, I64, Text, U32] == [I32, I64] + [Text, U32];
    assert [Num(n), Num(e), Raw(address), Num(slots)] == [Num(n), Num(e)] + [Raw(address), Num(slots)];
    OwnerBytes(n, e, [Text, U32], [Raw(address), Num(slots)]);
    Two(Text, U32, Raw(address), Num(slots));
  }

  lemma CreateBytes(n: NodeId, e: int, count: nat)
    requires FitsAll([I32, I64, U32], [Num(n), Num(e), Num(count)])
    ensures Signed64(e)
    ensures EncodeAll([I32, I64, U32], [Num(n), Num(e), Num(count)]) == I32Of(n) + (I64Of(e) + U32Of(count))
  {
    assert [I32, I64, U32] == [I32, I64] + [U32] && [Num(n), Num(e), Num(count)] == [Num(n), Num(e)] + [Num(count)];
    OwnerBytes(n, e, [U32], [Num(count)]);
    One(U32, Num(count));
  }

  lemma TransferBytes(id: nat, source: NodeId, target: NodeId)
    requires FitsAll([U64, I32, I32], [Num(id), Num(source), Num(target)])
    ensures EncodeAll([U64, I32, I32], [Num(id), Num(source), Num(target)])
            == U64Of(id) + (I32Of(source) + I32Of(target))
  {
    Three(U64, I32, I32, Num(id), Num(source), Num(target));
    Powers();
  }

  lemma CompleteBytes(id: nat, epoch: int)
    requires FitsAll([U64, I64], [Num(id), Num(epoch)])
    ensures Signed64(epoch) && EncodeAll([U64, I64], [Num(id), Num(epoch)]) == U64Of(id) + I64Of(epoch)
  {
    Two(U64, I64, Num(id), Num(epoch));
    Powers();
  }

  lemma OwnerOnly(n: NodeId, e: int)
    requires FitsAll([I32, I64], [Num(n), Num(e)])
    ensures Signed64(e) && EncodeAll([I32, I64], [Num(n), Num(e)]) == I32Of(n) + I64Of(e)
  {
    Two(I32, I64, Num(n), Num(e));
    Powers();
  }

  lemma IdListEncode(ids: seq<nat>)
    requires Fits(Counted(4, U64), Items(IdVals(ids)))
    ensures Encode(Counted(4, U64), Items(IdVals(ids))) == U32Of(|ids|) + IdsOf(ids)
  {
    IdsEncode(ids);
  }

  lemma ListBytes(ids: seq<nat>, list: Shape, v: Val)
    requires list == Counted(4, U64) && v == Items(IdVals(ids)) && FitsAll([list], [v])
    ensures EncodeAll([list], [v]) == U32Of(|ids|) + IdsOf(ids)
  {
    One(list, v);
    IdListEncode(ids);
  }

  lemma KvBytes(key: Utf8, value: seq<byte>)
    requires FitsAll([Text, Blob], [Raw(key), Raw(value)])
    ensures EncodeAll([Text, Blob], [Raw(key), Raw(value)]) == SizedOf(key) + SizedOf(value)
  {
    Two(Text, Blob, Raw(key), Raw(value));
  }

  lemma TimeBytes(now: int)
    requires FitsAll([I64], [Num(now)])
    ensures Signed64(now) && EncodeAll([I64], [Num(now)]) == I64Of(now)
  {
    One(I64, Num(now));
    Powers();
  }

  lemma StreamLayout(c: Command)
    requires CommandFits(c)
    requires c.CreateStream? || c.OpenStream? || c.TrimStream? || c.CloseStream? || c.DeleteStream? || c.CreateStreams?
    ensures Sized(c) && PutCommand(c) == CommandBytes(c)
  {
    match c
    case CreateStream(n, e) => OwnerOnly(n, e);
    case OpenStream(n, e, id, epoch) => EpochBytes(n, e, id, epoch);
    case TrimStream(n, e, id, epoch, start) => TrimBytes(n, e, id, epoch, start);
    case CloseStream(n, e, id, epoch) => EpochBytes(n, e, id, epoch);
    case DeleteStream(n, e, id, epoch) => EpochBytes(n, e, id, epoch);
    case CreateStreams(n, e, count) => CreateBytes(n, e, count);
  }

  lemma RequestLayout(c: Command)
    requires CommandFits(c) && (c.CommitStreamSetObject? || c.CompactStreamObject?)
    ensures Sized(c) && PutCommand(c) == CommandBytes(c)
  {
    match c
    case CommitStreamSetObject(n, e, req, now) =>
      RequestBytes(n, e, now, COMMIT, CommitVal(req));
      CommitEncode(req);
    case CompactStreamObject(n, e, req, now) =>
      RequestBytes(n, e, now, COMPACT, CompactVal(req));
      CompactEncode(req);
  }

  lemma ObjectLayout(c: Command)
    requires CommandFits(c) && (c.PrepareObject? || c.ExpirePreparedObjects? || c.CleanDestroyedObjects?)
    ensures Sized(c) && PutCommand(c) == CommandBytes(c)
  {
    match c
    case PrepareObject(n, e, count, ttl, now) => PrepareBytes(n, e, count, ttl, now);
    case ExpirePreparedObjects(now) => TimeBytes(now);
    case CleanDestroyedObjects(ids) => ListBytes(ids, Counted(4, U64), Items(IdVals(ids)));
  }

  lemma PlacementLayout(c: Command)
    requires CommandFits(c)
    requires c.TransferStream? || c.CompleteTransfer? || c.PlaceStream?
    ensures Sized(c) && PutCommand(c) == CommandBytes(c)
  {
    match c
    case TransferStream(id, source, target) => TransferBytes(id, source, target);
    case CompleteTransfer(id, epoch) => CompleteBytes(id, epoch);
    case PlaceStream(id) => One(U64, Num(id));
  }

  lemma KvLayout(c: Command)
    requires CommandFits(c) && (c.PutKv? || c.PutKvIfAbsent? || c.DeleteKv?)
    ensures Sized(c) && PutCommand(c) == CommandBytes(c)
  {
    match c
    case PutKv(key, value) => KvBytes(key, value);
    case PutKvIfAbsent(key, value) => KvBytes(key, value);
    case DeleteKv(key) => One(Text, Raw(key));
  }

  /** A command's encoding is its type byte followed by its fields in this order and these widths. */
  lemma CommandLayout(c: Command)
    requires CommandFits(c)
    ensures Sized(c) && PutCommand(c) == CommandBytes(c)
  {
    if c.CreateStream? || c.OpenStream? || c.TrimStream? || c.CloseStream? || c.DeleteStream? || c.CreateStreams? {
      StreamLayout(c);
    } else if c.TransferStream? || c.CompleteTransfer? || c.PlaceStream? {
      PlacementLayout(c);
    } else if c.RegisterNode? {
      RegisterBytes(c.nodeId, c.nodeEpoch, c.httpAddress, c.slots);
    } else if c.CommitStreamSetObject? || c.CompactStreamObject? {
      RequestLayout(c);
    } else if c.PutKv? || c.PutKvIfAbsent? || c.DeleteKv? {
      KvLayout(c);
    } else {
      ObjectLayout(c);
    }
  }

  /** A batch begins with version 0 and the number of commands in four bytes. */
  lemma BatchLayout(cs: seq<Command>)
    requires BatchFits(cs)
    ensures EncodeBatch(cs) == [0] + U32Of(|cs|) + PutCommands(cs)
  {
  }
}
