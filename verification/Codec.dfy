/** Wire format of commands and of command batches, one batch per replicated-log row. */
module Codec {
  import opened Bytes
  import opened Metadata
  import opened Wire

  const CODEC_VERSION: byte := 0

  const U8: Shape := Uint(1)
  const U32: Shape := Uint(4)
  const U64: Shape := Uint(8)
  const I32: Shape := Sint(4)
  const I64: Shape := Sint(8)

  const RANGE: Shape := Record([U64, U64, U64, U64, U64])
  const STREAM_OBJECT: Shape := Record([U64, U64, U64, U64, U64, U32])
  const COMMIT: Shape := Record([U64, U64, U32, Counted(4, RANGE), Counted(4, STREAM_OBJECT), Counted(4, U64)])
  const COMPACT: Shape := Record([U64, U64, U64, U64, U64, U64, U32, Counted(4, U64), Counted(4, U8)])

  function TypeCode(c: Command): byte {
    match c
    case CreateStream(_, _) => 1
    case OpenStream(_, _, _, _) => 2
    case TrimStream(_, _, _, _, _) => 3
    case CloseStream(_, _, _, _) => 4
    case DeleteStream(_, _, _, _) => 5
    case PrepareObject(_, _, _, _, _) => 6
    case CommitStreamSetObject(_, _, _, _) => 7
    case CompactStreamObject(_, _, _, _) => 8
    case ExpirePreparedObjects(_) => 9
    case RegisterNode(_, _, _, _) => 10
    case CleanDestroyedObjects(_) => 11
    case PutKv(_, _) => 12
    case PutKvIfAbsent(_, _) => 13
    case DeleteKv(_) => 14
    case TransferStream(_, _, _) => 15
    case CompleteTransfer(_, _) => 16
    case CreateStreams(_, _, _) => 17
    case PlaceStream(_) => 18
  }

  /** Field layout that follows the type byte. */
  function BodyParts(code: byte): Option<seq<Shape>> {
    match code
    case 1 => Some([I32, I64])
    case 2 => Some([I32, I64, U64, I64])
    case 3 => Some([I32, I64, U64, I64, U64])
    case 4 => Some([I32, I64, U64, I64])
    case 5 => Some([I32, I64, U64, I64])
    case 6 => Some([I32, I64, U32, I64, I64])
    case 7 => Some([I32, I64, I64, COMMIT])
    case 8 => Some([I32, I64, I64, COMPACT])
    case 9 => Some([I64])
    case 10 => Some([I32, I64, Text, U32])
    case 11 => Some([Counted(4, U64)])
    case 12 => Some([Text, Blob])
    case 13 => Some([Text, Blob])
    case 14 => Some([Text])
    case 15 => Some([U64, I32, I32])
    case 16 => Some([U64, I64])
    case 17 => Some([I32, I64, U32])
    case 18 => Some([U64])
    case _ => None
  }

  // ---- fields of a command as layout values ----

  function IdVals(ids: seq<nat>): (vs: seq<Val>)
    ensures |vs| == |ids|
  {
    seq(|ids|, i requires 0 <= i < |ids| => Num(ids[i]))
  }

  function OpCode(op: CompactOp): byte {
    match op
    case Delete => 0
    case KeepData => 1
    case DeepDelete => 2
  }

  function OpVals(ops: seq<CompactOp>): (vs: seq<Val>)
    ensures |vs| == |ops|
  {
    seq(|ops|, i requires 0 <= i < |ops| => Num(OpCode(ops[i])))
  }

  function RangeVal(r: ObjectStreamRange): Val {
    Items([Num(r.streamId), Num(r.epoch), Num(r.startOffset), Num(r.endOffset), Num(r.size)])
  }

  function ObjectVal(o: StreamObject): Val {
    Items([Num(o.objectId), Num(o.size), Num(o.streamId), Num(o.startOffset), Num(o.endOffset), Num(o.attributes)])
  }

  function CommitVal(r: CommitRequest): Val {
    Items([Num(r.objectId), Num(r.size), Num(r.attributes),
           Items(seq(|r.streamRanges|, i requires 0 <= i < |r.streamRanges| => RangeVal(r.streamRanges[i]))),
           Items(seq(|r.streamObjects|, i requires 0 <= i < |r.streamObjects| => ObjectVal(r.streamObjects[i]))),
           Items(IdVals(r.compactedIds))])
  }

  function CompactVal(r: CompactRequest): Val {
    Items([Num(r.objectId), Num(r.size), Num(r.streamId), Num(r.streamEpoch), Num(r.startOffset), Num(r.endOffset),
           Num(r.attributes), Items(IdVals(r.sourceIds)), Items(OpVals(r.operations))])
  }

  function Fields(c: Command): seq<Val> {
    match c
    case CreateStream(n, e) => [Num(n), Num(e)]
    case OpenStream(n, e, id, epoch) => [Num(n), Num(e), Num(id), Num(epoch)]
    case TrimStream(n, e, id, epoch, start) => [Num(n), Num(e), Num(id), Num(epoch), Num(start)]
    case CloseStream(n, e, id, epoch) => [Num(n), Num(e), Num(id), Num(epoch)]
    case DeleteStream(n, e, id, epoch) => [Num(n), Num(e), Num(id), Num(epoch)]
    case PrepareObject(n, e, count, ttl, now) => [Num(n), Num(e), Num(count), Num(ttl), Num(now)]
    case CommitStreamSetObject(n, e, req, now) => [Num(n), Num(e), Num(now), CommitVal(req)]
    case CompactStreamObject(n, e, req, now) => [Num(n), Num(e), Num(now), CompactVal(req)]
    case ExpirePreparedObjects(now) => [Num(now)]
    case RegisterNode(n, e, address, slots) => [Num(n), Num(e), Raw(address), Num(slots)]
    case CleanDestroyedObjects(ids) => [Items(IdVals(ids))]
    case PutKv(key, value) => [Raw(key), Raw(value)]
    case PutKvIfAbsent(key, value) => [Raw(key), Raw(value)]
    case DeleteKv(key) => [Raw(key)]
    case TransferStream(id, from, to) => [Num(id), Num(from), Num(to)]
    case CompleteTransfer(id, epoch) => [Num(id), Num(epoch)]
    case CreateStreams(n, e, count) => [Num(n), Num(e), Num(count)]
    case PlaceStream(id) => [Num(id)]
  }

  /** Every number and length of the command fits its wire width. */
  predicate CommandFits(c: Command) {
    FitsAll(BodyParts(TypeCode(c)).value, Fields(c))
  }

  // ---- layout values back to fields ----

  function IntOf(v: Val): int {
    if v.Num? then v.n else 0
  }

  function NatOf(v: Val): nat {
    if v.Num? && v.n >= 0 then v.n else 0
  }

  function NodeOf(v: Val): NodeId {
    if v.Num? && -0x8000_0000 <= v.n < 0x8000_0000 then v.n else 0
  }

  function RawOf(v: Val): seq<byte> {
    if v.Raw? then v.b else []
  }

  function TextOf(v: Val): Utf8 {
    if v.Raw? && ValidUtf8(v.b) then v.b else []
  }

  function ItemsOf(v: Val): seq<Val> {
    if v.Items? then v.vs else []
  }

  function Part(vs: seq<Val>, i: nat): Val {
    if i < |vs| then vs[i] else Num(0)
  }

  function IdsFrom(v: Val): seq<nat> {
    var vs := ItemsOf(v);
    seq(|vs|, i requires 0 <= i < |vs| => NatOf(vs[i]))
  }

  function OpFrom(v: Val): Option<CompactOp> {
    if v == Num(0) then Some(Delete) else if v == Num(1) then Some(KeepData) else if v == Num(2) then Some(DeepDelete)
    else None
  }

  function OpsFrom(vs: seq<Val>): Option<seq<CompactOp>> {
    if vs == [] then Some([])
    else
      var op :- OpFrom(vs[0]);
      var ops :- OpsFrom(vs[1..]);
      Some([op] + ops)
  }

  function RangeFrom(v: Val): ObjectStreamRange {
    var p := ItemsOf(v);
    ObjectStreamRange(NatOf(Part(p, 0)), NatOf(Part(p, 1)), NatOf(Part(p, 2)), NatOf(Part(p, 3)), NatOf(Part(p, 4)))
  }

  function ObjectFrom(v: Val): StreamObject {
    var p := ItemsOf(v);
    StreamObject(NatOf(Part(p, 0)), NatOf(Part(p, 1)), NatOf(Part(p, 2)),
                 NatOf(Part(p, 3)), NatOf(Part(p, 4)), NatOf(Part(p, 5)))
  }

  function CommitFrom(v: Val): CommitRequest {
    var p := ItemsOf(v);
    var ranges, objects := ItemsOf(Part(p, 3)), ItemsOf(Part(p, 4));
    CommitRequest(NatOf(Part(p, 0)), NatOf(Part(p, 1)), NatOf(Part(p, 2)),
                  seq(|ranges|, i requires 0 <= i < |ranges| => RangeFrom(ranges[i])),
                  seq(|objects|, i requires 0 <= i < |objects| => ObjectFrom(objects[i])),
                  IdsFrom(Part(p, 5)))
  }

  function CompactFrom(v: Val): Option<CompactRequest> {
    var p := ItemsOf(v);
    var ops :- OpsFrom(ItemsOf(Part(p, 8)));
    Some(CompactRequest(NatOf(Part(p, 0)), NatOf(Part(p, 1)), NatOf(Part(p, 2)), NatOf(Part(p, 3)), NatOf(Part(p, 4)),
                        NatOf(Part(p, 5)), IdsFrom(Part(p, 7)), ops, NatOf(Part(p, 6))))
  }

  /** `None` when a compaction operation byte is unknown. */
  function FromFields(code: byte, p: seq<Val>): Option<Command> {
    var n, e := NodeOf(Part(p, 0)), IntOf(Part(p, 1));
    match code
    case 1 => Some(CreateStream(n, e))
    case 2 => Some(OpenStream(n, e, NatOf(Part(p, 2)), IntOf(Part(p, 3))))
    case 3 => Some(TrimStream(n, e, NatOf(Part(p, 2)), IntOf(Part(p, 3)), NatOf(Part(p, 4))))
    case 4 => Some(CloseStream(n, e, NatOf(Part(p, 2)), IntOf(Part(p, 3))))
    case 5 => Some(DeleteStream(n, e, NatOf(Part(p, 2)), IntOf(Part(p, 3))))
    case 6 => Some(PrepareObject(n, e, NatOf(Part(p, 2)), IntOf(Part(p, 3)), IntOf(Part(p, 4))))
    case 7 => Some(CommitStreamSetObject(n, e, CommitFrom(Part(p, 3)), IntOf(Part(p, 2))))
    case 8 =>
      var req :- CompactFrom(Part(p, 3));
      Some(CompactStreamObject(n, e, req, IntOf(Part(p, 2))))
    case 9 => Some(ExpirePreparedObjects(IntOf(Part(p, 0))))
    case 10 => Some(RegisterNode(n, e, TextOf(Part(p, 2)), NatOf(Part(p, 3))))
    case 11 => Some(CleanDestroyedObjects(IdsFrom(Part(p, 0))))
    case 12 => Some(PutKv(TextOf(Part(p, 0)), RawOf(Part(p, 1))))
    case 13 => Some(PutKvIfAbsent(TextOf(Part(p, 0)), RawOf(Part(p, 1))))
    case 14 => Some(DeleteKv(TextOf(Part(p, 0))))
    case 15 => Some(TransferStream(NatOf(Part(p, 0)), NodeOf(Part(p, 1)), NodeOf(Part(p, 2))))
    case 16 => Some(CompleteTransfer(NatOf(Part(p, 0)), IntOf(Part(p, 1))))
    case 17 => Some(CreateStreams(n, e, NatOf(Part(p, 2))))
    case 18 => Some(PlaceStream(NatOf(Part(p, 0))))
    case _ => None
  }

  lemma {:induction false} OpsRoundTrip(ops: seq<CompactOp>)
    ensures OpsFrom(OpVals(ops)) == Some(ops)
  {
    if ops != [] {
      OpsRoundTrip(ops[1..]);
      assert OpVals(ops)[1..] == OpVals(ops[1..]);
      assert [ops[0]] + ops[1..] == ops;
    }
  }

  lemma IdsRoundTrip(ids: seq<nat>)
    ensures IdsFrom(Items(IdVals(ids))) == ids
  {
  }

  lemma CommitRoundTrip(req: CommitRequest)
    ensures CommitFrom(CommitVal(req)) == req
  {
    var back := CommitFrom(CommitVal(req));
    assert back.streamRanges == req.streamRanges;
    assert back.streamObjects == req.streamObjects;
    IdsRoundTrip(req.compactedIds);
  }

  lemma CompactRoundTrip(c: Command)
    requires c.CompactStreamObject?
    ensures FromFields(TypeCode(c), Fields(c)) == Some(c)
  {
    IdsRoundTrip(c.compact.sourceIds);
    OpsRoundTrip(c.compact.operations);
  }

  /** The stream commands have flat layouts. */
  lemma StreamFieldsRoundTrip(c: Command)
    requires c.CreateStream? || c.OpenStream? || c.TrimStream? || c.CloseStream? || c.DeleteStream?
             || c.CreateStreams? || c.PlaceStream? || c.TransferStream? || c.CompleteTransfer?
    ensures FromFields(TypeCode(c), Fields(c)) == Some(c)
  {
  }

  lemma FieldsRoundTrip(c: Command)
    ensures FromFields(TypeCode(c), Fields(c)) == Some(c)
  {
    match c
    case CommitStreamSetObject(_, _, req, _) => CommitRoundTrip(req);
    case CompactStreamObject(_, _, _, _) => CompactRoundTrip(c);
    case CleanDestroyedObjects(ids) => IdsRoundTrip(ids);
    case PrepareObject(_, _, _, _, _) =>
    case ExpirePreparedObjects(_) =>
    case RegisterNode(_, _, _, _) =>
    case PutKv(_, _) =>
    case PutKvIfAbsent(_, _) =>
    case DeleteKv(_) =>
    case _ => StreamFieldsRoundTrip(c);
  }

  // ---- one command ----

  function PutCommand(c: Command): seq<byte>
    requires CommandFits(c)
  {
    [TypeCode(c)] + EncodeAll(BodyParts(TypeCode(c)).value, Fields(c))
  }

  function GetCommand(b: seq<byte>): Result<Parsed<Command>, WireError> {
    if b == [] then Failure(Corrupt)
    else if BodyParts(b[0]).None? then Failure(UnknownCommand(b[0]))
    else
      var vs :- DecodeAll(BodyParts(b[0]).value, b[1..]);
      var c := FromFields(b[0], vs.value);
      if c.None? then Failure(Corrupt) else Success(Parsed(c.value, vs.rest))
  }

  lemma TypedRoundTrip(code: byte, parts: seq<Shape>, vs: seq<Val>, c: Command, tail: seq<byte>)
    requires BodyParts(code) == Some(parts) && FitsAll(parts, vs) && FromFields(code, vs) == Some(c)
    ensures GetCommand([code] + EncodeAll(parts, vs) + tail) == Success(Parsed(c, tail))
  {
    var b := [code] + EncodeAll(parts, vs) + tail;
    assert b[1..] == EncodeAll(parts, vs) + tail;
    RoundTripAll(parts, vs, tail);
  }

  lemma CommandRoundTrip(c: Command, tail: seq<byte>)
    requires CommandFits(c)
    ensures GetCommand(PutCommand(c) + tail) == Success(Parsed(c, tail))
  {
    FieldsRoundTrip(c);
    TypedRoundTrip(TypeCode(c), BodyParts(TypeCode(c)).value, Fields(c), c, tail);
  }

  lemma CommandExtends(b: seq<byte>, tail: seq<byte>)
    requires GetCommand(b).Success?
    ensures GetCommand(b + tail) == Success(Parsed(GetCommand(b).value.value, GetCommand(b).value.rest + tail))
  {
    assert (b + tail)[1..] == b[1..] + tail;
    ExtendsAll(BodyParts(b[0]).value, b[1..], tail);
  }

  // ---- batches ----

  function PutCommands(cs: seq<Command>): seq<byte>
    requires forall c | c in cs :: CommandFits(c)
  {
    if cs == [] then [] else PutCommand(cs[0]) + PutCommands(cs[1..])
  }

  function GetCommands(count: nat, b: seq<byte>): Result<Parsed<seq<Command>>, WireError> {
    if count == 0 then Success(Parsed([], b))
    else
      var c :- GetCommand(b);
      var cs :- GetCommands(count - 1, c.rest);
      Success(Parsed([c.value] + cs.value, cs.rest))
  }

  /** Every command of the batch fits its layout and the batch fits its count field. */
  predicate BatchFits(cs: seq<Command>) {
    |cs| < Pow256(4) && forall c | c in cs :: CommandFits(c)
  }

  function EncodeBatch(cs: seq<Command>): seq<byte>
    requires BatchFits(cs)
  {
    [CODEC_VERSION] + LeBytes(|cs|, 4) + PutCommands(cs)
  }

  function ParseBatch(b: seq<byte>): Result<Parsed<seq<Command>>, WireError> {
    if b == [] then Failure(Corrupt)
    else if b[0] != CODEC_VERSION then Failure(UnsupportedVersion(b[0]))
    else
      var n :- GetUint(b[1..], 4);
      GetCommands(n.value, n.rest)
  }

  /** Rejects unknown versions, unknown types, truncation and trailing bytes. */
  function DecodeBatch(b: seq<byte>): Result<seq<Command>, WireError> {
    var cs :- ParseBatch(b);
    if cs.rest != [] then Failure(Corrupt) else Success(cs.value)
  }

  /** Appends each command to a growing buffer. */
  method WriteBatch(cs: seq<Command>) returns (buf: seq<byte>)
    requires BatchFits(cs)
    ensures buf == EncodeBatch(cs)
  {
    buf := [CODEC_VERSION] + LeBytes(|cs|, 4);
    ghost var head := buf;
    var i := 0;
    assert cs[0..] == cs;
    while i < |cs|
      invariant 0 <= i <= |cs| && buf + PutCommands(cs[i..]) == head + PutCommands(cs)
    {
      ghost var before, rest := buf, PutCommands(cs[i + 1..]);
      assert cs[i..][0] == cs[i] && cs[i..][1..] == cs[i + 1..];
      buf := buf + PutCommand(cs[i]);
      assert buf + rest == before + (PutCommand(cs[i]) + rest);
      i := i + 1;
    }
    assert buf + [] == buf;
  }

  /** Reads the counted commands through an advancing cursor, then insists that nothing is left. */
  method ReadBatch(b: seq<byte>) returns (r: Result<seq<Command>, WireError>)
    ensures r == DecodeBatch(b)
  {
    if b == [] { return Failure(Corrupt); }
    if b[0] != CODEC_VERSION { return Failure(UnsupportedVersion(b[0])); }
    var n := GetUint(b[1..], 4);
    if n.Failure? { return Failure(n.error); }
    var rest, cs, i: nat := n.value.rest, [], 0;
    while i < n.value.value
      invariant i <= n.value.value
      invariant ParseBatch(b) == Prepend(cs, GetCommands(n.value.value - i, rest))
    {
      var c := GetCommand(rest);
      if c.Failure? { return Failure(c.error); }
      PrependStep(cs, rest, n.value.value - i);
      cs, rest, i := cs + [c.value.value], c.value.rest, i + 1;
    }
    assert cs + [] == cs;
    if rest != [] { return Failure(Corrupt); }
    return Success(cs);
  }

  /** Commands already read, followed by the rest when the rest parses. */
  ghost function Prepend(cs: seq<Command>, r: Result<Parsed<seq<Command>>, WireError>)
    : (out: Result<Parsed<seq<Command>>, WireError>)
    ensures cs == [] ==> out == r
  {
    if r.Failure? then r
    else
      assert cs == [] ==> cs + r.value.value == r.value.value;
      Success(Parsed(cs + r.value.value, r.value.rest))
  }

  lemma PrependStep(cs: seq<Command>, b: seq<byte>, count: nat)
    requires count > 0 && GetCommand(b).Success?
    ensures
      var c := GetCommand(b).value;
      Prepend(cs, GetCommands(count, b)) == Prepend(cs + [c.value], GetCommands(count - 1, c.rest))
  {
    var c := GetCommand(b).value;
    var rest := GetCommands(count - 1, c.rest);
    if rest.Success? {
      assert cs + ([c.value] + rest.value.value) == cs + [c.value] + rest.value.value;
    }
  }

  lemma CommandsStep(b: seq<byte>, c: Command, rest: seq<byte>, cs: seq<Command>, tail: seq<byte>)
    requires GetCommand(b) == Success(Parsed(c, rest))
    requires GetCommands(|cs|, rest) == Success(Parsed(cs, tail))
    ensures GetCommands(1 + |cs|, b) == Success(Parsed([c] + cs, tail))
  {
  }

  lemma PutCommandsSplit(cs: seq<Command>, tail: seq<byte>)
    requires cs != [] && forall c | c in cs :: CommandFits(c)
    ensures PutCommands(cs) + tail == PutCommand(cs[0]) + (PutCommands(cs[1..]) + tail)
  {
  }

  lemma {:induction false} CommandsRoundTrip(cs: seq<Command>, tail: seq<byte>)
    requires forall c | c in cs :: CommandFits(c)
    ensures GetCommands(|cs|, PutCommands(cs) + tail) == Success(Parsed(cs, tail))
  {
    if cs == [] {
      assert PutCommands(cs) + tail == tail;
    } else {
      CommandsRoundTrip(cs[1..], tail);
      FirstCommand(cs, tail);
      assert [cs[0]] + cs[1..] == cs;
    }
  }

  lemma FirstCommand(cs: seq<Command>, tail: seq<byte>)
    requires cs != [] && forall c | c in cs :: CommandFits(c)
    requires GetCommands(|cs| - 1, PutCommands(cs[1..]) + tail) == Success(Parsed(cs[1..], tail))
    ensures GetCommands(|cs|, PutCommands(cs) + tail) == Success(Parsed([cs[0]] + cs[1..], tail))
  {
    var rest := PutCommands(cs[1..]) + tail;
    CommandRoundTrip(cs[0], rest);
    PutCommandsSplit(cs, tail);
    CommandsStep(PutCommands(cs) + tail, cs[0], rest, cs[1..], tail);
  }

  lemma {:induction false} CommandsExtend(count: nat, b: seq<byte>, tail: seq<byte>)
    requires GetCommands(count, b).Success?
    ensures GetCommands(count, b + tail)
            == Success(Parsed(GetCommands(count, b).value.value, GetCommands(count, b).value.rest + tail))
    decreases count
  {
    if count > 0 {
      CommandExtends(b, tail);
      CommandsExtend(count - 1, GetCommand(b).value.rest, tail);
    }
  }

  lemma ParseBatchRoundTrip(cs: seq<Command>)
    requires BatchFits(cs)
    ensures ParseBatch(EncodeBatch(cs)) == Success(Parsed(cs, []))
  {
    var body := PutCommands(cs);
    assert EncodeBatch(cs)[1..] == LeBytes(|cs|, 4) + body;
    UintRoundTrip(|cs|, 4, body);
    CommandsRoundTrip(cs, []);
    assert body + [] == body;
  }

  /** Decoding an encoded batch gives the batch back. */
  lemma BatchRoundTrip(cs: seq<Command>)
    requires BatchFits(cs)
    ensures DecodeBatch(EncodeBatch(cs)) == Success(cs)
  {
    ParseBatchRoundTrip(cs);
  }

  lemma ParseBatchExtends(b: seq<byte>, tail: seq<byte>)
    ensures ParseBatch(b).Success? ==>
              ParseBatch(b + tail) == Success(Parsed(ParseBatch(b).value.value, ParseBatch(b).value.rest + tail))
  {
    if ParseBatch(b).Success? {
      assert (b + tail)[1..] == b[1..] + tail;
      UintExtends(b[1..], 4, tail);
      var n := GetUint(b[1..], 4).value;
      CommandsExtend(n.value, n.rest, tail);
    }
  }

  /** No strict prefix of an encoding decodes. */
  lemma BatchRejectsPrefix(cs: seq<Command>, n: nat)
    requires BatchFits(cs) && n < |EncodeBatch(cs)|
    ensures DecodeBatch(EncodeBatch(cs)[..n]).Failure?
  {
    var b := EncodeBatch(cs);
    assert b[..n] + b[n..] == b;
    ParseBatchRoundTrip(cs);
    ParseBatchExtends(b[..n], b[n..]);
  }

  /** No extension of an encoding decodes. */
  lemma BatchRejectsExtension(cs: seq<Command>, tail: seq<byte>)
    requires BatchFits(cs) && tail != []
    ensures DecodeBatch(EncodeBatch(cs) + tail).Failure?
  {
    ParseBatchRoundTrip(cs);
    ParseBatchExtends(EncodeBatch(cs), tail);
  }
}
