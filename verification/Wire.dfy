/** Wire layouts as data: one encoder and one decoder for every layout,
    with the laws every message format below inherits. */
module Wire {
  import opened Bytes

  /** A layout: fixed-width little-endian integers, length-prefixed blobs and UTF-8 text,
      records, and lists prefixed by an element count. */
  datatype Shape =
    | Uint(width: nat)
    | Sint(width: nat)
    | Blob
    | Text
    | Record(parts: seq<Shape>)
    | Counted(width: nat, elem: Shape)

  datatype Val = Num(n: int) | Raw(b: seq<byte>) | Items(vs: seq<Val>)

  datatype Parsed<+T> = Parsed(value: T, rest: seq<byte>)

  datatype WireError = UnsupportedVersion(version: byte) | UnknownCommand(code: byte) | Corrupt

  /** Width of the length prefix of blobs and text. */
  const LENGTH_WIDTH: nat := 4

  // ---- integers ----

  function Pow256(w: nat): (p: nat)
    ensures p > 0
  {
    if w == 0 then 1 else 256 * Pow256(w - 1)
  }

  function LeBytes(n: nat, w: nat): (b: seq<byte>)
    ensures |b| == w
  {
    if w == 0 then [] else [n % 256] + LeBytes(n / 256, w - 1)
  }

  function LeValue(b: seq<byte>): nat {
    if b == [] then 0 else b[0] + 256 * LeValue(b[1..])
  }

  lemma {:induction false} LeRoundTrip(n: nat, w: nat)
    requires n < Pow256(w)
    ensures LeValue(LeBytes(n, w)) == n
  {
    if w > 0 {
      LeRoundTrip(n / 256, w - 1);
      assert LeBytes(n, w)[1..] == LeBytes(n / 256, w - 1);
    }
  }

  function Unsign(n: int, w: nat): int {
    if n < 0 then n + Pow256(w) else n
  }

  function Sign(n: nat, w: nat): int {
    if 2 * n < Pow256(w) then n else n - Pow256(w)
  }

  // ---- values that a layout can carry ----

  predicate Fits(shape: Shape, v: Val)
    decreases shape, 0
  {
    match shape
    case Uint(w) => v.Num? && 0 <= v.n < Pow256(w)
    case Sint(w) => v.Num? && 0 <= 2 * v.n + Pow256(w) && 2 * v.n < Pow256(w)
    case Blob => v.Raw? && |v.b| < Pow256(LENGTH_WIDTH)
    case Text => v.Raw? && |v.b| < Pow256(LENGTH_WIDTH) && ValidUtf8(v.b)
    case Record(parts) => v.Items? && FitsAll(parts, v.vs)
    case Counted(w, elem) => v.Items? && |v.vs| < Pow256(w) && forall i | 0 <= i < |v.vs| :: Fits(elem, v.vs[i])
  }

  predicate FitsAll(parts: seq<Shape>, vs: seq<Val>)
    decreases parts
  {
    |parts| == |vs| && (parts != [] ==> Fits(parts[0], vs[0]) && FitsAll(parts[1..], vs[1..]))
  }

  lemma {:induction false} FitsPointwise(parts: seq<Shape>, vs: seq<Val>)
    requires |parts| == |vs| && forall i | 0 <= i < |parts| :: Fits(parts[i], vs[i])
    ensures FitsAll(parts, vs)
  {
    if parts != [] {
      FitsPointwise(parts[1..], vs[1..]);
    }
  }

  // ---- encoder ----

  function Encode(shape: Shape, v: Val): seq<byte>
    requires Fits(shape, v)
    decreases shape, 0
  {
    match shape
    case Uint(w) => LeBytes(v.n, w)
    case Sint(w) => LeBytes(Unsign(v.n, w), w)
    case Blob => LeBytes(|v.b|, LENGTH_WIDTH) + v.b
    case Text => LeBytes(|v.b|, LENGTH_WIDTH) + v.b
    case Record(parts) => EncodeAll(parts, v.vs)
    case Counted(w, elem) => LeBytes(|v.vs|, w) + EncodeMany(elem, v.vs)
  }

  function EncodeAll(parts: seq<Shape>, vs: seq<Val>): seq<byte>
    requires FitsAll(parts, vs)
    decreases parts
  {
    if parts == [] then [] else Encode(parts[0], vs[0]) + EncodeAll(parts[1..], vs[1..])
  }

  function EncodeMany(elem: Shape, vs: seq<Val>): seq<byte>
    requires forall i | 0 <= i < |vs| :: Fits(elem, vs[i])
    decreases elem, 1 + |vs|
  {
    if vs == [] then [] else Encode(elem, vs[0]) + EncodeMany(elem, vs[1..])
  }

  // ---- decoder ----

  /** Fixed-width read: fails when fewer bytes remain. */
  function GetUint(b: seq<byte>, w: nat): Result<Parsed<nat>, WireError> {
    if |b| < w then Failure(Corrupt) else Success(Parsed(LeValue(b[..w]), b[w..]))
  }

  /** A length of `w` bytes, then that many bytes. */
  function GetSized(b: seq<byte>, w: nat): Result<Parsed<seq<byte>>, WireError> {
    var len :- GetUint(b, w);
    if |len.rest| < len.value then Failure(Corrupt)
    else Success(Parsed(len.rest[..len.value], len.rest[len.value..]))
  }

  function GetBlob(b: seq<byte>): Result<Parsed<seq<byte>>, WireError> {
    GetSized(b, LENGTH_WIDTH)
  }

  function Decode(shape: Shape, b: seq<byte>): Result<Parsed<Val>, WireError>
    decreases shape, 0
  {
    match shape
    case Uint(w) =>
      var n :- GetUint(b, w);
      Success(Parsed(Num(n.value), n.rest))
    case Sint(w) =>
      var n :- GetUint(b, w);
      Success(Parsed(Num(Sign(n.value, w)), n.rest))
    case Blob =>
      var raw :- GetBlob(b);
      Success(Parsed(Raw(raw.value), raw.rest))
    case Text =>
      var raw :- GetBlob(b);
      if ValidUtf8(raw.value) then Success(Parsed(Raw(raw.value), raw.rest)) else Failure(Corrupt)
    case Record(parts) =>
      var vs :- DecodeAll(parts, b);
      Success(Parsed(Items(vs.value), vs.rest))
    case Counted(w, elem) =>
      var n :- GetUint(b, w);
      var vs :- DecodeMany(elem, n.value, n.rest);
      Success(Parsed(Items(vs.value), vs.rest))
  }

  function DecodeAll(parts: seq<Shape>, b: seq<byte>): Result<Parsed<seq<Val>>, WireError>
    decreases parts
  {
    if parts == [] then Success(Parsed([], b))
    else
      var v :- Decode(parts[0], b);
      var vs :- DecodeAll(parts[1..], v.rest);
      Success(Parsed([v.value] + vs.value, vs.rest))
  }

  function DecodeMany(elem: Shape, count: nat, b: seq<byte>): Result<Parsed<seq<Val>>, WireError>
    decreases elem, 1 + count
  {
    if count == 0 then Success(Parsed([], b))
    else
      var v :- Decode(elem, b);
      var vs :- DecodeMany(elem, count - 1, v.rest);
      Success(Parsed([v.value] + vs.value, vs.rest))
  }

  // ---- round trip: decoding an encoding, whatever follows it ----

  lemma UintRoundTrip(n: nat, w: nat, tail: seq<byte>)
    requires n < Pow256(w)
    ensures GetUint(LeBytes(n, w) + tail, w) == Success(Parsed(n, tail))
  {
    var b := LeBytes(n, w) + tail;
    LeRoundTrip(n, w);
    assert b[..w] == LeBytes(n, w) && b[w..] == tail;
  }

  lemma SizedRoundTrip(raw: seq<byte>, w: nat, tail: seq<byte>)
    requires |raw| < Pow256(w)
    ensures GetSized(LeBytes(|raw|, w) + raw + tail, w) == Success(Parsed(raw, tail))
  {
    UintRoundTrip(|raw|, w, raw + tail);
    assert LeBytes(|raw|, w) + raw + tail == LeBytes(|raw|, w) + (raw + tail);
    assert (raw + tail)[..|raw|] == raw && (raw + tail)[|raw|..] == tail;
  }

  lemma {:induction false} RoundTrip(shape: Shape, v: Val, tail: seq<byte>)
    requires Fits(shape, v)
    ensures Decode(shape, Encode(shape, v) + tail) == Success(Parsed(v, tail))
    decreases shape, 0
  {
    match shape
    case Uint(w) => UintRoundTrip(v.n, w, tail);
    case Sint(w) => UintRoundTrip(Unsign(v.n, w), w, tail);
    case Blob => SizedRoundTrip(v.b, LENGTH_WIDTH, tail);
    case Text => SizedRoundTrip(v.b, LENGTH_WIDTH, tail);
    case Record(parts) => RoundTripAll(parts, v.vs, tail);
    case Counted(w, elem) =>
      var body := EncodeMany(elem, v.vs);
      UintRoundTrip(|v.vs|, w, body + tail);
      assert LeBytes(|v.vs|, w) + body + tail == LeBytes(|v.vs|, w) + (body + tail);
      RoundTripMany(elem, v.vs, tail);
  }

  lemma {:induction false} RoundTripAll(parts: seq<Shape>, vs: seq<Val>, tail: seq<byte>)
    requires FitsAll(parts, vs)
    ensures DecodeAll(parts, EncodeAll(parts, vs) + tail) == Success(Parsed(vs, tail))
    decreases parts
  {
    if parts == [] {
      assert EncodeAll(parts, vs) + tail == tail;
    } else {
      var rest := EncodeAll(parts[1..], vs[1..]);
      RoundTrip(parts[0], vs[0], rest + tail);
      RoundTripAll(parts[1..], vs[1..], tail);
      assert Encode(parts[0], vs[0]) + rest + tail == Encode(parts[0], vs[0]) + (rest + tail);
      assert [vs[0]] + vs[1..] == vs;
    }
  }

  lemma {:induction false} RoundTripMany(elem: Shape, vs: seq<Val>, tail: seq<byte>)
    requires forall i | 0 <= i < |vs| :: Fits(elem, vs[i])
    ensures DecodeMany(elem, |vs|, EncodeMany(elem, vs) + tail) == Success(Parsed(vs, tail))
    decreases elem, 1 + |vs|
  {
    if vs == [] {
      assert EncodeMany(elem, vs) + tail == tail;
    } else {
      var rest := EncodeMany(elem, vs[1..]);
      RoundTrip(elem, vs[0], rest + tail);
      RoundTripMany(elem, vs[1..], tail);
      assert Encode(elem, vs[0]) + rest + tail == Encode(elem, vs[0]) + (rest + tail);
      assert [vs[0]] + vs[1..] == vs;
    }
  }

  // ---- extension: a successful decode does not depend on what follows ----

  lemma UintExtends(b: seq<byte>, w: nat, tail: seq<byte>)
    requires GetUint(b, w).Success?
    ensures GetUint(b + tail, w) == Success(Parsed(GetUint(b, w).value.value, GetUint(b, w).value.rest + tail))
  {
    assert (b + tail)[..w] == b[..w] && (b + tail)[w..] == b[w..] + tail;
  }

  lemma BlobExtends(b: seq<byte>, tail: seq<byte>)
    requires GetBlob(b).Success?
    ensures GetBlob(b + tail) == Success(Parsed(GetBlob(b).value.value, GetBlob(b).value.rest + tail))
  {
    UintExtends(b, LENGTH_WIDTH, tail);
    var len := GetUint(b, LENGTH_WIDTH).value;
    var rest := len.rest;
    assert (rest + tail)[..len.value] == rest[..len.value] && (rest + tail)[len.value..] == rest[len.value..] + tail;
  }

  lemma {:induction false} Extends(shape: Shape, b: seq<byte>, tail: seq<byte>)
    requires Decode(shape, b).Success?
    ensures Decode(shape, b + tail) == Success(Parsed(Decode(shape, b).value.value, Decode(shape, b).value.rest + tail))
    decreases shape, 0
  {
    match shape
    case Uint(w) => UintExtends(b, w, tail);
    case Sint(w) => UintExtends(b, w, tail);
    case Blob => BlobExtends(b, tail);
    case Text => BlobExtends(b, tail);
    case Record(parts) => ExtendsAll(parts, b, tail);
    case Counted(w, elem) =>
      UintExtends(b, w, tail);
      var n := GetUint(b, w).value;
      ExtendsMany(elem, n.value, n.rest, tail);
  }

  lemma {:induction false} ExtendsAll(parts: seq<Shape>, b: seq<byte>, tail: seq<byte>)
    requires DecodeAll(parts, b).Success?
    ensures DecodeAll(parts, b + tail)
            == Success(Parsed(DecodeAll(parts, b).value.value, DecodeAll(parts, b).value.rest + tail))
    decreases parts
  {
    if parts != [] {
      Extends(parts[0], b, tail);
      ExtendsAll(parts[1..], Decode(parts[0], b).value.rest, tail);
    }
  }

  lemma {:induction false} ExtendsMany(elem: Shape, count: nat, b: seq<byte>, tail: seq<byte>)
    requires DecodeMany(elem, count, b).Success?
    ensures DecodeMany(elem, count, b + tail)
            == Success(Parsed(DecodeMany(elem, count, b).value.value, DecodeMany(elem, count, b).value.rest + tail))
    decreases elem, 1 + count
  {
    if count > 0 {
      Extends(elem, b, tail);
      ExtendsMany(elem, count - 1, Decode(elem, b).value.rest, tail);
    }
  }

  /** No proper prefix of an encoding decodes. */
  lemma PrefixFails(shape: Shape, v: Val, n: nat)
    requires Fits(shape, v) && n < |Encode(shape, v)|
    ensures Decode(shape, Encode(shape, v)[..n]).Failure?
  {
    var b := Encode(shape, v);
    RoundTrip(shape, v, []);
    assert b[..n] + b[n..] == b + [];
    if Decode(shape, b[..n]).Success? {
      Extends(shape, b[..n], b[n..]);
    }
  }
}
