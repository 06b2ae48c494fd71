/** Several records framed into one stored payload: version byte, big-endian count and lengths. */
module Framing {
  import opened Bytes

  const FRAME_VERSION: byte := 1

  const I32_LIMIT: nat := 0x8000_0000

  /** Counts and lengths that a signed 32-bit field can carry. */
  predicate FrameFits(records: seq<seq<byte>>) {
    |records| < I32_LIMIT && forall r | r in records :: |r| < I32_LIMIT
  }

  /** Big-endian, keeping the low 32 bits as the cast does. */
  function PutI32(n: nat): (b: seq<byte>)
    ensures |b| == 4
  {
    [n / 0x100_0000 % 0x100, n / 0x1_0000 % 0x100, n / 0x100 % 0x100, n % 0x100]
  }

  /** Negative values, read as two's complement, are refused by every caller. */
  function GetI32(b: seq<byte>): Option<nat>
    requires |b| >= 4
  {
    var n := (b[0] as int) * 0x100_0000 + (b[1] as int) * 0x1_0000 + (b[2] as int) * 0x100 + b[3];
    if n < I32_LIMIT then Some(n) else None
  }

  function PutFrame(r: seq<byte>): seq<byte> {
    PutI32(|r|) + r
  }

  function PutFrames(records: seq<seq<byte>>): seq<byte> {
    if records == [] then [] else PutFrames(records[..|records| - 1]) + PutFrame(records[|records| - 1])
  }

  function Frames(records: seq<seq<byte>>): seq<byte> {
    [FRAME_VERSION] + PutI32(|records|) + PutFrames(records)
  }

  /** The layout: a version byte 1, the count and each record's length as four bytes, most significant first. */
  lemma FrameLayout(records: seq<seq<byte>>)
    requires FrameFits(records)
    ensures
      var b, n := Frames(records), |records|;
      && |b| >= 5 && b[0] == 1
      && b[1] as int * 0x100_0000 + b[2] as int * 0x1_0000 + b[3] as int * 0x100 + b[4] as int == n
      && b[5..] == PutFrames(records)
  {
    BigEndian(|records|);
  }

  lemma BigEndian(n: nat)
    requires n < I32_LIMIT
    ensures
      var b := PutI32(n);
      b[0] as int * 0x100_0000 + b[1] as int * 0x1_0000 + b[2] as int * 0x100 + b[3] as int == n
  {
  }

  /** One frame off the front of the buffer. */
  function GetFrame(b: seq<byte>): (r: Option<(seq<byte>, seq<byte>)>)
    ensures r.Some? ==> |r.value.1| < |b|
  {
    if |b| < 4 then None
    else
      var len := GetI32(b);
      if len.None? || |b| - 4 < len.value then None else Some((b[4..4 + len.value], b[4 + len.value..]))
  }

  /** Exactly `count` frames, with nothing left over. */
  function GetFrames(count: nat, b: seq<byte>): Option<seq<seq<byte>>> {
    if count == 0 then (if b == [] then Some([]) else None)
    else
      var first :- GetFrame(b);
      var rest :- GetFrames(count - 1, first.1);
      Some([first.0] + rest)
  }

  function Unframed(b: seq<byte>, expected: nat): Option<seq<seq<byte>>> {
    if |b| < 5 || b[0] != FRAME_VERSION || GetI32(b[1..]) != Some(expected) then None
    else GetFrames(expected, b[5..])
  }

  /** Writes into a growing buffer. */
  method EncodeFrames(records: seq<seq<byte>>) returns (b: seq<byte>)
    ensures b == Frames(records)
  {
    b := [FRAME_VERSION] + PutI32(|records|);
    var i := 0;
    while i < |records|
      invariant i <= |records| && b == [FRAME_VERSION] + PutI32(|records|) + PutFrames(records[..i])
    {
      assert records[..i + 1][..i] == records[..i];
      b := b + PutI32(|records[i]|);
      b := b + records[i];
      i := i + 1;
    }
    assert records[..i] == records;
  }

  /** Frames already read, followed by the rest if the rest is sound. */
  ghost function Following(out: seq<seq<byte>>, rest: Option<seq<seq<byte>>>): (r: Option<seq<seq<byte>>>)
    ensures out == [] ==> r == rest
  {
    if rest.None? then None
    else
      assert out == [] ==> out + rest.value == rest.value;
      Some(out + rest.value)
  }

  lemma FollowingStep(out: seq<seq<byte>>, buf: seq<byte>, count: nat)
    requires count > 0 && GetFrame(buf).Some?
    ensures
      var f := GetFrame(buf).value;
      Following(out, GetFrames(count, buf)) == Following(out + [f.0], GetFrames(count - 1, f.1))
  {
    var f := GetFrame(buf).value;
    var rest := GetFrames(count - 1, f.1);
    if rest.Some? {
      assert out + ([f.0] + rest.value) == out + [f.0] + rest.value;
    }
  }

  /** Reads through an advancing cursor; `None` is the corrupt-frame error. */
  method DecodeFrames(payload: seq<byte>, expected: nat) returns (r: Option<seq<seq<byte>>>)
    ensures r == Unframed(payload, expected)
  {
    if |payload| < 5 || payload[0] != FRAME_VERSION { return None; }
    var count := GetI32(payload[1..]);
    if count != Some(expected) { return None; }
    var buf, out, i := payload[5..], [], 0;
    assert Following([], GetFrames(expected, buf)) == GetFrames(expected, buf);
    while i < expected
      invariant i <= expected
      invariant Unframed(payload, expected) == Following(out, GetFrames(expected - i, buf))
    {
      var frame := GetFrame(buf);
      if frame.None? { return None; }
      FollowingStep(out, buf, expected - i);
      out := out + [frame.value.0];
      buf := frame.value.1;
      i := i + 1;
    }
    if buf != [] { return None; }
    assert out + [] == out;
    return Some(out);
  }

  // ---- laws ----

  lemma I32RoundTrip(n: nat, tail: seq<byte>)
    requires n < I32_LIMIT
    ensures GetI32(PutI32(n) + tail) == Some(n)
  {
    assert n / 0x100_0000 % 0x100 == n / 0x100_0000;
    assert n / 0x100 == n / 0x1_0000 * 0x100 + n / 0x100 % 0x100;
    assert n / 0x1_0000 == n / 0x100_0000 * 0x100 + n / 0x1_0000 % 0x100;
  }

  lemma FrameRoundTrip(r: seq<byte>, tail: seq<byte>)
    requires |r| < I32_LIMIT
    ensures GetFrame(PutFrame(r) + tail) == Some((r, tail))
  {
    var b := PutFrame(r) + tail;
    I32RoundTrip(|r|, r + tail);
    assert b == PutI32(|r|) + (r + tail);
    assert b[4..4 + |r|] == r && b[4 + |r|..] == tail;
  }

  lemma Regroup<T>(a: seq<T>, b: seq<T>, c: seq<T>)
    ensures a + b + c == a + (b + c)
  {
  }

  lemma {:induction false} PutFramesFront(records: seq<seq<byte>>)
    requires records != []
    ensures PutFrames(records) == PutFrame(records[0]) + PutFrames(records[1..])
  {
    var n := |records| - 1;
    var front, back := records[..n], records[1..];
    if n == 0 {
      assert front == [] && back == [];
    } else {
      PutFramesFront(front);
      assert front[1..] == back[..n - 1] && back[n - 1] == records[n];
      Regroup(PutFrame(records[0]), PutFrames(back[..n - 1]), PutFrame(records[n]));
    }
  }

  lemma {:induction false} FramesRoundTrip(records: seq<seq<byte>>, tail: seq<byte>)
    requires forall r | r in records :: |r| < I32_LIMIT
    ensures GetFrames(|records|, PutFrames(records) + tail) == if tail == [] then Some(records) else None
  {
    if records == [] {
      assert PutFrames(records) + tail == tail;
    } else {
      var rest := PutFrames(records[1..]) + tail;
      PutFramesFront(records);
      Regroup(PutFrame(records[0]), PutFrames(records[1..]), tail);
      assert records[0] in records;
      FrameRoundTrip(records[0], rest);
      FramesRoundTrip(records[1..], tail);
      assert [records[0]] + records[1..] == records;
    }
  }

  /** Decoding a framed batch gives its records back; with anything appended it is refused. */
  lemma UnframedFrames(records: seq<seq<byte>>, tail: seq<byte>)
    requires FrameFits(records)
    ensures Unframed(Frames(records) + tail, |records|) == if tail == [] then Some(records) else None
  {
    var b := Frames(records) + tail;
    assert b[1..] == PutI32(|records|) + (PutFrames(records) + tail);
    I32RoundTrip(|records|, PutFrames(records) + tail);
    assert b[5..] == PutFrames(records) + tail;
    FramesRoundTrip(records, tail);
  }

  lemma {:induction false} GetFramesExtends(count: nat, b: seq<byte>, tail: seq<byte>)
    requires GetFrames(count, b).Some? && tail != []
    ensures GetFrames(count, b + tail).None?
  {
    if count > 0 {
      var f := GetFrame(b).value;
      assert GetFrame(b + tail) == Some((f.0, f.1 + tail)) by {
        assert (b + tail)[..4] == b[..4];
        var len := GetI32(b).value;
        assert (b + tail)[4..4 + len] == b[4..4 + len] && (b + tail)[4 + len..] == b[4 + len..] + tail;
      }
      GetFramesExtends(count - 1, f.1, tail);
    }
  }

  /** A framed batch cut short anywhere is refused. */
  lemma UnframedRejectsPrefix(records: seq<seq<byte>>, n: nat)
    requires FrameFits(records) && n < |Frames(records)|
    ensures Unframed(Frames(records)[..n], |records|).None?
  {
    var b := Frames(records);
    UnframedFrames(records, []);
    assert b + [] == b;
    if n >= 5 {
      var cut := b[..n][5..];
      assert b[5..] == cut + b[n..];
      if GetFrames(|records|, cut).Some? {
        GetFramesExtends(|records|, cut, b[n..]);
      }
    }
  }
}
