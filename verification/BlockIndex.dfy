/** Block lookup in one object: binary search to the first block, then the gapless chain from it. */
module BlockIndex {
  import opened Bytes

  datatype Block = Block(streamId: nat, start: nat, delta: nat, recordCount: nat, position: nat, size: nat)

  const NOOP_OFFSET: nat := U64_MODULUS - 1

  const RECORD_HEADER_SIZE: nat := 33

  const BLOCK_HEADER_SIZE: nat := 10

  function End(b: Block): nat {
    b.start + b.delta
  }

  /** Sorted by stream, then offset, without overlap. */
  predicate Ordered(es: seq<Block>) {
    forall i, j | 0 <= i < j < |es| ::
      es[i].streamId < es[j].streamId || (es[i].streamId == es[j].streamId && End(es[i]) <= es[j].start)
  }

  predicate Holds(b: Block, streamId: nat, offset: nat) {
    b.streamId == streamId && b.start <= offset < End(b)
  }

  /** The one block that holds the offset, or none. */
  method Search(es: seq<Block>, streamId: nat, offset: nat) returns (at: Option<nat>)
    requires Ordered(es)
    ensures at.Some? ==> at.value < |es| && Holds(es[at.value], streamId, offset)
    ensures at.None? ==> forall i | 0 <= i < |es| :: !Holds(es[i], streamId, offset)
  {
    var lo, hi := 0, |es| - 1;
    while lo <= hi
      invariant 0 <= lo <= hi + 1 <= |es|
      invariant forall i | 0 <= i < lo :: !Holds(es[i], streamId, offset)
      invariant forall i | hi < i < |es| :: !Holds(es[i], streamId, offset)
      decreases hi - lo
    {
      var mid := (lo + hi) / 2;
      var e := es[mid];
      if e.streamId < streamId || (e.streamId == streamId && End(e) <= offset) {
        lo := mid + 1;
      } else if e.streamId > streamId || (e.streamId == streamId && e.start > offset) {
        hi := mid - 1;
      } else {
        return Some(mid);
      }
    }
    return None;
  }

  // ---- chains ----

  /** Consecutive non-empty blocks of one stream, each starting where the one before ends. */
  predicate Gapless(bs: seq<Block>, streamId: nat) {
    && (forall i | 0 <= i < |bs| :: bs[i].streamId == streamId && bs[i].delta > 0)
    && forall i | 0 < i < |bs| :: bs[i].start == End(bs[i - 1])
  }

  /** A gapless chain of the index's own blocks whose first block holds the offset. */
  predicate ChainFrom(es: seq<Block>, bs: seq<Block>, streamId: nat, offset: nat) {
    Gapless(bs, streamId) && (bs != [] ==> Holds(bs[0], streamId, offset)) && forall b | b in bs :: b in es
  }

  lemma HolderUnique(es: seq<Block>, a: Block, b: Block, streamId: nat, offset: nat)
    requires Ordered(es) && a in es && b in es && Holds(a, streamId, offset) && Holds(b, streamId, offset)
    ensures a == b
  {
    var i :| 0 <= i < |es| && es[i] == a;
    var j :| 0 <= j < |es| && es[j] == b;
  }

  /** Of each length there is at most one chain from an offset. */
  lemma {:induction false} ChainUnique(es: seq<Block>, a: seq<Block>, b: seq<Block>, streamId: nat, offset: nat)
    requires Ordered(es) && ChainFrom(es, a, streamId, offset) && ChainFrom(es, b, streamId, offset) && |a| <= |b|
    ensures a <= b
  {
    if a != [] {
      var n := |a| - 1;
      assert a[n] in es && b[n] in es;
      if n == 0 {
        HolderUnique(es, a[0], b[0], streamId, offset);
      } else {
        ChainUnique(es, a[..n], b, streamId, offset);
        assert a[n - 1] == b[n - 1];
        HolderUnique(es, a[n], b[n], streamId, End(a[n - 1]));
      }
    }
  }

  // ---- the budget ----

  function Minus(a: nat, b: nat): nat {
    if a >= b then a - b else 0
  }

  /** Payload bytes of a block, after its own header and its records' headers. */
  function Payload(b: Block): nat {
    Minus(Minus(b.size, b.recordCount * RECORD_HEADER_SIZE), BLOCK_HEADER_SIZE)
  }

  /** A well-formed block's payload is its size less 10 bytes of its own header and 33 for each record. */
  lemma PayloadIs(b: Block)
    requires b.size >= 33 * b.recordCount + 10
    ensures Payload(b) == b.size - 33 * b.recordCount - 10
  {
  }

  /** Every block is charged except a first one entered part-way. */
  function Charged(bs: seq<Block>, offset: nat): nat {
    if bs == [] then 0
    else
      var n := |bs| - 1;
      Charged(bs[..n], offset) + (if n == 0 && bs[0].start != offset then 0 else Payload(bs[n]))
  }

  predicate Enough(bs: seq<Block>, offset: nat, end: nat, maxBytes: nat) {
    bs != [] && ((end != NOOP_OFFSET && End(bs[|bs| - 1]) >= end) || maxBytes <= Charged(bs, offset))
  }

  datatype Found = Found(fulfilled: bool, next: nat, left: nat, blocks: seq<Block>)

  /** The index has no block of the stream at this offset. */
  predicate NothingAt(es: seq<Block>, streamId: nat, offset: nat) {
    forall i | 0 <= i < |es| :: !Holds(es[i], streamId, offset)
  }

  /**
   * What a lookup must return: the chain from the offset, ending where the rest of the request begins; the budget less
   * what was charged; fulfilled exactly when the end is reached or the budget spent, at the first block where that is
   * so; and otherwise the chain runs to where the stream's blocks stop.
   */
  ghost predicate Answers(es: seq<Block>, streamId: nat, offset: nat, end: nat, maxBytes: nat, r: Found) {
    && ChainFrom(es, r.blocks, streamId, offset)
    && r.next == (if r.blocks == [] then offset else End(r.blocks[|r.blocks| - 1]))
    && r.left == Minus(maxBytes, Charged(r.blocks, offset))
    && (r.fulfilled <==> Enough(r.blocks, offset, end, maxBytes))
    && (forall k | 0 < k < |r.blocks| :: !Enough(r.blocks[..k], offset, end, maxBytes))
    && (!r.fulfilled ==> NothingAt(es, streamId, r.next))
  }

  /** Answers are unique: the specification leaves a lookup no choice. */
  lemma AnswerUnique(es: seq<Block>, streamId: nat, offset: nat, end: nat, maxBytes: nat, r: Found, q: Found)
    requires Ordered(es) && Answers(es, streamId, offset, end, maxBytes, r)
    requires Answers(es, streamId, offset, end, maxBytes, q)
    ensures r == q
  {
    if |r.blocks| <= |q.blocks| {
      NoLonger(es, streamId, offset, end, maxBytes, r, q);
    } else {
      NoLonger(es, streamId, offset, end, maxBytes, q, r);
    }
  }

  lemma NoLonger(es: seq<Block>, streamId: nat, offset: nat, end: nat, maxBytes: nat, r: Found, q: Found)
    requires Ordered(es) && Answers(es, streamId, offset, end, maxBytes, r)
    requires Answers(es, streamId, offset, end, maxBytes, q)
    requires |r.blocks| <= |q.blocks|
    ensures r == q
  {
    ChainUnique(es, r.blocks, q.blocks, streamId, offset);
    var n := |r.blocks|;
    assert q.blocks[..n] == r.blocks;
    assert n < |q.blocks| ==> q.blocks[n] in es && Holds(q.blocks[n], streamId, r.next);
    assert n == |q.blocks|;
    assert q.blocks == r.blocks;
  }

  /** Every block of the stream before `i` ends by `next`, and none from `i` on starts before it. */
  predicate Scanned(es: seq<Block>, i: nat, streamId: nat, next: nat)
    requires i <= |es|
  {
    && (forall k | 0 <= k < i && es[k].streamId == streamId :: End(es[k]) <= next)
    && (forall k | i <= k < |es| && es[k].streamId == streamId :: es[k].start >= next)
  }

  lemma ScannedPast(es: seq<Block>, i: nat, streamId: nat)
    requires Ordered(es) && i < |es| && es[i].streamId == streamId
    ensures Scanned(es, i + 1, streamId, End(es[i]))
  {
  }

  /** A block that starts later, or a later stream, ends the run. */
  lemma RunEnds(es: seq<Block>, first: nat, i: nat, streamId: nat, next: nat)
    requires Ordered(es) && first < i < |es| && Scanned(es, i, streamId, next) && es[first].streamId == streamId
    requires es[i].streamId != streamId || next < es[i].start
    ensures NothingAt(es, streamId, next)
  {
  }

  /** The state of the lookup loop: the chain so far, its end and what is left of the budget. */
  ghost predicate Progress(es: seq<Block>, streamId: nat, offset: nat, end: nat, maxBytes: nat,
                           bs: seq<Block>, next: nat, left: nat) {
    && ChainFrom(es, bs, streamId, offset) && next == (if bs == [] then offset else End(bs[|bs| - 1]))
    && left == Minus(maxBytes, Charged(bs, offset))
    && forall k | 0 < k <= |bs| :: !Enough(bs[..k], offset, end, maxBytes)
  }

  function Spend(left: nat, b: Block, next: nat): nat {
    if b.start == next then Minus(left, Payload(b)) else left
  }

  /** Taking the block at the chain's end continues the chain and charges it, unless entered part-way. */
  lemma TakeBlock(es: seq<Block>, streamId: nat, offset: nat, end: nat, maxBytes: nat,
                  bs: seq<Block>, next: nat, left: nat, e: Block)
    requires Progress(es, streamId, offset, end, maxBytes, bs, next, left)
    requires e in es && Holds(e, streamId, next) && (bs != [] ==> e.start == next)
    ensures ChainFrom(es, bs + [e], streamId, offset)
    ensures Spend(left, e, next) == Minus(maxBytes, Charged(bs + [e], offset))
    ensures forall k | 0 < k <= |bs| :: !Enough((bs + [e])[..k], offset, end, maxBytes)
  {
    var more := bs + [e];
    assert more[..|bs|] == bs;
    forall k | 0 < k <= |bs| ensures !Enough(more[..k], offset, end, maxBytes) {
      assert more[..k] == bs[..k];
    }
  }

  lemma Unfulfilled(es: seq<Block>, streamId: nat, offset: nat, end: nat, maxBytes: nat,
                    bs: seq<Block>, next: nat, left: nat)
    requires Progress(es, streamId, offset, end, maxBytes, bs, next, left) && NothingAt(es, streamId, next)
    ensures Answers(es, streamId, offset, end, maxBytes, Found(false, next, left, bs))
  {
    assert bs[..|bs|] == bs;
  }

  predicate Stops(end: nat, next: nat, left: nat) {
    (end != NOOP_OFFSET && next >= end) || left == 0
  }

  /** Once a block is taken the lookup is answered, or the loop goes on from the longer chain. */
  lemma AfterBlock(es: seq<Block>, streamId: nat, offset: nat, end: nat, maxBytes: nat,
                   bs: seq<Block>, next: nat, left: nat, e: Block)
    requires Progress(es, streamId, offset, end, maxBytes, bs, next, left)
    requires e in es && Holds(e, streamId, next) && (bs != [] ==> e.start == next)
    ensures
      var more, spent := bs + [e], Spend(left, e, next);
      if Stops(end, End(e), spent) then Answers(es, streamId, offset, end, maxBytes, Found(true, End(e), spent, more))
      else Progress(es, streamId, offset, end, maxBytes, more, End(e), spent)
  {
    var more, spent := bs + [e], Spend(left, e, next);
    TakeBlock(es, streamId, offset, end, maxBytes, bs, next, left, e);
    assert more[..|more|] == more;
    assert Enough(more, offset, end, maxBytes) <==> Stops(end, End(e), spent);
  }

  method Find(es: seq<Block>, streamId: nat, offset: nat, end: nat, maxBytes: nat) returns (r: Found)
    requires Ordered(es)
    ensures Answers(es, streamId, offset, end, maxBytes, r)
  {
    var at := Search(es, streamId, offset);
    if at.None? { return Found(false, offset, maxBytes, []); }
    var next: nat, left: nat, i: nat := offset, maxBytes, at.value;
    var matched, blocks := false, [];
    while i < |es|
      invariant at.value <= i <= |es| && Progress(es, streamId, offset, end, maxBytes, blocks, next, left)
      invariant blocks == [] <==> i == at.value
      invariant i > at.value ==> Scanned(es, i, streamId, next)
    {
      var e := es[i];
      if e.streamId == streamId {
        if next < e.start {
          RunEnds(es, at.value, i, streamId, next);
          break;
        }
        if End(e) > next {
          AfterBlock(es, streamId, offset, end, maxBytes, blocks, next, left, e);
          ScannedPast(es, i, streamId);
          matched := next == e.start;
          if matched {
            left := Minus(left, Payload(e));
          }
          next, blocks := End(e), blocks + [e];
          if (end != NOOP_OFFSET && next >= end) || left == 0 {
            return Found(true, next, left, blocks);
          }
        }
      } else if matched {
        RunEnds(es, at.value, i, streamId, next);
        break;
      }
      i := i + 1;
    }
    Unfulfilled(es, streamId, offset, end, maxBytes, blocks, next, left);
    r := Found(false, next, left, blocks);
  }
}
