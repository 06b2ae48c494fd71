/** The node-local sparse index: per-stream hint lists, thinned to stay under a size cap. */
module RangeIndex {
  import opened Bytes

  datatype Range = Range(start: nat, end: nat, objectId: nat)

  const OBJECT_SIZE: nat := 40

  /** One stream's hints; `size` and `evictIndex` are kept by hand. */
  datatype Sparse = Sparse(ranges: seq<Range>, size: int, evictIndex: nat)

  // ---- lookup ----

  predicate Sorted(rs: seq<Range>) {
    forall i, j | 0 <= i < j < |rs| :: rs[i].start <= rs[j].start
  }

  /** The greatest start at or below `x`: what a lookup of `x` finds. */
  function Floor(rs: seq<Range>, x: nat): Option<nat> {
    if rs == [] then None
    else
      var rest, r := Floor(rs[..|rs| - 1], x), rs[|rs| - 1].start;
      if r <= x && (rest.None? || rest.value < r) then Some(r) else rest
  }

  lemma {:induction false} FloorIs(rs: seq<Range>, x: nat)
    ensures Floor(rs, x).Some? <==> exists i :: 0 <= i < |rs| && rs[i].start <= x
    ensures Floor(rs, x).Some? ==> Floor(rs, x).value <= x
    ensures Floor(rs, x).Some? ==> exists i :: 0 <= i < |rs| && rs[i].start == Floor(rs, x).value
    ensures Floor(rs, x).Some? ==> forall i | 0 <= i < |rs| && rs[i].start <= x :: rs[i].start <= Floor(rs, x).value
  {
    if rs != [] {
      var n := |rs| - 1;
      FloorIs(rs[..n], x);
      assert rs[..n] + [rs[n]] == rs;
      if Floor(rs[..n], x).Some? {
        var i :| 0 <= i < n && rs[..n][i].start == Floor(rs[..n], x).value;
        assert rs[i].start == Floor(rs[..n], x).value;
      }
    }
  }

  /** The object hinted at for an offset. */
  method SearchObjectId(x: nat, rs: seq<Range>) returns (id: Option<nat>)
    requires Sorted(rs)
    ensures id.Some? <==> Floor(rs, x).Some?
    ensures id.Some? ==> exists i :: 0 <= i < |rs| && rs[i].objectId == id.value && Floor(rs, x) == Some(rs[i].start)
  {
    FloorIs(rs, x);
    var lo, hi := 0, |rs|;
    while lo < hi
      invariant 0 <= lo <= hi <= |rs|
      invariant forall i | 0 <= i < lo :: rs[i].start < x
      invariant forall i | hi <= i < |rs| :: rs[i].start > x
    {
      var mid := lo + (hi - lo) / 2;
      if rs[mid].start == x { return Some(rs[mid].objectId); }
      if rs[mid].start < x { lo := mid + 1; } else { hi := mid; }
    }
    if lo == 0 { return None; }
    assert rs[lo - 1].start <= x;
    return Some(rs[lo - 1].objectId);
  }

  /** A thinner list answers the same lookups, never with a later start. */
  ghost predicate Thinner(rs: seq<Range>, than: seq<Range>) {
    forall x: nat ::
      (Floor(rs, x).Some? <==> Floor(than, x).Some?)
      && (Floor(rs, x).Some? ==> Floor(rs, x).value <= Floor(than, x).value)
  }

  lemma ThinnerTrans(a: seq<Range>, b: seq<Range>, c: seq<Range>)
    requires Thinner(a, b) && Thinner(b, c)
    ensures Thinner(a, c)
  {
    forall x: nat
      ensures Floor(a, x).Some? <==> Floor(c, x).Some?
      ensures Floor(a, x).Some? ==> Floor(a, x).value <= Floor(c, x).value
    {
      assert Floor(b, x).Some? <==> Floor(c, x).Some?;
    }
  }

  function Without(rs: seq<Range>, i: nat): seq<Range>
    requires i < |rs|
  {
    rs[..i] + rs[i + 1..]
  }

  /** Removing any entry but the first thins a sorted list. */
  lemma RemoveThins(rs: seq<Range>, i: nat)
    requires Sorted(rs) && 1 <= i < |rs|
    ensures Thinner(Without(rs, i), rs) && Sorted(Without(rs, i)) && Without(rs, i)[0] == rs[0]
  {
    var w := Without(rs, i);
    forall x: nat
      ensures Floor(w, x).Some? <==> Floor(rs, x).Some?
      ensures Floor(w, x).Some? ==> Floor(w, x).value <= Floor(rs, x).value
    {
      FloorIs(w, x);
      FloorIs(rs, x);
      if Floor(rs, x).Some? {
        assert rs[0].start <= x;
        assert w[0].start <= x;
      }
      if Floor(w, x).Some? {
        var k :| 0 <= k < |w| && w[k].start == Floor(w, x).value;
        assert w[k] == rs[if k < i then k else k + 1];
      }
    }
  }

  // ---- one stream's list ----

  predicate SparseOk(s: Sparse) {
    Sorted(s.ranges) && s.size == OBJECT_SIZE * |s.ranges|
  }

  /** A range that does not start past the last one resets the list. */
  function Appended(s: Sparse, r: Range): Sparse {
    var kept := if s.ranges != [] && r.start <= s.ranges[|s.ranges| - 1].start then Sparse([], 0, 0) else s;
    kept.(ranges := kept.ranges + [r], size := kept.size + OBJECT_SIZE)
  }

  /** Which entry the next eviction takes: the cursor cycles, sparing the first and the newest entries. */
  function Victim(s: Sparse, compactNum: nat): (r: (nat, nat))
    requires s.ranges != []
    ensures r.0 < |s.ranges| && (|s.ranges| >= 2 ==> r.0 >= 1)
    ensures |s.ranges| > 1 + compactNum ==> r.0 < |s.ranges| - compactNum
  {
    var len := |s.ranges|;
    if len == 1 then (0, s.evictIndex)
    else if len <= 1 + compactNum then (1, s.evictIndex)
    else
      var i := if s.evictIndex % len == 0 || s.evictIndex >= len - compactNum then 1 else s.evictIndex;
      (i, i + 1)
  }

  function Evicted(s: Sparse, compactNum: nat): Sparse {
    if s.ranges == [] then s
    else
      var v := Victim(s, compactNum);
      Sparse(Without(s.ranges, v.0), s.size - OBJECT_SIZE, v.1)
  }

  /** Evicting from two or more entries keeps the first, and every lookup stays answered, never with a later start. */
  lemma EvictionThins(s: Sparse, compactNum: nat)
    requires SparseOk(s)
    ensures SparseOk(Evicted(s, compactNum))
    ensures |s.ranges| >= 2 ==> Evicted(s, compactNum).ranges[0] == s.ranges[0]
    ensures |s.ranges| >= 2 ==> Thinner(Evicted(s, compactNum).ranges, s.ranges)
  {
    if |s.ranges| >= 2 {
      RemoveThins(s.ranges, Victim(s, compactNum).0);
    }
  }

  /** The cursor is taken as it stands while it is in the middle of the list. */
  lemma CursorVictim(s: Sparse, compactNum: nat)
    requires 1 <= s.evictIndex && s.evictIndex + compactNum < |s.ranges| && 1 + compactNum < |s.ranges|
    ensures Victim(s, compactNum) == (s.evictIndex, s.evictIndex + 1)
  {
    assert s.evictIndex % |s.ranges| == s.evictIndex;
  }

  function EvictedTimes(s: Sparse, compactNum: nat, times: nat): Sparse {
    if times == 0 then s else Evicted(EvictedTimes(s, compactNum, times - 1), compactNum)
  }

  /** `t` is `s` without its second, fourth and further entries, `times` of them. */
  predicate EveryOther(t: seq<Range>, s: seq<Range>, times: nat) {
    && 2 * times <= |s| && |t| == |s| - times
    && forall i | 0 <= i < |t| :: t[i] == s[if i <= times then 2 * i else i + times]
  }

  lemma EveryOtherNext(t: seq<Range>, s: seq<Range>, times: nat)
    requires times > 0 && EveryOther(t, s, times - 1) && 2 * times <= |s|
    ensures EveryOther(Without(t, times), s, times)
  {
    var w := Without(t, times);
    forall i | 0 <= i < |w| ensures w[i] == s[if i <= times then 2 * i else i + times] {
      assert w[i] == t[if i < times then i else i + 1];
    }
  }

  /** A round of evictions from the start of a list takes every other entry: the second, the fourth and so on. */
  lemma {:induction false} EvictsEveryOther(s: Sparse, compactNum: nat, times: nat)
    requires s.evictIndex == 0 && 2 * times + compactNum <= |s.ranges|
    ensures EveryOther(EvictedTimes(s, compactNum, times).ranges, s.ranges, times)
    ensures times > 0 ==> EvictedTimes(s, compactNum, times).evictIndex == times + 1
    decreases times
  {
    if times > 0 {
      var t := EvictedTimes(s, compactNum, times - 1);
      EvictsEveryOther(s, compactNum, times - 1);
      if times > 1 {
        CursorVictim(t, compactNum);
      }
      EveryOtherNext(t.ranges, s.ranges, times);
    }
  }

  /** Once the newest entries are reached the next round starts, again with the second entry. */
  lemma EvictionWraps(s: Sparse, compactNum: nat)
    requires |s.ranges| > 1 + compactNum && s.evictIndex + compactNum >= |s.ranges|
    ensures Evicted(s, compactNum).ranges == Without(s.ranges, 1) && Evicted(s, compactNum).evictIndex == 2
  {
  }

  lemma EvictedAtCursor(s: Sparse, compactNum: nat)
    requires 1 <= s.evictIndex && s.evictIndex + compactNum < |s.ranges|
    ensures Evicted(s, compactNum)
            == Sparse(Without(s.ranges, s.evictIndex), s.size - OBJECT_SIZE, s.evictIndex + 1)
  {
    CursorVictim(s, compactNum);
  }

  lemma WithoutTwo(rs: seq<Range>, i: nat, r: Range)
    requires i + 2 < |rs|
    ensures Without(Without(rs, i) + [r], i + 1) == rs[..i] + [rs[i + 1]] + rs[i + 3..] + [r]
  {
    var once := Without(rs, i) + [r];
    assert once[..i + 1] == rs[..i] + [rs[i + 1]] && once[i + 2..] == rs[i + 3..] + [r];
  }

  /** A range added behind the list between two evictions does not disturb the round. */
  lemma EvictionResumes(s: Sparse, compactNum: nat, r: Range)
    requires 1 <= s.evictIndex && s.evictIndex + 2 + compactNum < |s.ranges|
    requires s.ranges[|s.ranges| - 1].start < r.start
    ensures
      var i, rs := s.evictIndex, s.ranges;
      Evicted(Appended(Evicted(s, compactNum), r), compactNum).ranges == rs[..i] + [rs[i + 1]] + rs[i + 3..] + [r]
  {
    var once := Evicted(s, compactNum);
    EvictedAtCursor(s, compactNum);
    assert once.ranges[|once.ranges| - 1] == s.ranges[|s.ranges| - 1];
    EvictedAtCursor(Appended(once, r), compactNum);
    WithoutTwo(s.ranges, s.evictIndex, r);
  }

  /** Evictions from a short list take the oldest entries but the first, and leave the round where it was. */
  lemma {:induction false} ShortKeepsNewest(s: Sparse, compactNum: nat, times: nat)
    requires times < |s.ranges| <= 1 + compactNum
    ensures
      var t := EvictedTimes(s, compactNum, times);
      t.ranges == [s.ranges[0]] + s.ranges[1 + times..] && t.evictIndex == s.evictIndex
    decreases times
  {
    if times > 0 {
      ShortKeepsNewest(s, compactNum, times - 1);
      assert s.ranges[times..][1..] == s.ranges[1 + times..];
    }
  }

  /** A range past the last one is added behind everything; any other starts the list over. Either way the newest range
      answers every lookup from its start on. */
  lemma AppendedAnswers(s: Sparse, r: Range, x: nat)
    requires SparseOk(s)
    ensures s.ranges == [] || s.ranges[|s.ranges| - 1].start < r.start ==>
              && Appended(s, r).ranges == s.ranges + [r]
              && (x < r.start ==> Floor(Appended(s, r).ranges, x) == Floor(s.ranges, x))
    ensures s.ranges != [] && s.ranges[|s.ranges| - 1].start >= r.start ==> Appended(s, r).ranges == [r]
    ensures x >= r.start ==> Floor(Appended(s, r).ranges, x) == Some(r.start)
  {
    var rs := Appended(s, r).ranges;
    FloorIs(rs, x);
    assert rs[..|rs| - 1] == if rs == [r] then [] else s.ranges;
    assert rs[|rs| - 1] == r;
    FloorIs(rs[..|rs| - 1], x);
  }

  function Kept(rs: seq<Range>, gone: set<nat>): seq<Range> {
    if rs == [] then []
    else
      var init, last := Kept(rs[..|rs| - 1], gone), rs[|rs| - 1];
      if last.objectId in gone then init else init + [last]
  }

  /** Before the first entry that starts later, else at the end. */
  function Inserted(rs: seq<Range>, r: Range): seq<Range> {
    if rs == [] then [r]
    else if rs[0].start > r.start then [r] + rs
    else [rs[0]] + Inserted(rs[1..], r)
  }

  function InsertedIfAny(rs: seq<Range>, r: Option<Range>): seq<Range> {
    if r.Some? then Inserted(rs, r.value) else rs
  }

  function Compacted(s: Sparse, r: Option<Range>, gone: set<nat>): Sparse {
    if gone == {} then (if r.Some? then Appended(s, r.value) else s)
    else
      var rs := InsertedIfAny(Kept(s.ranges, gone), r);
      Sparse(rs, OBJECT_SIZE * |rs|, 0)
  }

  predicate LaterExists(rs: seq<Range>, r: Range) {
    exists i :: 0 <= i < |rs| && rs[i].start > r.start
  }

  lemma {:induction false} InsertedSnoc(rs: seq<Range>, y: Range, r: Range)
    ensures Inserted(rs + [y], r)
            == if LaterExists(rs, r) then Inserted(rs, r) + [y]
               else if y.start > r.start then rs + [r, y]
               else rs + [y, r]
  {
    if rs == [] {
      assert rs + [y] == [y] && [y][1..] == [];
    } else {
      assert (rs + [y])[1..] == rs[1..] + [y];
      InsertedSnoc(rs[1..], y, r);
      assert rs[0].start <= r.start ==> (LaterExists(rs, r) <==> LaterExists(rs[1..], r)) by {
        if i :| 0 <= i < |rs| && rs[i].start > r.start && rs[0].start <= r.start {
          assert rs[1..][i - 1] == rs[i];
        }
      }
      assert rs == [rs[0]] + rs[1..];
    }
  }

  /** One pass that drops compacted entries and slots the new range in. */
  method CompactRanges(rs: seq<Range>, r: Option<Range>, gone: set<nat>) returns (out: seq<Range>)
    ensures out == InsertedIfAny(Kept(rs, gone), r)
  {
    out := [];
    var inserted, i := false, 0;
    ghost var kept := [];
    while i < |rs|
      invariant 0 <= i <= |rs| && kept == Kept(rs[..i], gone)
      invariant inserted <==> r.Some? && LaterExists(kept, r.value)
      invariant out == if inserted then Inserted(kept, r.value) else kept
    {
      assert rs[..i + 1][..i] == rs[..i];
      if rs[i].objectId !in gone {
        if r.Some? { InsertedSnoc(kept, rs[i], r.value); }
        if r.Some? && !inserted && rs[i].start > r.value.start {
          assert (kept + [rs[i]])[|kept|] == rs[i];
          out := out + [r.value];
          inserted := true;
          assert out + [rs[i]] == kept + [r.value, rs[i]];
        }
        if r.Some? { LaterSnoc(kept, rs[i], r.value); }
        out := out + [rs[i]];
        kept := kept + [rs[i]];
      }
      i := i + 1;
    }
    assert rs[..i] == rs;
    if r.Some? && !inserted {
      InsertedLast(kept, r.value);
      out := out + [r.value];
    }
  }

  lemma LaterSnoc(rs: seq<Range>, y: Range, r: Range)
    ensures LaterExists(rs + [y], r) <==> LaterExists(rs, r) || y.start > r.start
  {
    if i :| 0 <= i < |rs| && rs[i].start > r.start {
      assert (rs + [y])[i].start > r.start;
    }
    if y.start > r.start {
      assert (rs + [y])[|rs|].start > r.start;
    }
  }

  lemma {:induction false} InsertedLast(rs: seq<Range>, r: Range)
    requires !LaterExists(rs, r)
    ensures Inserted(rs, r) == rs + [r]
  {
    if rs != [] {
      forall i | 0 <= i < |rs| - 1 ensures rs[1..][i].start <= r.start {
        assert rs[i + 1].start <= r.start;
      }
      assert rs[0].start <= r.start;
      InsertedLast(rs[1..], r);
    }
  }

  lemma {:induction false} KeptMembers(rs: seq<Range>, gone: set<nat>)
    ensures forall r :: r in Kept(rs, gone) <==> r in rs && r.objectId !in gone
  {
    if rs != [] {
      KeptMembers(rs[..|rs| - 1], gone);
      assert rs == rs[..|rs| - 1] + [rs[|rs| - 1]];
    }
  }

  lemma {:induction false} KeptSorted(rs: seq<Range>, gone: set<nat>)
    requires Sorted(rs)
    ensures Sorted(Kept(rs, gone))
  {
    if rs != [] {
      var n := |rs| - 1;
      KeptSorted(rs[..n], gone);
      KeptMembers(rs[..n], gone);
      forall r | r in rs[..n] ensures r.start <= rs[n].start {
        var i :| 0 <= i < n && rs[i] == r;
      }
      SortedSnoc(Kept(rs[..n], gone), rs[n]);
    }
  }

  lemma SortedSnoc(rs: seq<Range>, y: Range)
    requires Sorted(rs) && forall r | r in rs :: r.start <= y.start
    ensures Sorted(rs + [y])
  {
  }

  lemma {:induction false} InsertedSorted(rs: seq<Range>, r: Range)
    requires Sorted(rs)
    ensures Sorted(Inserted(rs, r)) && |Inserted(rs, r)| == |rs| + 1
    ensures forall y :: y in Inserted(rs, r) <==> y == r || y in rs
  {
    if rs != [] && rs[0].start <= r.start {
      InsertedSorted(rs[1..], r);
      assert rs == [rs[0]] + rs[1..];
      forall y | y in Inserted(rs[1..], r) ensures rs[0].start <= y.start {
        if y != r {
          var i :| 0 <= i < |rs| - 1 && rs[1..][i] == y;
          assert rs[i + 1] == y;
        }
      }
    } else if rs != [] {
      forall y | y in rs ensures r.start <= y.start {
        var i :| 0 <= i < |rs| && rs[i] == y;
        assert rs[0].start <= rs[i].start;
      }
    }
  }

  /** Compacting keeps the list sorted and sized at 40 bytes an entry; when anything is compacted the list is then
      exactly the new range and the entries not compacted away. */
  lemma CompactedOk(s: Sparse, r: Option<Range>, gone: set<nat>)
    requires SparseOk(s)
    ensures SparseOk(Compacted(s, r, gone)) && Compacted(s, r, gone).size == 40 * |Compacted(s, r, gone).ranges|
    ensures forall y | y in Compacted(s, r, gone).ranges :: Some(y) == r || (y in s.ranges && y.objectId !in gone)
    ensures r.Some? ==> r.value in Compacted(s, r, gone).ranges
    ensures gone != {} ==> forall y | y in s.ranges && y.objectId !in gone :: y in Compacted(s, r, gone).ranges
  {
    if gone != {} {
      KeptSorted(s.ranges, gone);
      KeptMembers(s.ranges, gone);
      if r.Some? {
        InsertedSorted(Kept(s.ranges, gone), r.value);
      }
    }
  }

  /** The new range goes behind everything that does not start later, and before what does. */
  lemma {:induction false} InsertedBetween(rs: seq<Range>, r: Range, k: nat)
    requires k <= |rs| && (forall i | 0 <= i < k :: rs[i].start <= r.start) && (k < |rs| ==> rs[k].start > r.start)
    ensures Inserted(rs, r) == rs[..k] + [r] + rs[k..]
    decreases k
  {
    if k > 0 {
      InsertedBetween(rs[1..], r, k - 1);
      assert rs[..k] == [rs[0]] + rs[1..][..k - 1] && rs[k..] == rs[1..][k - 1..];
    }
  }

  // ---- one stream's list over time ----

  datatype ListOp = Add(range: Range) | Replace(output: Option<Range>, gone: set<nat>) | Thin

  function ListStep(s: Sparse, op: ListOp, compactNum: nat): Sparse {
    match op
    case Add(r) => Appended(s, r)
    case Replace(r, gone) => Compacted(s, r, gone)
    case Thin => Evicted(s, compactNum)
  }

  function ListAfter(ops: seq<ListOp>, compactNum: nat): Sparse {
    if ops == [] then Sparse([], 0, 0)
    else ListStep(ListAfter(ops[..|ops| - 1], compactNum), ops[|ops| - 1], compactNum)
  }

  /** A reset, or a compaction that drops objects. */
  predicate StartsOver(s: Sparse, op: ListOp) {
    || (op.Add? && s.ranges != [] && op.range.start <= s.ranges[|s.ranges| - 1].start)
    || (op.Replace? && op.gone != {})
  }

  lemma {:induction false} CursorAtStart(ops: seq<ListOp>, compactNum: nat, i: nat, j: nat)
    requires i <= j <= |ops| && forall k | i <= k < j :: !ops[k].Thin?
    requires i == 0 || StartsOver(ListAfter(ops[..i - 1], compactNum), ops[i - 1])
    ensures ListAfter(ops[..j], compactNum).evictIndex == 0
    decreases j
  {
    if j > 0 {
      assert ops[..j][..j - 1] == ops[..j - 1];
      if i < j {
        CursorAtStart(ops, compactNum, i, j - 1);
      }
    }
  }

  /** Whatever happened to a list before, once it starts over, and with additions since, the evictions that follow take
      every other entry from the second on. */
  lemma RoundStartsOver(ops: seq<ListOp>, compactNum: nat, i: nat, times: nat)
    requires i <= |ops| && forall k | i <= k < |ops| :: !ops[k].Thin?
    requires i == 0 || StartsOver(ListAfter(ops[..i - 1], compactNum), ops[i - 1])
    requires 2 * times + compactNum <= |ListAfter(ops, compactNum).ranges|
    ensures
      var s := ListAfter(ops, compactNum);
      EveryOther(EvictedTimes(s, compactNum, times).ranges, s.ranges, times)
  {
    assert ops[..|ops|] == ops;
    CursorAtStart(ops, compactNum, i, |ops|);
    EvictsEveryOther(ListAfter(ops, compactNum), compactNum, times);
  }

  // ---- all streams ----

  /** Entries over all streams. */
  ghost function Count(streams: map<nat, Sparse>): nat {
    if streams == map[] then 0
    else
      var k :| k in streams;
      |streams[k].ranges| + Count(streams - {k})
  }

  lemma {:induction false} CountWithout(streams: map<nat, Sparse>, id: nat)
    requires id in streams
    ensures Count(streams) == |streams[id].ranges| + Count(streams - {id})
    decreases |streams|
  {
    var k :| k in streams && Count(streams) == |streams[k].ranges| + Count(streams - {k});
    if k != id {
      CountWithout(streams - {k}, id);
      CountWithout(streams - {id}, k);
      assert streams - {k} - {id} == streams - {id} - {k};
    }
  }

  lemma CountUpdate(streams: map<nat, Sparse>, id: nat, s: Sparse)
    ensures Count(streams[id := s])
            == Count(streams) + |s.ranges| - (if id in streams then |streams[id].ranges| else 0)
  {
    CountWithout(streams[id := s], id);
    assert streams[id := s] - {id} == streams - {id};
    if id in streams {
      CountWithout(streams, id);
    } else {
      assert streams - {id} == streams;
    }
  }

  ghost predicate AllOk(streams: map<nat, Sparse>) {
    forall id | id in streams :: SparseOk(streams[id]) && streams[id].ranges != []
  }

  /** Every stream still indexed answers every lookup it did, never with a later start. */
  ghost predicate AllThinner(streams: map<nat, Sparse>, than: map<nat, Sparse>) {
    forall id | id in streams :: id in than && Thinner(streams[id].ranges, than[id].ranges)
  }

  lemma AllThinnerTrans(a: map<nat, Sparse>, b: map<nat, Sparse>, c: map<nat, Sparse>)
    requires AllThinner(a, b) && AllThinner(b, c)
    ensures AllThinner(a, c)
  {
    forall id | id in a ensures id in c && Thinner(a[id].ranges, c[id].ranges) {
      ThinnerTrans(a[id].ranges, b[id].ranges, c[id].ranges);
    }
  }

  /** No list got longer. */
  ghost predicate NoLonger(streams: map<nat, Sparse>, than: map<nat, Sparse>) {
    forall id | id in streams :: id in than && |streams[id].ranges| <= |than[id].ranges|
  }

  /** No list lost an entry it needed to keep its first `least`. */
  ghost predicate Spared(streams: map<nat, Sparse>, than: map<nat, Sparse>, least: nat) {
    forall id | id in than ::
      id in streams && (|streams[id].ranges| >= least || |streams[id].ranges| >= |than[id].ranges|)
  }

  ghost predicate AllShort(streams: map<nat, Sparse>, most: nat) {
    forall id | id in streams :: |streams[id].ranges| <= most
  }

  lemma EvictOneLength(streams: map<nat, Sparse>, than: map<nat, Sparse>, id: nat, compactNum: nat)
    requires AllOk(streams) && id in streams && NoLonger(streams, than)
    ensures
      var u := Updated(streams, id, Evicted(streams[id], compactNum));
      && NoLonger(u, than)
      && (AllShort(streams, 1 + compactNum) ==> AllShort(u, 1 + compactNum))
      && (Spared(streams, than, 1 + compactNum) && |streams[id].ranges| > 1 + compactNum ==>
            Spared(u, than, 1 + compactNum))
  {
    assert |Evicted(streams[id], compactNum).ranges| == |streams[id].ranges| - 1;
  }

  /** What a sweep, so far, has done to the lists. */
  ghost predicate Swept(now: map<nat, Sparse>, was: map<nat, Sparse>, compactNum: nat, sufficient: bool) {
    && AllThinner(now, was) && NoLonger(now, was) && (sufficient ==> Spared(now, was, 1 + compactNum))
    && (AllShort(was, 1 + compactNum) ==> AllShort(now, 1 + compactNum))
  }

  lemma SweptOne(now: map<nat, Sparse>, was: map<nat, Sparse>, id: nat, compactNum: nat, sufficient: bool)
    requires AllOk(now) && id in now && Swept(now, was, compactNum, sufficient)
    requires |now[id].ranges| > 1 + compactNum || !sufficient
    requires AllThinner(Updated(now, id, Evicted(now[id], compactNum)), now)
    ensures Swept(Updated(now, id, Evicted(now[id], compactNum)), was, compactNum, sufficient)
  {
    EvictOneLength(now, was, id, compactNum);
    AllThinnerTrans(Updated(now, id, Evicted(now[id], compactNum)), now, was);
  }

  function Updated(streams: map<nat, Sparse>, id: nat, s: Sparse): map<nat, Sparse> {
    if s.ranges == [] then streams - {id} else streams[id := s]
  }

  lemma EvictOneEffect(streams: map<nat, Sparse>, id: nat, s: Sparse)
    requires id in streams && (s.ranges != [] ==> Thinner(s.ranges, streams[id].ranges))
    ensures AllThinner(Updated(streams, id, s), streams)
    ensures |Updated(streams, id, s)| == |streams| - (if s.ranges == [] then 1 else 0)
  {
    var u := Updated(streams, id, s);
    if s.ranges == [] {
      assert u.Keys == streams.Keys - {id};
    } else {
      assert u.Keys == streams.Keys;
    }
    forall other | other in u ensures other in streams && Thinner(u[other].ranges, streams[other].ranges) {
      if other != id {
        assert u[other] == streams[other];
      }
    }
  }

  function ListOf(streams: map<nat, Sparse>, id: nat): Sparse {
    if id in streams then streams[id] else Sparse([], 0, 0)
  }

  /** The streams once the ranges of `done` were appended. */
  function AppendedTo(streams: map<nat, Sparse>, updates: map<nat, Option<Range>>, done: set<nat>): map<nat, Sparse>
    requires forall id | id in done :: id in updates && updates[id].Some?
  {
    map id | id in streams.Keys + done ::
      if id in done then Appended(ListOf(streams, id), updates[id].value) else streams[id]
  }

  function Named(updates: map<nat, Option<Range>>): set<nat> {
    set id | id in updates && updates[id].Some?
  }

  /** What rewrites every stream's list: new ranges for compacted objects, or the removal of dead ones. */
  datatype Change = Compaction(updates: map<nat, Option<Range>>, gone: set<nat>) | Pruning(live: set<nat>)

  function Changed(change: Change, id: nat, s: Sparse): Sparse {
    match change
    case Compaction(updates, gone) => Compacted(s, NewRange(updates, id), gone)
    case Pruning(live) => Pruned(s, live)
  }

  lemma ChangedOk(change: Change, id: nat, s: Sparse)
    requires SparseOk(s)
    ensures SparseOk(Changed(change, id, s))
  {
    match change
    case Compaction(updates, gone) => CompactedOk(s, NewRange(updates, id), gone);
    case Pruning(live) => CompactedOk(s, None, Dead(s.ranges, live));
  }

  /** The streams once the lists of `done` were rewritten, dropping those left empty. */
  function Rewritten(streams: map<nat, Sparse>, change: Change, done: set<nat>): map<nat, Sparse> {
    map id | id in streams && (id in done ==> Changed(change, id, streams[id]).ranges != []) ::
      if id in done then Changed(change, id, streams[id]) else streams[id]
  }

  lemma AppendedToNone(streams: map<nat, Sparse>, updates: map<nat, Option<Range>>)
    ensures AppendedTo(streams, updates, {}) == streams
  {
  }

  lemma AppendedToStep(streams: map<nat, Sparse>, updates: map<nat, Option<Range>>, done: set<nat>, id: nat)
    requires (forall d | d in done :: d in updates && updates[d].Some?) && id in Named(updates) && id !in done
    ensures
      var u := AppendedTo(streams, updates, done);
      AppendedTo(streams, updates, done + {id}) == u[id := Appended(ListOf(u, id), updates[id].value)]
  {
    var u, v := AppendedTo(streams, updates, done), AppendedTo(streams, updates, done + {id});
    assert ListOf(u, id) == ListOf(streams, id);
    assert v == u[id := Appended(ListOf(u, id), updates[id].value)];
  }

  lemma RewrittenNone(streams: map<nat, Sparse>, change: Change)
    ensures Rewritten(streams, change, {}) == streams
  {
  }

  lemma RewrittenStep(streams: map<nat, Sparse>, change: Change, done: set<nat>, id: nat)
    requires id in streams && id !in done
    ensures
      var u := Rewritten(streams, change, done);
      && id in u && u[id] == streams[id]
      && Rewritten(streams, change, done + {id}) == Updated(u, id, Changed(change, id, streams[id]))
  {
    var u, v := Rewritten(streams, change, done), Rewritten(streams, change, done + {id});
    assert v == Updated(u, id, Changed(change, id, streams[id]));
  }

  function NewRange(updates: map<nat, Option<Range>>, id: nat): Option<Range> {
    if id in updates then updates[id] else None
  }

  function Dead(rs: seq<Range>, live: set<nat>): set<nat> {
    set r | r in rs && r.objectId !in live :: r.objectId
  }

  /** A list keeps only live objects. */
  function Pruned(s: Sparse, live: set<nat>): Sparse {
    if Dead(s.ranges, live) == {} then s else Compacted(s, None, Dead(s.ranges, live))
  }

  /** An append puts a named stream's range behind its list, or starts its list with it, and touches no other. */
  lemma AppendIndexes(streams: map<nat, Sparse>, updates: map<nat, Option<Range>>, id: nat)
    requires AllOk(streams)
    ensures
      var u := AppendedTo(streams, updates, Named(updates));
      if id in updates && updates[id].Some? then
        var r := updates[id].value;
        && id in u
        && u[id].ranges == if id in streams && streams[id].ranges[|streams[id].ranges| - 1].start < r.start
                           then streams[id].ranges + [r] else [r]
      else (id in u <==> id in streams) && (id in u ==> u[id] == streams[id])
  {
    assert [] + (if id in updates && updates[id].Some? then [updates[id].value] else [])
           == if id in updates && updates[id].Some? then [updates[id].value] else [];
  }

  /** A compaction leaves, in every stream indexed before it, exactly its new range and the entries not compacted away,
      and indexes no other stream. */
  lemma CompactIndexes(streams: map<nat, Sparse>, updates: map<nat, Option<Range>>, gone: set<nat>, id: nat, y: Range)
    requires AllOk(streams) && gone != {}
    ensures
      var u := Rewritten(streams, Compaction(updates, gone), streams.Keys);
      && (id in u ==> id in streams && u[id].ranges != [])
      && (id in u && y in u[id].ranges <==>
            && id in streams
            && ((id in updates && updates[id] == Some(y)) || (y in streams[id].ranges && y.objectId !in gone)))
  {
    if id in streams {
      CompactedOk(streams[id], NewRange(updates, id), gone);
    }
  }

  /** A compaction of nothing is an append to the streams indexed before it. */
  lemma CompactNothing(streams: map<nat, Sparse>, updates: map<nat, Option<Range>>, id: nat)
    requires AllOk(streams)
    ensures
      var u := Rewritten(streams, Compaction(updates, {}), streams.Keys);
      var a := AppendedTo(streams, updates, Named(updates));
      (id in u <==> id in streams) && (id in u ==> id in a && u[id].ranges == a[id].ranges)
  {
  }

  /** Pruning leaves exactly the entries of live objects, and no stream without any. */
  lemma PruneIndexes(streams: map<nat, Sparse>, live: set<nat>, id: nat, y: Range)
    requires AllOk(streams)
    ensures
      var u := Rewritten(streams, Pruning(live), streams.Keys);
      && (id in u ==> u[id].ranges != [])
      && (id in u && y in u[id].ranges <==> id in streams && y in streams[id].ranges && y.objectId in live)
  {
    if id in streams {
      PrunedKeepsLive(streams[id], live);
    }
  }

  class Cache {
    const compactNum: nat
    const maxSize: nat
    var streams: map<nat, Sparse>
    var totalSize: int

    constructor (compactNum: nat, maxSize: nat)
      ensures this.compactNum == compactNum && this.maxSize == maxSize && streams == map[] && Valid()
    {
      this.compactNum, this.maxSize := compactNum, maxSize;
      streams, totalSize := map[], 0;
    }

    /** The running total is exact and every list is sorted and sized. */
    ghost predicate Valid()
      reads this
    {
      totalSize == OBJECT_SIZE * Count(streams) && AllOk(streams)
    }

    /** Replaces one stream's list, or drops the stream when the list is empty, keeping the total exact. */
    method Put(id: nat, s: Sparse)
      requires Valid() && SparseOk(s)
      modifies this
      ensures Valid()
      ensures streams == Updated(old(streams), id, s)
      ensures Count(streams) == Count(old(streams)) + |s.ranges|
                                - (if id in old(streams) then |old(streams)[id].ranges| else 0)
    {
      CountUpdate(streams, id, s);
      totalSize := totalSize + s.size - (if id in streams then streams[id].size else 0);
      streams := streams[id := s];
      if s.ranges == [] {
        CountWithout(streams, id);
        streams := streams - {id};
      }
    }

    /** Evicts one entry of one stream. */
    method EvictFrom(id: nat)
      requires Valid() && id in streams
      modifies this
      ensures Valid() && AllThinner(streams, old(streams)) && totalSize == old(totalSize) - OBJECT_SIZE
      ensures streams == Updated(old(streams), id, Evicted(old(streams)[id], compactNum))
      ensures Count(streams) + |streams| < Count(old(streams)) + |old(streams)|
    {
      EvictionThins(streams[id], compactNum);
      EvictOneEffect(streams, id, Evicted(streams[id], compactNum));
      Put(id, Evicted(streams[id], compactNum));
    }

    /** One eviction of a sweep. */
    method EvictInSweep(id: nat, sufficient: bool, ghost was: map<nat, Sparse>)
      requires Valid() && id in streams && totalSize > maxSize && Swept(streams, was, compactNum, sufficient)
      requires |streams[id].ranges| > 1 + compactNum || !sufficient
      modifies this
      ensures Valid() && Swept(streams, was, compactNum, sufficient) && totalSize + OBJECT_SIZE > maxSize
      ensures Count(streams) + |streams| < Count(old(streams)) + |old(streams)|
      ensures forall other | other in old(streams) && other != id :: other in streams
    {
      ghost var before := streams;
      EvictFrom(id);
      SweptOne(before, was, id, compactNum, sufficient);
    }

    /** One sweep over the streams, whatever their order, stopping as soon as the total fits. */
    method Sweep(ids: seq<nat>, sufficient: bool) returns (evicted: bool)
      requires Valid() && totalSize > maxSize && (forall i, j | 0 <= i < j < |ids| :: ids[i] != ids[j])
      requires forall id | id in ids :: id in streams
      modifies this
      ensures Valid() && Swept(streams, old(streams), compactNum, sufficient) && totalSize + OBJECT_SIZE > maxSize
      ensures evicted ==> Count(streams) + |streams| < Count(old(streams)) + |old(streams)|
      ensures !evicted ==> streams == old(streams) && (sufficient || ids == [])
      ensures !evicted ==> totalSize > maxSize && forall id | id in ids :: |streams[id].ranges| <= 1 + compactNum
    {
      evicted := false;
      var i := 0;
      ThinnerSelf(streams);
      while i < |ids|
        invariant 0 <= i <= |ids| && Valid() && totalSize > maxSize
        invariant Swept(streams, old(streams), compactNum, sufficient)
        invariant forall k | i <= k < |ids| :: ids[k] in streams
        invariant evicted ==> Count(streams) + |streams| < Count(old(streams)) + |old(streams)|
        invariant !evicted ==> streams == old(streams) && (sufficient || i == 0)
        invariant !evicted ==> forall k | 0 <= k < i :: ids[k] in streams && |streams[ids[k]].ranges| <= 1 + compactNum
      {
        var id := ids[i];
        if |streams[id].ranges| > 1 + compactNum || !sufficient {
          EvictInSweep(id, sufficient, old(streams));
          evicted := true;
          if totalSize <= maxSize { return; }
        }
        i := i + 1;
      }
    }

    /**
     * Sweeps until the total fits the cap, and no further. Lists short enough to be useful are spared until a sweep
     * finds nothing else to evict, so the measure is entries plus streams, then whether short lists are still spared.
     */
    method EvictIfNecessary()
      requires Valid()
      modifies this
      ensures Valid() && totalSize <= maxSize && AllThinner(streams, old(streams))
      ensures old(totalSize) <= maxSize ==> streams == old(streams)
      ensures old(totalSize) > maxSize ==> totalSize + OBJECT_SIZE > maxSize
      ensures Spared(streams, old(streams), 1 + compactNum) || AllShort(streams, 1 + compactNum)
    {
      var sufficient := true;
      ThinnerSelf(streams);
      while totalSize > maxSize
        invariant Valid() && AllThinner(streams, old(streams)) && NoLonger(streams, old(streams))
        invariant old(totalSize) <= maxSize ==> streams == old(streams)
        invariant old(totalSize) > maxSize ==> totalSize + OBJECT_SIZE > maxSize
        invariant if sufficient then Spared(streams, old(streams), 1 + compactNum)
                  else AllShort(streams, 1 + compactNum)
        decreases Count(streams) + |streams|, sufficient
      {
        ghost var before := streams;
        var ids := Keys(streams.Keys);
        SomeStream(streams);
        var evicted := Sweep(ids, sufficient);
        AllThinnerTrans(streams, before, old(streams));
        SparedTrans(streams, before, old(streams), 1 + compactNum);
        if !evicted {
          sufficient := false;
        }
      }
    }

    /** Appends each named stream's range, then evicts down to the cap. */
    method Append(updates: map<nat, Option<Range>>)
      requires Valid()
      modifies this
      ensures Valid() && totalSize <= maxSize
      ensures AllThinner(streams, AppendedTo(old(streams), updates, Named(updates)))
      ensures 40 * Count(AppendedTo(old(streams), updates, Named(updates))) <= maxSize ==>
                streams == AppendedTo(old(streams), updates, Named(updates))
    {
      var ids := Keys(Named(updates));
      var i := 0;
      ghost var done: set<nat> := {};
      AppendedToNone(streams, updates);
      while i < |ids|
        invariant 0 <= i <= |ids| && Valid() && done == (set id | id in ids[..i])
        invariant done <= Named(updates) && streams == AppendedTo(old(streams), updates, done)
      {
        var id := ids[i];
        assert id in ids && id !in done;
        AppendedOk(ListOf(streams, id), updates[id].value);
        AppendedToStep(old(streams), updates, done, id);
        Put(id, Appended(ListOf(streams, id), updates[id].value));
        assert ids[..i + 1] == ids[..i] + [id];
        done := done + {id};
        i := i + 1;
      }
      assert ids[..i] == ids;
      assert done == Named(updates);
      EvictIfNecessary();
    }

    method RewriteOne(change: Change, id: nat)
      requires Valid() && id in streams
      modifies this
      ensures Valid() && streams == Updated(old(streams), id, Changed(change, id, old(streams)[id]))
    {
      ChangedOk(change, id, streams[id]);
      var list := ChangeList(change, id, streams[id]);
      Put(id, list);
    }

    /** Rewrites every stream's list, dropping streams left without entries. */
    method Rewrite(change: Change)
      requires Valid()
      modifies this
      ensures Valid() && streams == Rewritten(old(streams), change, old(streams).Keys)
    {
      var ids := Keys(streams.Keys);
      var i := 0;
      ghost var before, done: set<nat> := streams, {};
      RewrittenNone(streams, change);
      while i < |ids|
        invariant 0 <= i <= |ids| && Valid() && streams == Rewritten(before, change, done)
        invariant done <= before.Keys && forall k | 0 <= k < |ids| :: ids[k] in done <==> k < i
      {
        assert ids[i] in ids;
        RewrittenStep(before, change, done, ids[i]);
        RewriteOne(change, ids[i]);
        done := done + {ids[i]};
        i := i + 1;
      }
      assert forall id | id in before.Keys :: id in ids;
      assert done == before.Keys;
    }

    /** Replaces compacted objects by the new ranges in every stream already indexed. */
    method Compact(updates: map<nat, Option<Range>>, gone: set<nat>)
      requires Valid()
      modifies this
      ensures Valid() && streams == Rewritten(old(streams), Compaction(updates, gone), old(streams).Keys)
    {
      Rewrite(Compaction(updates, gone));
    }

    method Prune(live: set<nat>)
      requires Valid()
      modifies this
      ensures Valid() && streams == Rewritten(old(streams), Pruning(live), old(streams).Keys)
    {
      Rewrite(Pruning(live));
    }
  }

  /** Compacts one list: an append when nothing is compacted, else one pass over it. */
  method CompactList(s: Sparse, r: Option<Range>, gone: set<nat>) returns (out: Sparse)
    ensures out == Compacted(s, r, gone)
  {
    if gone == {} {
      out := if r.Some? then Appended(s, r.value) else s;
    } else {
      var ranges := CompactRanges(s.ranges, r, gone);
      out := Sparse(ranges, OBJECT_SIZE * |ranges|, 0);
    }
  }

  method ChangeList(change: Change, id: nat, s: Sparse) returns (out: Sparse)
    ensures out == Changed(change, id, s)
  {
    match change
    case Compaction(updates, gone) => out := CompactList(s, NewRange(updates, id), gone);
    case Pruning(live) =>
      var dead := Dead(s.ranges, live);
      out := s;
      if dead != {} {
        out := CompactList(s, None, dead);
      }
  }

  lemma AppendedOk(s: Sparse, r: Range)
    requires SparseOk(s)
    ensures SparseOk(Appended(s, r)) && Appended(s, r).ranges != []
  {
  }

  /** After pruning, every hint names a live object, and every live hint is kept. */
  lemma PrunedKeepsLive(s: Sparse, live: set<nat>)
    requires SparseOk(s)
    ensures forall r :: r in Pruned(s, live).ranges <==> r in s.ranges && r.objectId in live
    ensures (forall r | r in s.ranges :: r.objectId in live) ==> Pruned(s, live) == s
  {
    KeptMembers(s.ranges, Dead(s.ranges, live));
  }

  lemma SparedTrans(a: map<nat, Sparse>, b: map<nat, Sparse>, c: map<nat, Sparse>, least: nat)
    requires NoLonger(a, b) && NoLonger(b, c)
    ensures NoLonger(a, c) && (Spared(a, b, least) && Spared(b, c, least) ==> Spared(a, c, least))
  {
  }

  lemma ThinnerSelf(streams: map<nat, Sparse>)
    ensures AllThinner(streams, streams)
  {
  }

  /** A total above zero means some stream is indexed. */
  lemma SomeStream(streams: map<nat, Sparse>)
    ensures Count(streams) > 0 ==> streams.Keys != {}
  {
    if streams.Keys == {} {
      assert streams == map[];
    }
  }

  method Keys(keys: set<nat>) returns (ids: seq<nat>)
    ensures (forall i, j | 0 <= i < j < |ids| :: ids[i] != ids[j]) && forall id :: id in ids <==> id in keys
  {
    ids := [];
    var left := keys;
    while left != {}
      invariant left <= keys && (forall i, j | 0 <= i < j < |ids| :: ids[i] != ids[j])
      invariant forall id :: id in ids <==> id in keys && id !in left
      decreases |left|
    {
      var id :| id in left;
      ids := ids + [id];
      left := left - {id};
    }
  }
}
