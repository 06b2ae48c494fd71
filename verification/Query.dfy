/** The fetch path's object query: a bounded merge of two offset-sorted indexes. */
module Query {
  import opened Bytes
  import opened Metadata
  import opened Order
  import opened Apply
  import opened Indexes
  import opened Coverage

  /** One answer of the query; stream-set objects come before stream objects with the same start. */
  datatype Entry = Entry(start: nat, single: bool, objectId: nat)

  predicate EntryLess(a: Entry, b: Entry) {
    a.start < b.start
    || (a.start == b.start && ((!a.single && b.single) || (a.single == b.single && a.objectId < b.objectId)))
  }

  lemma EntryLessIsTotal()
    ensures StrictTotal(EntryLess)
  {
  }

  predicate Overlaps(rangeStart: nat, rangeEnd: nat, start: nat, end: nat) {
    rangeEnd > start && rangeStart < end
  }

  function EntryKey(e: Entry, streamId: nat): OffsetKey {
    OffsetKey(streamId, e.start, e.objectId)
  }

  /** The entry exists in its index and its range overlaps the request. */
  predicate Matches(s: MetadataState, streamId: nat, start: nat, end: nat, e: Entry) {
    var k := EntryKey(e, streamId);
    if e.single then k in s.objects.rows && Overlaps(e.start, EndOf(s.objects.rows[k]), start, end)
    else k in s.sets.ranges && Overlaps(e.start, s.sets.ranges[k], start, end)
  }

  ghost function Overlapping(s: MetadataState, streamId: nat, start: nat, end: nat): (r: set<Entry>)
    ensures forall e :: e in r <==> Matches(s, streamId, start, end, e)
  {
    var a := set k | k in s.sets.ranges && k.streamId == streamId :: Entry(k.start, false, k.objectId);
    var b := set k | k in s.objects.rows && k.streamId == streamId :: Entry(k.start, true, k.objectId);
    var r := set e | e in a + b && Matches(s, streamId, start, end, e);
    forall e | Matches(s, streamId, start, end, e) ensures e in r {
      assert e == Entry(EntryKey(e, streamId).start, e.single, EntryKey(e, streamId).objectId);
      assert if e.single then e in b else e in a;
    }
    r
  }

  /** Filter the overlapping entries, sort them, keep the first `limit`. */
  ghost function Answer(s: MetadataState, streamId: nat, start: nat, end: nat, limit: nat): seq<Entry> {
    EntryLessIsTotal();
    var all := Ascending(Overlapping(s, streamId, start, end), EntryLess);
    if |all| <= limit then all else all[..limit]
  }

  predicate Present(s: MetadataState, streamId: nat, e: Entry) {
    if e.single then EntryKey(e, streamId) in s.objects.rows else e.objectId in s.sets.rows
  }

  function Lookup(s: MetadataState, streamId: nat, e: Entry): ObjectMeta
    requires Present(s, streamId, e)
  {
    if e.single then s.objects.rows[EntryKey(e, streamId)] else s.sets.rows[e.objectId].meta
  }

  /** Keys of one stream whose range starts before `end`: the bounded prefix of the scan. */
  function Prefix(keys: seq<OffsetKey>, end: nat): seq<OffsetKey> {
    if keys == [] || keys[0].start >= end then [] else [keys[0]] + Prefix(keys[1..], end)
  }

  function Filter(keys: seq<OffsetKey>, keep: OffsetKey -> bool): seq<OffsetKey> {
    if keys == [] then []
    else (if keep(keys[0]) then [keys[0]] else []) + Filter(keys[1..], keep)
  }

  lemma {:induction false} PrefixKeys(keys: seq<OffsetKey>, end: nat, streamId: nat)
    requires Ascends(KeyLess, keys) && forall k :: k in keys ==> k.streamId == streamId
    ensures Ascends(KeyLess, Prefix(keys, end))
    ensures forall k :: k in Prefix(keys, end) <==> k in keys && k.start < end
    decreases |keys|
  {
    if keys != [] {
      assert keys[0] in keys;
      forall k | k in keys[1..] ensures KeyLess(keys[0], k) && k in keys {
        var i :| 0 <= i < |keys[1..]| && keys[1..][i] == k;
        assert k == keys[i + 1];
      }
      if keys[0].start < end {
        PrefixKeys(keys[1..], end, streamId);
        assert keys == [keys[0]] + keys[1..];
      } else {
        forall k | k in keys ensures k.start >= end {
          assert k == keys[0] || k in keys[1..];
        }
      }
    }
  }

  lemma {:induction false} FilterKeys(keys: seq<OffsetKey>, keep: OffsetKey -> bool)
    requires Ascends(KeyLess, keys)
    ensures Ascends(KeyLess, Filter(keys, keep))
    ensures forall k :: k in Filter(keys, keep) <==> k in keys && keep(k)
    decreases |keys|
  {
    if keys != [] {
      FilterKeys(keys[1..], keep);
      assert keys == [keys[0]] + keys[1..];
      forall k | k in keys[1..] ensures KeyLess(keys[0], k) {
        var i :| 0 <= i < |keys[1..]| && keys[1..][i] == k;
        assert k == keys[i + 1];
      }
    }
  }

  function SetCandidates(s: MetadataState, streamId: nat, start: nat, end: nat): seq<OffsetKey> {
    var keys := AscendingKeys(set k | k in s.sets.ranges && k.streamId == streamId);
    Filter(Prefix(keys, end), (k: OffsetKey) => k in s.sets.ranges && Overlaps(k.start, s.sets.ranges[k], start, end))
  }

  function ObjectCandidates(s: MetadataState, streamId: nat, start: nat, end: nat): seq<OffsetKey> {
    var keys := AscendingKeys(KeysOfStream(s.objects, streamId));
    Filter(Prefix(keys, end), (k: OffsetKey) =>
             k in s.objects.rows && Overlaps(k.start, EndOf(s.objects.rows[k]), start, end))
  }

  /** `keys` lists, in ascending order, exactly the matching entries of one kind. */
  ghost predicate Lists(s: MetadataState, streamId: nat, start: nat, end: nat, single: bool, keys: seq<OffsetKey>) {
    && Ascends(KeyLess, keys)
    && (forall k :: k in keys ==> k.streamId == streamId)
    && (forall e: Entry :: e.single == single ==>
        (EntryKey(e, streamId) in keys <==> Matches(s, streamId, start, end, e)))
  }

  lemma CandidatesList(s: MetadataState, streamId: nat, start: nat, end: nat)
    ensures Lists(s, streamId, start, end, false, SetCandidates(s, streamId, start, end))
    ensures Lists(s, streamId, start, end, true, ObjectCandidates(s, streamId, start, end))
  {
    var a := AscendingKeys(set k | k in s.sets.ranges && k.streamId == streamId);
    PrefixKeys(a, end, streamId);
    FilterKeys(Prefix(a, end), (k: OffsetKey) => k in s.sets.ranges && Overlaps(k.start, s.sets.ranges[k], start, end));
    var b := AscendingKeys(KeysOfStream(s.objects, streamId));
    PrefixKeys(b, end, streamId);
    FilterKeys(Prefix(b, end), (k: OffsetKey) =>
                 k in s.objects.rows && Overlaps(k.start, EndOf(s.objects.rows[k]), start, end));
  }

  function EntryOf(k: OffsetKey, single: bool): Entry {
    Entry(k.start, single, k.objectId)
  }

  /** `out` holds exactly the entries of the consumed parts of both lists. */
  ghost predicate Consumed(streamId: nat, a: seq<OffsetKey>, b: seq<OffsetKey>, out: seq<Entry>) {
    forall e: Entry :: e in out <==> (if e.single then EntryKey(e, streamId) in b else EntryKey(e, streamId) in a)
  }

  /** Everything in `out` sorts before everything still in the list. */
  ghost predicate Before(out: seq<Entry>, keys: seq<OffsetKey>, single: bool) {
    forall e, k :: e in out && k in keys ==> EntryLess(e, EntryOf(k, single))
  }

  /** Taking the head of one list, when it sorts before the head of the other, keeps the merge in order. */
  lemma MergeStep(streamId: nat, a: seq<OffsetKey>, b: seq<OffsetKey>, i: nat, j: nat, out: seq<Entry>, single: bool)
    requires Ascends(KeyLess, a) && Ascends(KeyLess, b) && i <= |a| && j <= |b|
    requires forall k :: k in a || k in b ==> k.streamId == streamId
    requires Ascends(EntryLess, out) && Consumed(streamId, a[..i], b[..j], out)
    requires Before(out, a[i..], false) && Before(out, b[j..], true)
    requires if single then j < |b| && (i < |a| ==> b[j].start < a[i].start)
             else i < |a| && (j < |b| ==> a[i].start <= b[j].start)
    ensures
      var next := out + [EntryOf(if single then b[j] else a[i], single)];
      var i', j' := if single then i else i + 1, if single then j + 1 else j;
      && Ascends(EntryLess, next) && Consumed(streamId, a[..i'], b[..j'], next)
      && Before(next, a[i'..], false) && Before(next, b[j'..], true)
  {
    var k := if single then b[j] else a[i];
    var e := EntryOf(k, single);
    var next := out + [e];
    var i', j' := if single then i else i + 1, if single then j + 1 else j;
    assert k in (if single then b[j..] else a[i..]);
    assert k in a || k in b;
    assert EntryKey(e, streamId) == k;
    assert single ==> b[..j'] == b[..j] + [k];
    assert !single ==> a[..i'] == a[..i] + [k];
    forall x | x in a[i'..] ensures EntryLess(e, EntryOf(x, false)) && x in a[i..] {
      var m :| i' <= m < |a| && a[m] == x;
      assert a[i..][m - i] == x;
      assert a[m] in a && a[i] in a;
      assert i == m || KeyLess(a[i], a[m]);
    }
    forall x | x in b[j'..] ensures EntryLess(e, EntryOf(x, true)) && x in b[j..] {
      var m :| j' <= m < |b| && b[m] == x;
      assert b[j..][m - j] == x;
      assert b[m] in b && b[j] in b;
      assert j == m || KeyLess(b[j], b[m]);
    }
    forall x: Entry
      ensures x in next <==> (if x.single then EntryKey(x, streamId) in b[..j'] else EntryKey(x, streamId) in a[..i'])
    {
      assert EntryKey(x, streamId) == k && x.single == single ==> x == e;
    }
  }

  lemma MatchPresent(s: MetadataState, streamId: nat, start: nat, end: nat, e: Entry)
    requires Inv(s) && Matches(s, streamId, start, end, e)
    ensures Present(s, streamId, e)
  {
    if !e.single {
      assert IndexedEnd(s.sets.rows, EntryKey(e, streamId)).Some?;
    }
  }

  /** A merge stopped at the limit, or at the end of both lists, is the specified answer. */
  lemma MergeIsAnswer(s: MetadataState, streamId: nat, start: nat, end: nat, limit: nat,
                      a: seq<OffsetKey>, b: seq<OffsetKey>, i: nat, j: nat, out: seq<Entry>)
    requires Lists(s, streamId, start, end, false, a) && Lists(s, streamId, start, end, true, b)
    requires i <= |a| && j <= |b| && |out| <= limit && (|out| == limit || (i == |a| && j == |b|))
    requires Ascends(EntryLess, out) && Consumed(streamId, a[..i], b[..j], out)
    requires Before(out, a[i..], false) && Before(out, b[j..], true)
    ensures out == Answer(s, streamId, start, end, limit)
  {
    EntryLessIsTotal();
    var all := Overlapping(s, streamId, start, end);
    assert a == a[..i] + a[i..] && b == b[..j] + b[j..];
    forall e | e in out ensures e in all {
      assert EntryKey(e, streamId) in (if e.single then b else a);
    }
    forall e, x | e in out && x in all && x !in out ensures EntryLess(e, x) {
      var k := EntryKey(x, streamId);
      assert k in (if x.single then b else a);
      assert k in (if x.single then b[j..] else a[i..]);
      assert x == EntryOf(k, x.single);
    }
    AscendingPrefix(all, EntryLess, out);
    if i == |a| && j == |b| {
      assert a[..i] == a && b[..j] == b;
      forall x | x in all ensures x in out {
        assert EntryKey(x, streamId) in (if x.single then b else a);
      }
      AscendingUnique(EntryLess, out, Ascending(all, EntryLess));
    }
  }

  ghost predicate Merged(streamId: nat, a: seq<OffsetKey>, b: seq<OffsetKey>, i: nat, j: nat, out: seq<Entry>)
    requires i <= |a| && j <= |b|
  {
    && Ascends(EntryLess, out) && Consumed(streamId, a[..i], b[..j], out)
    && Before(out, a[i..], false) && Before(out, b[j..], true)
  }

  /** Merges two sorted key lists into the objects they name, stopping at the limit. */
  method MergeLists(s: MetadataState, streamId: nat, a: seq<OffsetKey>, b: seq<OffsetKey>, limit: nat)
    returns (result: seq<ObjectMeta>, ghost out: seq<Entry>, ghost i: nat, ghost j: nat)
    requires Ascends(KeyLess, a) && Ascends(KeyLess, b)
    requires forall k :: k in a || k in b ==> k.streamId == streamId
    requires forall k :: k in a ==> k.objectId in s.sets.rows
    requires forall k :: k in b ==> k in s.objects.rows
    ensures i <= |a| && j <= |b| && |result| == |out| <= limit
    ensures |out| == limit || (i == |a| && j == |b|)
    ensures Merged(streamId, a, b, i, j, out)
    ensures forall n :: 0 <= n < |out| ==> Present(s, streamId, out[n]) && result[n] == Lookup(s, streamId, out[n])
  {
    out, result := [], [];
    var x, y := 0, 0;
    while |result| < limit && (x < |a| || y < |b|)
      invariant x <= |a| && y <= |b| && |result| == |out| <= limit
      invariant Merged(streamId, a, b, x, y, out)
      invariant forall n :: 0 <= n < |out| ==> Present(s, streamId, out[n]) && result[n] == Lookup(s, streamId, out[n])
      decreases |a| - x + |b| - y
    {
      if x < |a| && !(y < |b| && b[y].start < a[x].start) {
        assert a[x] in a;
        MergeStep(streamId, a, b, x, y, out, false);
        out := out + [EntryOf(a[x], false)];
        result := result + [s.sets.rows[a[x].objectId].meta];
        x := x + 1;
      } else {
        assert b[y] in b;
        MergeStep(streamId, a, b, x, y, out, true);
        out := out + [EntryOf(b[y], true)];
        result := result + [s.objects.rows[b[y]]];
        y := y + 1;
      }
    }
    i, j := x, y;
  }

  /** Every key the scans produce names a stored object. */
  lemma CandidatesPresent(s: MetadataState, streamId: nat, start: nat, end: nat)
    requires Inv(s)
    ensures forall k :: k in SetCandidates(s, streamId, start, end) ==> k.objectId in s.sets.rows
    ensures forall k :: k in ObjectCandidates(s, streamId, start, end) ==> k in s.objects.rows
  {
    CandidatesList(s, streamId, start, end);
    forall k | k in SetCandidates(s, streamId, start, end) ensures k.objectId in s.sets.rows {
      assert EntryKey(EntryOf(k, false), streamId) == k;
      MatchPresent(s, streamId, start, end, EntryOf(k, false));
    }
    forall k | k in ObjectCandidates(s, streamId, start, end) ensures k in s.objects.rows {
      assert EntryKey(EntryOf(k, true), streamId) == k;
      MatchPresent(s, streamId, start, end, EntryOf(k, true));
    }
  }

  /** The object is in the state as it stands. */
  predicate Committed(s: MetadataState, meta: ObjectMeta) {
    || (meta.objectId in s.sets.rows && s.sets.rows[meta.objectId].meta == meta)
    || (meta.objectId in s.objects.ids && s.objects.ids[meta.objectId] in s.objects.rows
        && s.objects.rows[s.objects.ids[meta.objectId]] == meta)
  }

  lemma LookupCommitted(s: MetadataState, streamId: nat, e: Entry)
    requires Inv(s) && Present(s, streamId, e)
    ensures
      var meta := Lookup(s, streamId, e);
      Committed(s, meta) && meta.objectId == e.objectId && (meta.objectType.SingleStream? <==> e.single)
  {
    if e.single {
      assert KeyMatches(EntryKey(e, streamId), s.objects.rows[EntryKey(e, streamId)]);
    }
  }

  /** Objects of the stream overlapping `[start, end)`, sorted by range start with stream-set objects first,
      at most `limit` of them. No index lookup misses. */
  method GetObjects(s: MetadataState, streamId: nat, start: nat, end: nat, limit: nat) returns (result: seq<ObjectMeta>)
    requires Inv(s)
    ensures |result| == |Answer(s, streamId, start, end, limit)|
    ensures forall n :: 0 <= n < |result| ==>
              var e := Answer(s, streamId, start, end, limit)[n];
              && Present(s, streamId, e) && result[n] == Lookup(s, streamId, e)
              && result[n].objectId == e.objectId && (result[n].objectType.SingleStream? <==> e.single)
    ensures forall meta | meta in result :: Committed(s, meta)
  {
    var a := SetCandidates(s, streamId, start, end);
    var b := ObjectCandidates(s, streamId, start, end);
    CandidatesList(s, streamId, start, end);
    CandidatesPresent(s, streamId, start, end);
    ghost var out, i, j;
    result, out, i, j := MergeLists(s, streamId, a, b, limit);
    MergeIsAnswer(s, streamId, start, end, limit, a, b, i, j, out);
    forall n | 0 <= n < |result|
      ensures Committed(s, result[n]) && result[n].objectId == out[n].objectId
      ensures result[n].objectType.SingleStream? <==> out[n].single
    {
      LookupCommitted(s, streamId, out[n]);
    }
  }

  predicate HoldsOffset(meta: ObjectMeta, streamId: nat, o: nat) {
    exists r | r in meta.ranges :: r.streamId == streamId && r.startOffset <= o < r.endOffset
  }

  lemma {:induction false} LastEndRange(ranges: seq<OffsetRange>, streamId: nat, start: nat)
    requires LastEnd(ranges, streamId, start).Some?
    ensures OffsetRange(streamId, start, LastEnd(ranges, streamId, start).value) in ranges
  {
    var n := |ranges| - 1;
    assert ranges[n] in ranges;
    if !(ranges[n].streamId == streamId && ranges[n].startOffset == start) {
      LastEndRange(ranges[..n], streamId, start);
      assert ranges == ranges[..n] + [ranges[n]];
    }
  }

  /** When the limit is not hit, the answer holds every live offset of the requested range. */
  lemma AnswerCoversLiveRange(s: MetadataState, streamId: nat, start: nat, end: nat, limit: nat, o: nat)
    requires Inv(s) && LiveCovered(s) && |Overlapping(s, streamId, start, end)| <= limit
    requires start <= o < end && Live(s.streams.rows, streamId, o)
    ensures exists e :: e in Answer(s, streamId, start, end, limit) && Present(s, streamId, e)
                        && HoldsOffset(Lookup(s, streamId, e), streamId, o)
  {
    EntryLessIsTotal();
    var k: OffsetKey :| k.streamId == streamId && (SetHolds(s.sets, k, o) || ObjectHolds(s.objects, k, o));
    var e := EntryOf(k, !SetHolds(s.sets, k, o));
    assert EntryKey(e, streamId) == k;
    assert e in Overlapping(s, streamId, start, end);
    assert e in Answer(s, streamId, start, end, limit);
    MatchPresent(s, streamId, start, end, e);
    if e.single {
      var r := s.objects.rows[k].ranges[0];
      assert r in Lookup(s, streamId, e).ranges;
    } else {
      assert IndexedEnd(s.sets.rows, k) == Some(s.sets.ranges[k]);
      LastEndRange(s.sets.rows[k.objectId].meta.ranges, k.streamId, k.start);
    }
  }

  // ---- what the answer is, offset by offset ----

  /** The range an entry stands for. */
  function RangeEnd(s: MetadataState, streamId: nat, e: Entry): Option<nat> {
    var k := EntryKey(e, streamId);
    if e.single then (if k in s.objects.rows then Some(EndOf(s.objects.rows[k])) else None)
    else if k in s.sets.ranges then Some(s.sets.ranges[k]) else None
  }

  ghost predicate SharesOffset(lo: nat, hi: nat, start: nat, end: nat) {
    exists o: nat :: Within(lo, hi, o) && Within(start, end, o)
  }

  predicate Within(lo: nat, hi: nat, o: nat) {
    lo <= o < hi
  }

  /** Below the limit, an indexed non-empty range is in the answer to a non-empty request if and only if the two share
      an offset. */
  lemma AnswerIffShares(s: MetadataState, streamId: nat, start: nat, end: nat, limit: nat, e: Entry)
    requires |Overlapping(s, streamId, start, end)| <= limit && start < end
    requires RangeEnd(s, streamId, e).Some? && e.start < RangeEnd(s, streamId, e).value
    ensures e in Answer(s, streamId, start, end, limit) <==>
            SharesOffset(e.start, RangeEnd(s, streamId, e).value, start, end)
  {
    EntryLessIsTotal();
    var hi := RangeEnd(s, streamId, e).value;
    if Overlaps(e.start, hi, start, end) {
      var o := if e.start < start then start else e.start;
      assert Within(e.start, hi, o) && Within(start, end, o);
    }
    assert e in Answer(s, streamId, start, end, limit) <==> Matches(s, streamId, start, end, e);
  }

  /** Answers come by ascending start; of equal starts, stream-set objects first, then the lower object id. */
  lemma AnswerOrder(s: MetadataState, streamId: nat, start: nat, end: nat, limit: nat, i: nat, j: nat)
    requires i < j < |Answer(s, streamId, start, end, limit)|
    ensures
      var a, b := Answer(s, streamId, start, end, limit)[i], Answer(s, streamId, start, end, limit)[j];
      && a.start <= b.start
      && (a.start == b.start ==> (!a.single && b.single) || (a.single == b.single && a.objectId < b.objectId))
  {
    EntryLessIsTotal();
    var all := Ascending(Overlapping(s, streamId, start, end), EntryLess);
    assert EntryLess(all[i], all[j]);
  }

  /** What the limit cuts off starts no earlier than anything answered, and the answer is then full. */
  lemma AnswerIsFirst(s: MetadataState, streamId: nat, start: nat, end: nat, limit: nat, x: Entry)
    requires Matches(s, streamId, start, end, x) && x !in Answer(s, streamId, start, end, limit)
    ensures |Answer(s, streamId, start, end, limit)| == limit
    ensures forall e | e in Answer(s, streamId, start, end, limit) :: e.start <= x.start
  {
    EntryLessIsTotal();
    var all := Ascending(Overlapping(s, streamId, start, end), EntryLess);
    assert x in all;
    var j :| 0 <= j < |all| && all[j] == x;
    assert limit <= j;
    forall e | e in all[..limit] ensures e.start <= x.start {
      var i :| 0 <= i < limit && all[i] == e;
      assert EntryLess(all[i], all[j]);
    }
  }
}
