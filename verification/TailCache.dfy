/** The tail cache and the two read paths: both return exactly the log's records, page after page. */
module TailCache {
  import opened Bytes
  import opened Framing

  type Message = seq<byte>

  datatype Record = Record(offset: nat, payload: Message)

  const TAIL_MAX_RECORDS: nat := 4096

  const TAIL_MAX_BYTES: nat := 4 * 1024 * 1024

  // ---- windows of the log ----

  /** Records `[first, first + n)` of the log. */
  function Window(log: seq<Message>, first: nat, n: nat): (w: seq<Record>)
    requires first + n <= |log|
    ensures |w| == n && forall i | 0 <= i < n :: w[i] == Record(first + i, log[first + i])
  {
    seq(n, i requires 0 <= i < n => Record(first + i, log[first + i]))
  }

  /** A contiguous stretch of the true log. */
  predicate IsWindow(log: seq<Message>, s: seq<Record>) {
    s == [] || (s[0].offset + |s| <= |log| && s == Window(log, s[0].offset, |s|))
  }

  function Size(s: seq<Record>): nat {
    if s == [] then 0 else |s[0].payload| + Size(s[1..])
  }

  lemma {:induction false} SizeAppend(s: seq<Record>, r: Record)
    ensures Size(s + [r]) == Size(s) + |r.payload|
  {
    if s == [] {
      assert s + [r] == [r] && [r][1..] == [];
    } else {
      assert (s + [r])[1..] == s[1..] + [r];
      SizeAppend(s[1..], r);
    }
  }

  predicate OverCap(s: seq<Record>) {
    |s| > TAIL_MAX_RECORDS || (Size(s) > TAIL_MAX_BYTES && |s| > 1)
  }

  /** Drop from the front until within both caps; a single oversized record stays. */
  function Trimmed(s: seq<Record>): (t: seq<Record>)
    ensures !OverCap(t) && |t| <= |s| && t == s[|s| - |t|..] && (s != [] ==> t != [])
  {
    if OverCap(s) then Trimmed(s[1..]) else s
  }

  /** Nothing more than needed is dropped: any longer suffix is over a cap. */
  lemma {:induction false} TrimmedLongest(s: seq<Record>, k: nat)
    requires k < |s| - |Trimmed(s)|
    ensures OverCap(s[k..])
  {
    if k == 0 {
      assert s[0..] == s;
    } else {
      assert s[k..] == s[1..][k - 1..];
      TrimmedLongest(s[1..], k - 1);
    }
  }

  /** The cached records once an append at `base` is known durable. */
  function Pushed(recent: seq<Record>, base: nat, records: seq<Message>): seq<Record> {
    if records == [] || (recent != [] && base < recent[|recent| - 1].offset + 1) then recent
    else
      var kept := if recent != [] && base > recent[|recent| - 1].offset + 1 then [] else recent;
      Trimmed(kept + Placed(base, records))
  }

  function Placed(base: nat, records: seq<Message>): (s: seq<Record>)
    ensures |s| == |records| && forall i | 0 <= i < |s| :: s[i] == Record(base + i, records[i])
  {
    seq(|records|, i requires 0 <= i < |records| => Record(base + i, records[i]))
  }

  lemma ExtendWindow(log: seq<Message>, s: seq<Record>, base: nat, records: seq<Message>)
    requires IsWindow(log, s) && InLog(log, base, records)
    requires records != [] && (s != [] ==> base == s[0].offset + |s|)
    ensures IsWindow(log, s + Placed(base, records))
  {
    var all := s + Placed(base, records);
    forall i | 0 <= i < |all| ensures all[i] == Record(all[0].offset + i, log[all[0].offset + i]) {
      if i >= |s| {
        assert log[base..base + |records|][i - |s|] == log[base + (i - |s|)];
      }
    }
    assert all == Window(log, all[0].offset, |all|);
  }

  lemma SuffixWindow(log: seq<Message>, s: seq<Record>, k: nat)
    requires IsWindow(log, s) && k < |s|
    ensures IsWindow(log, s[k..])
  {
    assert s[k..] == Window(log, s[0].offset + k, |s| - k);
  }

  /** Whatever order appends complete in, the cache stays a window of the log. */
  lemma PushedIsWindow(log: seq<Message>, recent: seq<Record>, base: nat, records: seq<Message>)
    requires IsWindow(log, recent) && InLog(log, base, records)
    ensures IsWindow(log, Pushed(recent, base, records))
  {
    if records != [] && (recent == [] || base > recent[|recent| - 1].offset) {
      var kept := if recent != [] && base > recent[|recent| - 1].offset + 1 then [] else recent;
      ExtendWindow(log, kept, base, records);
      TrimmedWindow(log, kept + Placed(base, records));
    }
  }

  lemma TrimmedWindow(log: seq<Message>, s: seq<Record>)
    requires IsWindow(log, s) && s != []
    ensures IsWindow(log, Trimmed(s))
  {
    SuffixWindow(log, s, |s| - |Trimmed(s)|);
  }

  /** An append past everything cached is cached, at least its last record. */
  lemma PushedReachesNewest(recent: seq<Record>, base: nat, records: seq<Message>)
    requires records != [] && (recent == [] || base > recent[|recent| - 1].offset)
    ensures
      var p := Pushed(recent, base, records);
      p != [] && p[|p| - 1] == Record(base + |records| - 1, records[|records| - 1])
  {
    var kept := if recent != [] && base > recent[|recent| - 1].offset + 1 then [] else recent;
    var all := kept + Placed(base, records);
    assert all[|all| - 1] == Record(base + |records| - 1, records[|records| - 1]);
  }

  /** The caps: 4096 records, and 4 MiB unless a single record exceeds it. */
  lemma CapsAre(s: seq<Record>)
    ensures !OverCap(s) <==> |s| <= 4096 && (Size(s) <= 4_194_304 || |s| <= 1)
  {
  }

  /** A late completion changes nothing; one that continues the window keeps all of it that fits; one that leaves a gap
      starts the window over. */
  lemma PushedKeeps(recent: seq<Record>, base: nat, records: seq<Message>)
    requires records != []
    ensures recent != [] && base <= recent[|recent| - 1].offset ==> Pushed(recent, base, records) == recent
    ensures (recent != [] && base == recent[|recent| - 1].offset + 1) && !OverCap(recent + Placed(base, records)) ==>
              Pushed(recent, base, records) == recent + Placed(base, records)
    ensures (recent == [] || base > recent[|recent| - 1].offset + 1) && !OverCap(Placed(base, records)) ==>
              Pushed(recent, base, records) == Placed(base, records)
  {
    assert [] + Placed(base, records) == Placed(base, records);
  }

  class Cache {
    var recent: seq<Record>
    var recentBytes: nat

    constructor ()
      ensures recent == [] && Exact()
    {
      recent, recentBytes := [], 0;
    }

    /** The byte count is exact and the caps hold. */
    predicate Exact()
      reads this
    {
      recentBytes == Size(recent) && !OverCap(recent)
    }

    method RecordAppend(base: nat, records: seq<Message>)
      requires Exact()
      modifies this
      ensures Exact() && recent == Pushed(old(recent), base, records)
    {
      if records == [] { return; }
      if recent != [] {
        var expected := recent[|recent| - 1].offset + 1;
        if base < expected { return; }
        if base > expected {
          recent, recentBytes := [], 0;
        }
      }
      PushAll(base, records);
      EvictFront();
    }

    method PushAll(base: nat, records: seq<Message>)
      requires recentBytes == Size(recent)
      modifies this
      ensures recentBytes == Size(recent)
      ensures recent == old(recent) + Placed(base, records)
    {
      var i := 0;
      while i < |records|
        invariant i <= |records| && recentBytes == Size(recent)
        invariant recent == old(recent) + Placed(base, records)[..i]
      {
        SizeAppend(recent, Record(base + i, records[i]));
        recent := recent + [Record(base + i, records[i])];
        recentBytes := recentBytes + |records[i]|;
        i := i + 1;
      }
    }

    method EvictFront()
      requires recentBytes == Size(recent)
      modifies this
      ensures Exact() && recent == Trimmed(old(recent))
    {
      while |recent| > TAIL_MAX_RECORDS || (recentBytes > TAIL_MAX_BYTES && |recent| > 1)
        invariant recentBytes == Size(recent) && Trimmed(recent) == Trimmed(old(recent))
        decreases |recent|
      {
        recentBytes := recentBytes - |recent[0].payload|;
        recent := recent[1..];
      }
    }

    /** The cached records from `start` on, when the window covers it. */
    method TailRecords(start: nat, ghost log: seq<Message>) returns (tail: Option<seq<Record>>)
      requires IsWindow(log, recent)
      ensures tail.Some? <==> recent != [] && recent[0].offset <= start < recent[0].offset + |recent|
      ensures tail.Some? ==> tail.value == Window(log, start, recent[0].offset + |recent| - start)
    {
      if recent == [] || start < recent[0].offset || start > recent[|recent| - 1].offset { return None; }
      var out, i, first := [], 0, recent[0].offset;
      while i < |recent|
        invariant i <= |recent|
        invariant out == if first + i <= start then [] else Window(log, start, first + i - start)
      {
        assert recent[i] == Record(first + i, log[first + i]);
        if recent[i].offset >= start {
          out := out + [recent[i]];
        }
        i := i + 1;
      }
      return Some(out);
    }
  }

  // ---- one page ----

  /** Payload bytes of the log's records `[lo, hi)`. */
  function Weight(log: seq<Message>, lo: nat, hi: nat): nat
    requires lo <= hi <= |log|
  {
    if lo == hi then 0 else Weight(log, lo, hi - 1) + |log[hi - 1]|
  }

  /** Where a page that has taken `n` records and `total` bytes, and stands at `i`, ends. */
  function PageEnd(
      log: seq<Message>, i: nat, stop: nat, total: nat, n: nat, maxBytes: nat, maxRecords: nat): (next: nat)
    requires i <= stop <= |log|
    ensures i <= next <= stop && (i < stop && total == 0 ==> next > i)
    decreases stop - i
  {
    if i == stop || (total + |log[i]| > maxBytes && total > 0) then i
    else if total + |log[i]| >= maxBytes || n + 1 >= maxRecords then i + 1
    else PageEnd(log, i + 1, stop, total + |log[i]|, n + 1, maxBytes, maxRecords)
  }

  /**
   * The page `[start, next)` is within the byte limit, or holds one record with bytes; it is within the record limit;
   * and it ends only at the end of the data, at a limit, or before a record that would exceed the byte limit.
   */
  predicate WithinLimits(log: seq<Message>, start: nat, next: nat, stop: nat, maxBytes: nat, maxRecords: nat)
    requires start <= next <= stop <= |log|
  {
    && (Weight(log, start, next) <= maxBytes || (next > start && Weight(log, start, next - 1) == 0))
    && next - start <= maxRecords
    && (next == stop || Weight(log, start, next) >= maxBytes || next - start == maxRecords
        || Weight(log, start, next) + |log[next]| > maxBytes)
  }

  lemma {:induction false} PageContinues(
      log: seq<Message>, start: nat, i: nat, stop: nat, maxBytes: nat, maxRecords: nat)
    requires start <= i <= stop <= |log| && maxRecords >= 1
    requires i > start ==> Weight(log, start, i) < maxBytes && i - start < maxRecords
    ensures WithinLimits(log, start, PageEnd(log, i, stop, Weight(log, start, i), i - start, maxBytes, maxRecords),
                         stop, maxBytes, maxRecords)
    decreases stop - i
  {
    if i < stop && !(Weight(log, start, i) + |log[i]| > maxBytes && Weight(log, start, i) > 0) {
      assert Weight(log, start, i + 1) == Weight(log, start, i) + |log[i]|;
      if Weight(log, start, i + 1) < maxBytes && i + 1 - start < maxRecords {
        PageContinues(log, start, i + 1, stop, maxBytes, maxRecords);
      }
    }
  }

  /** Every page respects the limits. */
  lemma PageWithinLimits(log: seq<Message>, start: nat, stop: nat, maxBytes: nat, maxRecords: nat)
    requires start <= stop <= |log| && maxRecords >= 1
    ensures WithinLimits(log, start, PageEnd(log, start, stop, 0, 0, maxBytes, maxRecords), stop, maxBytes, maxRecords)
  {
    PageContinues(log, start, start, stop, maxBytes, maxRecords);
  }

  /** A read answered from cached records. */
  method TailRead(
      cached: seq<Record>, end: nat, maxBytes: nat, maxRecords: nat, ghost log: seq<Message>, ghost start: nat)
      returns (records: seq<Record>, next: nat)
    requires cached != [] && start + |cached| <= |log| && cached == Window(log, start, |cached|) && start < end
    ensures
      var stop := if end < start + |cached| then end else start + |cached|;
      next == PageEnd(log, start, stop, 0, 0, maxBytes, maxRecords) && records == Window(log, start, next - start)
  {
    records, next := [], cached[0].offset;
    var total: nat, i: nat := 0, 0;
    ghost var stop := if end < start + |cached| then end else start + |cached|;
    while i < |cached|
      invariant 0 <= i <= |cached| && next == start + i <= stop && records == Window(log, start, i)
      invariant PageEnd(log, start, stop, 0, 0, maxBytes, maxRecords)
                == PageEnd(log, next, stop, total, i, maxBytes, maxRecords)
    {
      if cached[i].offset >= end { return; }
      var len := |cached[i].payload|;
      if total + len > maxBytes && total > 0 { return; }
      records := records + [cached[i]];
      total := total + len;
      next := cached[i].offset + 1;
      if total >= maxBytes || |records| >= maxRecords { return; }
      i := i + 1;
    }
  }

  // ---- stored batches ----

  /** One stored record batch: a single message, or several framed together. */
  datatype Batch = Batch(base: nat, count: nat, payload: seq<byte>)

  /** A framed payload that does not decode. */
  predicate Corrupt(b: Batch) {
    b.count > 1 && Unframed(b.payload, b.count).None?
  }

  /** The batch holds the log's messages at its own offsets, if it can be read at all. */
  predicate Stores(log: seq<Message>, b: Batch) {
    && b.count >= 1 && b.base + b.count <= |log|
    && (if b.count == 1 then b.payload == log[b.base]
        else Corrupt(b) || Unframed(b.payload, b.count) == Some(log[b.base..b.base + b.count]))
  }

  /** Consecutive batches from offset `at` on. */
  predicate Chained(log: seq<Message>, batches: seq<Batch>, at: nat) {
    batches == []
    || (var n := |batches| - 1;
        Chained(log, batches[..n], at) && batches[n].base == ChainEnd(batches[..n], at) && Stores(log, batches[n]))
  }

  function ChainEnd(batches: seq<Batch>, at: nat): nat {
    if batches == [] then at else ChainEnd(batches[..|batches| - 1], at) + batches[|batches| - 1].count
  }

  lemma {:induction false} ChainAt(log: seq<Message>, batches: seq<Batch>, at: nat, i: nat)
    requires Chained(log, batches, at) && i <= |batches|
    ensures Chained(log, batches[..i], at) && at + i <= ChainEnd(batches[..i], at) <= ChainEnd(batches, at)
    ensures i < |batches| ==> batches[i].base == ChainEnd(batches[..i], at) && Stores(log, batches[i])
    ensures i < |batches| ==> ChainEnd(batches[..i + 1], at) == ChainEnd(batches[..i], at) + batches[i].count
    ensures batches != [] ==> ChainEnd(batches, at) <= |log|
    decreases |batches|
  {
    if batches != [] {
      var n := |batches| - 1;
      if i <= n {
        ChainAt(log, batches[..n], at, i);
        assert batches[..n][..i] == batches[..i];
        assert i < n ==> batches[..n][..i + 1] == batches[..i + 1];
        assert i == n ==> batches[..i + 1] == batches;
      } else {
        ChainAt(log, batches[..n], at, n);
        assert batches[..i] == batches && batches[..n][..n] == batches[..n];
      }
    }
  }

  /** What an append hands to storage: one framed batch, or one batch per message. */
  method SubmitMessages(messages: seq<Message>, atomic: bool, next: nat, ghost log: seq<Message>)
      returns (batches: seq<Batch>)
    requires next == |log| && FrameFits(messages)
    ensures Chained(log + messages, batches, next) && ChainEnd(batches, next) == |log + messages|
    ensures forall b | b in batches :: !Corrupt(b)
    ensures atomic && messages != [] ==> |batches| == 1
  {
    if messages == [] { return []; }
    if atomic && |messages| > 1 {
      var framed := EncodeFrames(messages);
      batches := [Batch(next, |messages|, framed)];
      FramedStores(log, messages);
      SingleChain(log + messages, batches[0], next);
    } else {
      batches := SubmitEach(messages, next, log);
    }
  }

  lemma SingleChain(log: seq<Message>, b: Batch, at: nat)
    requires Stores(log, b) && b.base == at
    ensures Chained(log, [b], at) && ChainEnd([b], at) == at + b.count
  {
    var s := [b];
    assert s[..0] == [] && s[|s| - 1] == b;
    assert Chained(log, s[..0], at) && ChainEnd(s[..0], at) == at;
  }

  lemma FramedStores(log: seq<Message>, messages: seq<Message>)
    requires |messages| > 1 && FrameFits(messages)
    ensures
      var b := Batch(|log|, |messages|, Frames(messages));
      Stores(log + messages, b) && !Corrupt(b)
  {
    UnframedFrames(messages, []);
    assert Frames(messages) + [] == Frames(messages);
    assert Unframed(Frames(messages), |messages|) == Some(messages);
    var b, all := Batch(|log|, |messages|, Frames(messages)), log + messages;
    assert all[b.base..b.base + b.count] == messages;
    assert b.base + b.count == |all|;
  }

  method SubmitEach(messages: seq<Message>, next: nat, ghost log: seq<Message>) returns (batches: seq<Batch>)
    requires next == |log|
    ensures Chained(log + messages, batches, next) && ChainEnd(batches, next) == |log + messages|
    ensures |batches| == |messages| && forall b | b in batches :: b.count == 1
  {
    batches := [];
    var i := 0;
    while i < |messages|
      invariant 0 <= i <= |messages| && |batches| == i
      invariant Chained(log + messages, batches, next) && ChainEnd(batches, next) == next + i
      invariant forall b | b in batches :: b.count == 1
    {
      var more := batches + [Batch(next + i, 1, messages[i])];
      assert more[..i] == batches && (log + messages)[next + i] == messages[i];
      batches := more;
      i := i + 1;
    }
  }

  // ---- a read answered from storage ----

  /** A page in the making: its records and bytes, where it stands, and whether it is complete. */
  datatype Progress = Progress(records: seq<Record>, total: nat, next: nat, full: bool)

  /** `p` continues the page that stood at `at` with `total` bytes, and reached `reach` unless it is full. */
  ghost predicate Continues(log: seq<Message>, start: nat, at: nat, total: nat, reach: nat, stop: nat,
                            maxBytes: nat, maxRecords: nat, p: Progress)
    requires start <= at <= stop <= |log|
  {
    && start <= p.next <= stop && p.records == Window(log, start, p.next - start)
    && (p.full ==> p.next == PageEnd(log, at, stop, total, at - start, maxBytes, maxRecords))
    && (!p.full ==> p.next == reach
                    && PageEnd(log, p.next, stop, p.total, p.next - start, maxBytes, maxRecords)
                       == PageEnd(log, at, stop, total, at - start, maxBytes, maxRecords))
  }

  lemma ContinuesOn(
      log: seq<Message>, start: nat, at: nat, total: nat, p: Progress, reach: nat, further: nat, stop: nat,
      maxBytes: nat, maxRecords: nat, q: Progress)
    requires start <= at <= stop <= |log| && !p.full && start <= p.next <= stop
    requires Continues(log, start, at, total, reach, stop, maxBytes, maxRecords, p)
    requires Continues(log, start, p.next, p.total, further, stop, maxBytes, maxRecords, q)
    ensures Continues(log, start, at, total, further, stop, maxBytes, maxRecords, q)
  {
  }

  /** Takes one record, unless it would push a page that already has bytes past the limit. */
  method TakeRecord(p: Progress, payload: Message, maxBytes: nat, maxRecords: nat,
                    ghost log: seq<Message>, ghost start: nat, ghost stop: nat) returns (q: Progress)
    requires start <= p.next < stop <= |log| && payload == log[p.next]
    requires p.records == Window(log, start, p.next - start)
    ensures Continues(log, start, p.next, p.total, p.next + 1, stop, maxBytes, maxRecords, q)
  {
    if p.total + |payload| > maxBytes && p.total > 0 { return p.(full := true); }
    var total, records := p.total + |payload|, p.records + [Record(p.next, payload)];
    return Progress(records, total, p.next + 1, total >= maxBytes || |records| >= maxRecords);
  }

  /** Takes frames of one batch, skipping those before `start`. */
  method TakeFrames(frames: seq<Message>, base: nat, p: Progress, maxBytes: nat, maxRecords: nat,
                    ghost log: seq<Message>, ghost start: nat, ghost stop: nat) returns (q: Progress)
    requires base + |frames| <= stop <= |log| && frames == log[base..base + |frames|]
    requires start <= p.next <= stop && p.records == Window(log, start, p.next - start) && !p.full
    requires base <= p.next < base + |frames|
    ensures Continues(log, start, p.next, p.total, base + |frames|, stop, maxBytes, maxRecords, q)
  {
    q := p;
    var i: nat := 0;
    while i < |frames| && !q.full
      invariant i <= |frames|
      invariant Continues(log, start, p.next, p.total, Max(p.next, base + i), stop, maxBytes, maxRecords, q)
    {
      if base + i >= p.next {
        var taken := TakeRecord(q, frames[i], maxBytes, maxRecords, log, start, stop);
        ContinuesOn(log, start, p.next, p.total, q, base + i, base + i + 1, stop, maxBytes, maxRecords, taken);
        q := taken;
      }
      i := i + 1;
    }
  }

  /** Takes one stored batch, decoding its frames when it holds several records. */
  method TakeBatch(b: Batch, p: Progress, maxBytes: nat, maxRecords: nat,
                   ghost log: seq<Message>, ghost start: nat, ghost stop: nat) returns (q: Option<Progress>)
    requires Stores(log, b) && b.base + b.count <= stop <= |log|
    requires start <= p.next <= stop && p.records == Window(log, start, p.next - start) && !p.full
    requires b.base <= p.next < b.base + b.count
    ensures q.None? ==> Corrupt(b)
    ensures q.Some? ==> Continues(log, start, p.next, p.total, b.base + b.count, stop, maxBytes, maxRecords, q.value)
  {
    var taken;
    if b.count > 1 {
      var frames := DecodeFrames(b.payload, b.count);
      if frames.None? { return None; }
      taken := TakeFrames(frames.value, b.base, p, maxBytes, maxRecords, log, start, stop);
    } else {
      taken := TakeRecord(p, b.payload, maxBytes, maxRecords, log, start, stop);
    }
    return Some(taken);
  }

  /**
   * A read answered from fetched batches, of which the first holds `start`: the same page the log itself determines,
   * or no page when a batch it needed is corrupt.
   */
  method FetchRecords(batches: seq<Batch>, start: nat, maxBytes: nat, maxRecords: nat, ghost log: seq<Message>)
      returns (page: Option<(seq<Record>, nat)>)
    requires start <= |log|
    requires batches != [] ==> batches[0].base <= start < batches[0].base + batches[0].count
    requires batches != [] ==> Chained(log, batches, batches[0].base)
    ensures page.None? ==> exists b :: b in batches && Corrupt(b)
    ensures page.Some? ==> start <= page.value.1 <= |log| && page.value.0 == Window(log, start, page.value.1 - start)
    ensures page.Some? && batches == [] ==> page.value.1 == start
    ensures page.Some? && batches != [] ==>
              start < ChainEnd(batches, batches[0].base) <= |log|
              && page.value.1 == PageEnd(log, start, ChainEnd(batches, batches[0].base), 0, 0, maxBytes, maxRecords)
  {
    if batches == [] { return Some(([], start)); }
    ghost var at, reach := batches[0].base, start;
    ghost var stop := ChainEnd(batches, at);
    var p, i: nat := Progress([], 0, start, false), 0;
    ChainBegins(log, batches, start);
    while i < |batches| && !p.full
      invariant i <= |batches| && start < stop <= |log|
      invariant reach == (if i == 0 then start else ChainEnd(batches[..i], at))
      invariant Continues(log, start, start, 0, reach, stop, maxBytes, maxRecords, p)
    {
      ChainFollows(log, batches, start, i, reach);
      var taken := TakeBatch(batches[i], p, maxBytes, maxRecords, log, start, stop);
      if taken.None? { return None; }
      ghost var further := batches[i].base + batches[i].count;
      ContinuesOn(log, start, start, 0, p, reach, further, stop, maxBytes, maxRecords, taken.value);
      p, i, reach := taken.value, i + 1, further;
    }
    if !p.full {
      assert batches[..i] == batches;
    }
    return Some((p.records, p.next));
  }

  lemma ChainBegins(log: seq<Message>, batches: seq<Batch>, start: nat)
    requires batches != [] && Chained(log, batches, batches[0].base)
    requires batches[0].base <= start < batches[0].base + batches[0].count
    ensures start < ChainEnd(batches, batches[0].base) <= |log|
  {
    ChainAt(log, batches, batches[0].base, 0);
    ChainAt(log, batches, batches[0].base, 1);
    assert batches[..0] == [];
  }

  /** The next batch continues exactly where the page stands. */
  lemma ChainFollows(log: seq<Message>, batches: seq<Batch>, start: nat, i: nat, reach: nat)
    requires batches != [] && Chained(log, batches, batches[0].base) && i < |batches|
    requires batches[0].base <= start < batches[0].base + batches[0].count
    requires reach == if i == 0 then start else ChainEnd(batches[..i], batches[0].base)
    ensures Stores(log, batches[i]) && batches[i].base <= reach < batches[i].base + batches[i].count
    ensures start <= reach && (reach > start ==> batches[i].base == reach)
    ensures batches[i].base + batches[i].count == ChainEnd(batches[..i + 1], batches[0].base)
    ensures batches[i].base + batches[i].count <= ChainEnd(batches, batches[0].base)
  {
    ChainAt(log, batches, batches[0].base, i);
    ChainAt(log, batches, batches[0].base, i + 1);
    ChainAt(log, batches, batches[0].base, 1);
    if i > 0 {
      ChainAt(log, batches[..i], batches[0].base, 1);
      assert batches[..i][..1] == batches[..1];
    }
  }

  // ---- paging ----

  /**
   * Reading page after page, each page starting where the last one ended and covering whatever its source covered:
   * the records are the log's, none lost and none repeated.
   */
  function Pages(log: seq<Message>, start: nat, end: nat, covers: nat -> nat, maxBytes: nat, maxRecords: nat)
      : (all: seq<Record>)
    requires start <= end <= |log| && forall x | start <= x < end :: x < covers(x) <= end
    ensures all == Window(log, start, end - start)
    decreases end - start
  {
    if start == end then []
    else
      var next := PageEnd(log, start, covers(start), 0, 0, maxBytes, maxRecords);
      Window(log, start, next - start) + Pages(log, next, end, covers, maxBytes, maxRecords)
  }

  /** The messages an append wrote are in the log where it says. */
  predicate InLog(log: seq<Message>, base: nat, records: seq<Message>) {
    base + |records| <= |log| && log[base..base + |records|] == records
  }

  /** A completed append, or the reset that follows a failed one. */
  datatype CacheEvent = Completed(base: nat, records: seq<Message>) | Reset

  /** The cache after any number of completed and failed appends, in the order they completed. */
  function CacheRun(events: seq<CacheEvent>): seq<Record> {
    if events == [] || events[|events| - 1].Reset? then []
    else Pushed(CacheRun(events[..|events| - 1]), events[|events| - 1].base, events[|events| - 1].records)
  }

  /** For every completion order, with failures anywhere, the cache is a window of the log within its caps. */
  lemma {:induction false} CacheAgreesWithLog(log: seq<Message>, events: seq<CacheEvent>)
    requires forall i | 0 <= i < |events| && events[i].Completed? :: InLog(log, events[i].base, events[i].records)
    ensures IsWindow(log, CacheRun(events)) && !OverCap(CacheRun(events))
  {
    if events == [] || events[|events| - 1].Reset? {
      assert Size([]) == 0;
    } else {
      var n := |events| - 1;
      CacheAgreesWithLog(log, events[..n]);
      PushedIsWindow(log, CacheRun(events[..n]), events[n].base, events[n].records);
      PushedWithinCaps(CacheRun(events[..n]), events[n].base, events[n].records);
    }
  }

  lemma PushedWithinCaps(recent: seq<Record>, base: nat, records: seq<Message>)
    requires !OverCap(recent)
    ensures !OverCap(Pushed(recent, base, records))
  {
  }
}
