/** The shared log table: compare-and-insert by index, one snapshot row, prefix truncation. */
module LogStore {
  import opened Bytes
  import opened Order

  type Row = (nat, seq<byte>)

  datatype Store = Store(log: map<nat, seq<byte>>, snapshot: Option<Row>)

  const EMPTY_STORE := Store(map[], None)

  predicate Before(a: nat, b: nat) { a < b }

  function SnapshotIdx(s: Store): nat {
    if s.snapshot.Some? then s.snapshot.value.0 else 0
  }

  function Insert(s: Store, idx: nat, payload: seq<byte>): Store {
    s.(log := s.log[idx := payload])
  }

  /** A snapshot row is replaced only by a strictly newer one. */
  function SaveSnapshot(s: Store, idx: nat, payload: seq<byte>): Store {
    if s.snapshot.Some? && idx <= s.snapshot.value.0 then s else s.(snapshot := Some((idx, payload)))
  }

  function Truncated(s: Store, upTo: nat): Store {
    s.(log := map i | i in s.log && i > upTo :: s.log[i])
  }

  function IdsAfter(s: Store, after: nat): set<nat> {
    set i | i in s.log && i > after
  }

  function Lowest(ids: set<nat>): (k: nat)
    requires ids != {}
    ensures k in ids && forall i | i in ids :: k <= i
  {
    assert exists k :: IsLeast(Before, ids, k) by {
      var k := LeastExists(Before, ids);
    }
    var k :| IsLeast(Before, ids, k);
    k
  }

  /** The rows above `after` in ascending order, at most `limit` of them. */
  function RowsAfter(s: Store, after: nat, limit: nat): (rows: seq<Row>)
    ensures |rows| <= limit && (rows == [] <==> limit == 0 || IdsAfter(s, after) == {})
    ensures forall i | 0 <= i < |rows| :: rows[i].0 in s.log && rows[i].0 > after && rows[i].1 == s.log[rows[i].0]
    ensures forall i, j | 0 <= i < j < |rows| :: rows[i].0 < rows[j].0
    decreases limit
  {
    if limit == 0 || IdsAfter(s, after) == {} then []
    else
      var k := Lowest(IdsAfter(s, after));
      [(k, s.log[k])] + RowsAfter(s, k, limit - 1)
  }

  /** A fetch leaves out a stored row above `after` only when the limit cut it off. */
  lemma {:induction false} RowsAfterComplete(s: Store, after: nat, limit: nat, k: nat)
    requires k in s.log && k > after
    ensures
      var rows := RowsAfter(s, after, limit);
      (k, s.log[k]) in rows || (|rows| == limit && forall i | 0 <= i < |rows| :: rows[i].0 < k)
    decreases limit
  {
    if limit > 0 {
      assert k in IdsAfter(s, after);
      var first := Lowest(IdsAfter(s, after));
      if k != first {
        RowsAfterComplete(s, first, limit - 1, k);
      }
    }
  }

  /** The rows fetched so far and what remains above `last` make up the fetch. */
  ghost predicate ScannedTo(s: Store, after: nat, limit: nat, rows: seq<Row>, last: nat) {
    |rows| <= limit && RowsAfter(s, after, limit) == rows + RowsAfter(s, last, limit - |rows|)
  }

  lemma ScanStep(s: Store, after: nat, limit: nat, rows: seq<Row>, last: nat, k: nat)
    requires ScannedTo(s, after, limit, rows, last) && |rows| < limit
    requires k in IdsAfter(s, last) && forall i | i in IdsAfter(s, last) :: k <= i
    ensures ScannedTo(s, after, limit, rows + [(k, s.log[k])], k)
    ensures IdsAfter(s, k) == IdsAfter(s, last) - {k}
  {
    assert Lowest(IdsAfter(s, last)) == k;
    var rest := RowsAfter(s, k, limit - |rows| - 1);
    assert rows + ([(k, s.log[k])] + rest) == rows + [(k, s.log[k])] + rest;
  }

  /** Truncation does not change what a reader at or past the cut fetches. */
  lemma {:induction false} TruncatedFetch(s: Store, upTo: nat, after: nat, limit: nat)
    requires upTo <= after
    ensures RowsAfter(Truncated(s, upTo), after, limit) == RowsAfter(s, after, limit)
    decreases limit
  {
    assert IdsAfter(Truncated(s, upTo), after) == IdsAfter(s, after);
    if limit > 0 && IdsAfter(s, after) != {} {
      TruncatedFetch(s, upTo, Lowest(IdsAfter(s, after)), limit - 1);
    }
  }

  // ---- the lease row ----

  datatype Lease = Lease(holder: string, epoch: nat, expires: int)

  const SEED_LEASE := Lease("", 0, 0)

  /** Renewal: the same holder and epoch, not yet expired. */
  predicate Renews(row: Lease, holder: string, epoch: nat, now: int) {
    row.holder == holder && row.epoch == epoch && row.expires >= now
  }

  /** A fresh acquisition: expired, or already ours. */
  predicate Acquirable(row: Lease, holder: string, now: int) {
    row.expires < now || row.holder == holder
  }

  function Granted(row: Lease, holder: string, prev: Option<nat>, now: int): Option<nat> {
    match prev
    case Some(epoch) => if Renews(row, holder, epoch, now) then Some(epoch) else None
    case None => if Acquirable(row, holder, now) then Some(row.epoch + 1) else None
  }

  function Leased(row: Lease, holder: string, prev: Option<nat>, now: int, ttl: int): Lease {
    var got := Granted(row, holder, prev, now);
    if got.None? then row else Lease(holder, got.value, now + ttl)
  }

  function Released(row: Lease, holder: string, epoch: nat): Lease {
    if row.holder == holder && row.epoch == epoch then row.(expires := 0) else row
  }

  /** The shared table as the store keeps it; every call is one atomic statement. */
  class MetaStore {
    var log: map<nat, seq<byte>>
    var snapshot: Option<Row>
    var lease: Lease

    constructor ()
      ensures Contents() == EMPTY_STORE && lease == SEED_LEASE
    {
      log, snapshot, lease := map[], None, SEED_LEASE;
    }

    function Contents(): Store
      reads this
    {
      Store(log, snapshot)
    }

    /** Inserts only when the index is free; a taken index is reported, never overwritten. */
    method Append(idx: nat, payload: seq<byte>) returns (won: bool)
      modifies `log
      ensures won <==> idx !in old(log)
      ensures Contents() == if won then Insert(old(Contents()), idx, payload) else old(Contents())
    {
      won := idx !in log;
      if won {
        log := log[idx := payload];
      }
    }

    /** The highest index known to the log or covered by the snapshot. */
    method LastIdx() returns (last: nat)
      ensures last >= SnapshotIdx(Contents()) && forall i | i in log :: i <= last
      ensures last == SnapshotIdx(Contents()) || last in log
    {
      last := if snapshot.Some? then snapshot.value.0 else 0;
      var left := log.Keys;
      while left != {}
        invariant left <= log.Keys && last >= SnapshotIdx(Contents())
        invariant last == SnapshotIdx(Contents()) || last in log
        invariant forall i | i in log && i !in left :: i <= last
        decreases |left|
      {
        var i :| i in left;
        if i > last {
          last := i;
        }
        left := left - {i};
      }
    }

    /** The least index in a non-empty set of log indexes, by one pass over it. */
    method LeastOf(ids: set<nat>) returns (least: nat)
      requires ids != {}
      ensures least in ids && forall i | i in ids :: least <= i
    {
      least :| least in ids;
      var left := ids - {least};
      while left != {}
        invariant left <= ids && least in ids && forall i | i in ids && i !in left :: least <= i
        decreases |left|
      {
        var i :| i in left;
        if i < least {
          least := i;
        }
        left := left - {i};
      }
    }

    /** Selects the lowest remaining index until the limit or the log is exhausted. */
    method Scan(after: nat, limit: nat) returns (rows: seq<Row>)
      ensures rows == RowsAfter(Contents(), after, limit)
    {
      rows := [];
      var last, left := after, set i | i in log && i > after;
      ghost var s := Contents();
      while |rows| < limit && left != {}
        invariant left == IdsAfter(s, last) && ScannedTo(s, after, limit, rows, last)
        decreases |left|
      {
        var k := LeastOf(left);
        ScanStep(s, after, limit, rows, last, k);
        rows, left, last := rows + [(k, log[k])], left - {k}, k;
      }
    }

    /** Stored rows above `after`, ascending; a row is left out only when the limit is used up by lower ones. */
    method FetchAfter(after: nat, limit: nat) returns (rows: seq<Row>)
      ensures |rows| <= limit
      ensures forall i | 0 <= i < |rows| :: rows[i].0 in log && rows[i].0 > after && rows[i].1 == log[rows[i].0]
      ensures forall i, j | 0 <= i < j < |rows| :: rows[i].0 < rows[j].0
      ensures forall k | k in log && k > after && (k, log[k]) !in rows ::
                |rows| == limit && forall i | 0 <= i < |rows| :: rows[i].0 < k
      ensures rows == RowsAfter(Contents(), after, limit)
    {
      rows := Scan(after, limit);
      forall k | k in log && k > after && (k, log[k]) !in rows
        ensures |rows| == limit && forall i | 0 <= i < |rows| :: rows[i].0 < k
      {
        RowsAfterComplete(Contents(), after, limit, k);
      }
    }

    /** The stored snapshot index never decreases. */
    method StoreSnapshot(idx: nat, payload: seq<byte>)
      modifies `snapshot
      ensures Contents() == SaveSnapshot(old(Contents()), idx, payload)
      ensures SnapshotIdx(Contents()) >= SnapshotIdx(old(Contents()))
      ensures SnapshotIdx(Contents()) >= idx
    {
      if snapshot.None? || idx > snapshot.value.0 {
        snapshot := Some((idx, payload));
      }
    }

    /** Every row up to the index goes, every other keeps its value; readers past the cut see no difference. */
    method TruncateLog(upTo: nat)
      modifies `log
      ensures forall i :: i in log <==> i in old(log) && i > upTo
      ensures forall i | i in log :: log[i] == old(log)[i]
      ensures forall after, limit: nat | after >= upTo ::
                RowsAfter(Contents(), after, limit) == RowsAfter(old(Contents()), after, limit)
      ensures Contents() == Truncated(old(Contents()), upTo)
    {
      var left, before := log.Keys, Contents();
      while left != {}
        invariant left <= before.log.Keys
        invariant forall i :: i in log <==> i in before.log && (i in left || i > upTo)
        invariant forall i | i in log :: log[i] == before.log[i]
        decreases |left|
      {
        var i :| i in left;
        if i <= upTo {
          log := log - {i};
        }
        left := left - {i};
      }
      assert log == Truncated(before, upTo).log;
      forall after, limit: nat | after >= upTo
        ensures RowsAfter(Contents(), after, limit) == RowsAfter(before, after, limit)
      {
        TruncatedFetch(before, upTo, after, limit);
      }
    }

    /** A grant is the caller's own row until it expires; a refusal leaves the row alone. */
    method AcquireLease(holder: string, prev: Option<nat>, now: int, ttl: int) returns (got: Option<nat>)
      modifies `lease
      ensures got == Granted(old(lease), holder, prev, now)
      ensures lease == Leased(old(lease), holder, prev, now, ttl)
      ensures got.Some? && prev.None? ==> got.value > old(lease).epoch
    {
      got := None;
      if prev.Some? {
        if lease.holder == holder && lease.epoch == prev.value && lease.expires >= now {
          lease := lease.(expires := now + ttl);
          got := prev;
        }
      } else if lease.expires < now || lease.holder == holder {
        lease := Lease(holder, lease.epoch + 1, now + ttl);
        got := Some(lease.epoch);
      }
    }

    /** A release by the owner opens the row to everyone and to no renewal of the owner's; any other leaves it alone. */
    method ReleaseLease(holder: string, epoch: nat)
      modifies `lease
      ensures lease.holder == old(lease).holder && lease.epoch == old(lease).epoch
      ensures old(lease).holder != holder || old(lease).epoch != epoch ==> lease == old(lease)
      ensures old(lease).holder == holder && old(lease).epoch == epoch ==>
                forall other, now | now > 0 :: Granted(lease, other, None, now) == Some(epoch + 1)
                                              && Granted(lease, other, Some(epoch), now).None?
      ensures lease == Released(old(lease), holder, epoch)
    {
      if lease.holder == holder && lease.epoch == epoch {
        lease := lease.(expires := 0);
      }
    }
  }
}
