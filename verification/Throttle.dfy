/** The priority token bucket: refills, chunked grants in priority order, and the bandwidth it allows. */
module Throttle {
  import opened Bytes

  const MAX_TOKEN_PART_SIZE: nat := 1024 * 1024

  /** A queued acquisition; `remaining` counts down as chunks are granted. */
  datatype Item = Item(priority: nat, seqNo: nat, size: nat, remaining: nat)

  /** Lower priority number first, then earlier arrival. */
  predicate Better(a: Item, b: Item) {
    a.priority < b.priority || (a.priority == b.priority && a.seqNo < b.seqNo)
  }

  predicate Head(queue: set<Item>, h: Item) {
    h in queue && forall q | q in queue :: q == h || Better(h, q)
  }

  /** Arrival numbers are never shared. */
  predicate Distinct(queue: set<Item>) {
    forall a, b | a in queue && b in queue && a.seqNo == b.seqNo :: a == b
  }

  lemma {:induction false} HeadExists(queue: set<Item>) returns (h: Item)
    requires queue != {} && Distinct(queue)
    ensures Head(queue, h)
    decreases |queue|
  {
    var x :| x in queue;
    if queue == {x} {
      h := x;
    } else {
      var rest := queue - {x};
      assert rest != {} by {
        assert queue == rest + {x};
      }
      var m := HeadExists(rest);
      h := if Better(x, m) then x else m;
    }
  }

  /** The waiter a heap of these would pop. */
  method Best(queue: set<Item>) returns (h: Item)
    requires queue != {} && Distinct(queue)
    ensures Head(queue, h)
  {
    ghost var g := HeadExists(queue);
    h :| Head(queue, h);
  }

  /** The request paid all but what remains. */
  predicate Owes(q: Item, nextSeq: nat, paid: map<nat, nat>) {
    q.seqNo < nextSeq && q.remaining <= q.size && q.seqNo in paid && paid[q.seqNo] == q.size - q.remaining
  }

  /** The queue once `h` was granted a chunk. */
  function AfterGrant(queue: set<Item>, h: Item, chunk: nat): set<Item>
    requires chunk <= h.remaining
  {
    if chunk == h.remaining then queue - {h} else queue - {h} + {h.(remaining := h.remaining - chunk)}
  }

  lemma OwesAfterChunk(queue: set<Item>, h: Item, chunk: nat, nextSeq: nat, paid: map<nat, nat>)
    requires h in queue && Distinct(queue) && chunk <= h.remaining && forall q | q in queue :: Owes(q, nextSeq, paid)
    ensures h.seqNo in paid && Distinct(AfterGrant(queue, h, chunk))
    ensures forall q | q in AfterGrant(queue, h, chunk) :: Owes(q, nextSeq, paid[h.seqNo := paid[h.seqNo] + chunk])
    ensures chunk == h.remaining ==> paid[h.seqNo] + chunk == h.size
    ensures chunk == h.remaining ==> |AfterGrant(queue, h, chunk)| == |queue| - 1
  {
    assert Owes(h, nextSeq, paid);
  }

  /** What was charged and what is left are within what was brought, and the charge is below a cap above that. */
  predicate Within(charged: int, available: int, brought: int, cap: int) {
    -cap <= available <= cap && charged + available <= brought && charged < brought + cap
  }

  /** A debit that stops at minus the cap stays within if and only if the charge stays below a cap above. */
  lemma DebitWithinIff(charged: int, available: int, brought: int, cap: int, size: nat)
    requires Within(charged, available, brought, cap)
    ensures Within(charged + size, Max(available - size, -cap), brought, cap) <==> charged + size < brought + cap
  {
  }

  class Limiter {
    const tokenSize: int
    const maxTokens: int
    var available: int
    var queued: set<Item>
    var nextSeq: nat
    /** Metered bytes debited so far, refills so far, and what each queued request has paid. */
    ghost var charged: int
    ghost var refills: nat
    ghost var paid: map<nat, nat>

    constructor (tokenSize: nat, maxTokens: nat)
      requires tokenSize > 0
      ensures this.tokenSize == tokenSize && this.maxTokens == maxTokens && Valid()
      ensures charged == 0 && refills == 0 && queued == {} && available == tokenSize
      ensures tokenSize <= maxTokens && maxTokens >= MAX_TOKEN_PART_SIZE ==> Balanced()
    {
      this.tokenSize, this.maxTokens := tokenSize, maxTokens;
      available, queued, nextSeq := tokenSize, {}, 0;
      charged, refills, paid := 0, 0, map[];
    }

    /** Each waiter still owes exactly what it has not paid. */
    ghost predicate Valid()
      reads this
    {
      && tokenSize > 0 && maxTokens >= 0 && -maxTokens <= available && Distinct(queued)
      && forall q | q in queued :: Owes(q, nextSeq, paid)
    }

    /** What the refills brought so far, the initial tokens included. */
    ghost function Budget(): int
      reads this
    {
      (refills + 1) * tokenSize
    }

    /** Sane limits, and the account is within what the refills brought. */
    ghost predicate Balanced()
      reads this
    {
      tokenSize <= maxTokens && maxTokens >= MAX_TOKEN_PART_SIZE && Within(charged, available, Budget(), maxTokens)
    }

    /** The balance never falls below minus the cap. */
    method ReduceToken(size: nat)
      modifies `available
      ensures available == Max(old(available) - size, -maxTokens)
    {
      available := Max(available - size, -maxTokens);
    }

    /** Bypass traffic never waits, is not metered, and leaves less for everyone else. */
    method Bypass(bytes: nat)
      requires Valid()
      modifies `available
      ensures Valid() && available == Max(old(available) - bytes, -maxTokens) && (old(Balanced()) ==> Balanced())
    {
      ReduceToken(bytes);
    }

    /** Granted at once only when there are tokens and nobody waits; otherwise queued behind equals.
        `bypass` bytes are debited by others between the check and the debit. */
    method Acquire(priority: nat, bytes: nat, bypass: nat) returns (waits: bool)
      requires Valid()
      modifies this
      ensures Valid() && refills == old(refills)
      ensures waits <==> old(available) <= 0 || old(queued) != {}
      ensures waits ==> queued == old(queued) + {Item(priority, old(nextSeq), bytes, bytes)} && charged == old(charged)
      ensures waits ==> forall q | q in old(queued) && q.priority <= priority ::
                          Better(q, Item(priority, old(nextSeq), bytes, bytes))
      ensures !waits ==> queued == old(queued) && charged == old(charged) + bytes
      ensures old(Balanced()) && (waits || bytes < old(available) + maxTokens) ==> Balanced()
      ensures old(Balanced()) && old(charged + available == Budget()) && !waits ==>
                (Balanced() <==> bytes < old(available) + maxTokens)
      ensures bypass == 0 && waits ==> available == old(available)
      ensures bypass == 0 && bytes <= maxTokens && !waits ==> available == old(available) - bytes
    {
      waits := available <= 0 || queued != {};
      Bypass(bypass);
      if waits {
        var item := Item(priority, nextSeq, bytes, bytes);
        queued := queued + {item};
        paid := paid[nextSeq := 0];
        nextSeq := nextSeq + 1;
      } else {
        ghost var before, left := charged, available;
        ReduceToken(bytes);
        charged := charged + bytes;
        if Within(before, left, Budget(), maxTokens) {
          DebitWithinIff(before, left, Budget(), maxTokens, bytes);
        }
      }
    }

    /** Takes one chunk off the best waiter, which stays queued unless that completes it. */
    method TakeChunk() returns (h: Item, chunk: nat)
      requires Valid() && queued != {}
      modifies `queued, `paid
      ensures Valid() && Head(old(queued), h)
      ensures chunk == (if h.remaining <= MAX_TOKEN_PART_SIZE then h.remaining else MAX_TOKEN_PART_SIZE)
      ensures queued == AfterGrant(old(queued), h, chunk)
      ensures chunk == 0 ==> |queued| < |old(queued)|
      ensures chunk == h.remaining ==> h.seqNo in paid && paid[h.seqNo] == h.size
      ensures forall n | n in old(paid) && n != h.seqNo :: n in paid && paid[n] == old(paid)[n]
    {
      h := Best(queued);
      chunk := if h.remaining <= MAX_TOKEN_PART_SIZE then h.remaining else MAX_TOKEN_PART_SIZE;
      OwesAfterChunk(queued, h, chunk, nextSeq, paid);
      paid, queued := paid[h.seqNo := paid[h.seqNo] + chunk], AfterGrant(queued, h, chunk);
    }

    /** Debits a chunk granted on a check that found tokens. */
    method ChargeChunk(chunk: nat)
      requires chunk <= MAX_TOKEN_PART_SIZE
      modifies `available, `charged
      ensures available == Max(old(available) - chunk, -maxTokens) && charged == old(charged) + chunk
      ensures old(Balanced()) && old(charged) < Budget() ==> Balanced()
    {
      ghost var before, left := charged, available;
      ReduceToken(chunk);
      charged := charged + chunk;
      if Within(before, left, Budget(), maxTokens) {
        DebitWithinIff(before, left, Budget(), maxTokens, chunk);
      }
    }

    /** Grants one chunk to the best waiter and charges it. */
    method GrantChunk() returns (h: Item, chunk: nat)
      requires Valid() && queued != {}
      modifies `queued, `paid, `available, `charged
      ensures Valid() && Head(old(queued), h)
      ensures chunk == (if h.remaining <= MAX_TOKEN_PART_SIZE then h.remaining else MAX_TOKEN_PART_SIZE)
      ensures queued == AfterGrant(old(queued), h, chunk)
      ensures available == Max(old(available) - chunk, -maxTokens) && charged == old(charged) + chunk
      ensures old(Balanced()) && old(charged) < Budget() ==> Balanced()
      ensures chunk == 0 ==> |queued| < |old(queued)|
      ensures chunk == h.remaining ==> h.seqNo in paid && paid[h.seqNo] == h.size
      ensures forall n | n in old(paid) && n != h.seqNo :: n in paid && paid[n] == old(paid)[n]
    {
      h, chunk := TakeChunk();
      ChargeChunk(chunk);
    }

    /** One turn of the drain loop; others debit `bypass.0` between the check and the chunk, `bypass.1` after it. */
    method Turn(bypass: (nat, nat)) returns (h: Item, chunk: nat)
      requires Valid() && available > 0 && queued != {}
      modifies `queued, `paid, `available, `charged
      ensures Valid() && Head(old(queued), h)
      ensures chunk <= h.remaining && queued == AfterGrant(old(queued), h, chunk) && charged == old(charged) + chunk
      ensures old(Balanced()) ==> Balanced()
      ensures available < old(available) || (available == old(available) && |queued| < |old(queued)|)
      ensures bypass == (0, 0) && maxTokens >= MAX_TOKEN_PART_SIZE ==> available == old(available) - chunk
      ensures chunk == h.remaining ==> h.seqNo in paid && paid[h.seqNo] == h.size
      ensures forall n | n in old(paid) && n != h.seqNo :: n in paid && paid[n] == old(paid)[n]
    {
      ReduceToken(bypass.0);
      h, chunk := GrantChunk();
      ReduceToken(bypass.1);
    }

    /** Grants chunks to the best waiter while tokens last, whatever others debit during each turn. */
    method Drain(bypass: seq<(nat, nat)>) returns (completed: seq<Item>)
      requires Valid()
      modifies `queued, `paid, `available, `charged
      ensures Valid() && (available <= 0 || queued == {})
      ensures DrainedSoFar(old(queued), queued, completed, paid)
      ensures old(Balanced()) ==> Balanced()
      ensures bypass == [] && maxTokens >= MAX_TOKEN_PART_SIZE ==>
                available == old(available) - (charged - old(charged))
    {
      completed := [];
      NothingDrained(queued, paid);
      var k := 0;
      while available > 0 && queued != {}
        invariant Valid() && k >= 0
        invariant DrainedSoFar(old(queued), queued, completed, paid)
        invariant old(Balanced()) ==> Balanced()
        invariant bypass == [] && maxTokens >= MAX_TOKEN_PART_SIZE ==>
                    available == old(available) - (charged - old(charged))
        decreases available, |queued|
      {
        ghost var before, paidBefore := queued, paid;
        var h, chunk := Turn(if k < |bypass| then bypass[k] else (0, 0));
        var rest := h.(remaining := h.remaining - chunk);
        AfterChunk(old(queued), before, queued, completed, paidBefore, paid, h, rest);
        if rest.remaining == 0 {
          completed := completed + [rest];
        }
        k := k + 1;
      }
    }

    /**
     * One tick: refill up to the cap, then drain, with bypass debits landing anywhere between. Waiters complete in
     * priority order, none while a better one waits, each having paid exactly its size, and nobody is lost; without
     * bypass traffic no debit is clamped.
     */
    method RefillAndDrain(bypass: seq<(nat, nat)>) returns (completed: seq<Item>)
      requires Valid()
      modifies this
      ensures Valid() && refills == old(refills) + 1 && (available <= 0 || queued == {})
      ensures DrainedSoFar(old(queued), queued, completed, paid)
      ensures forall a, b | a in old(queued) && b in old(queued) && a.priority < b.priority ::
                Completed(b, completed) ==> Completed(a, completed)
      ensures old(Balanced()) ==> Balanced()
      ensures bypass == [] && maxTokens >= MAX_TOKEN_PART_SIZE ==>
                available == Min(old(available) + tokenSize, maxTokens) - (charged - old(charged))
    {
      available := Min(available + tokenSize, maxTokens);
      refills := refills + 1;
      OneMoreRefill(refills, tokenSize);
      completed := Drain(bypass);
      UrgentFirst(old(queued), queued, completed, paid);
    }

    /** The bandwidth bound: what was charged is below one cap above what the refills brought, whatever bypassed. */
    lemma ChargedWithinRate()
      requires Valid() && Balanced()
      ensures charged < (refills + 1) * tokenSize + maxTokens
    {
    }
  }

  /** An acquisition of three times the cap, granted at once, breaks the bound. */
  method OverCapAcquisition() returns (l: Limiter)
    ensures fresh(l) && l.Valid() && l.tokenSize == l.maxTokens == MAX_TOKEN_PART_SIZE
    ensures l.charged > (l.refills + 1) * l.tokenSize + l.maxTokens
  {
    l := new Limiter(MAX_TOKEN_PART_SIZE, MAX_TOKEN_PART_SIZE);
    var waits := l.Acquire(0, 3 * MAX_TOKEN_PART_SIZE, 0);
  }

  lemma OneMoreRefill(refills: nat, tokenSize: int)
    ensures (refills + 1) * tokenSize == refills * tokenSize + tokenSize
  {
  }

  /** The same request, possibly further paid. */
  predicate SameWaiter(p: Item, q: Item) {
    p.priority == q.priority && p.seqNo == q.seqNo && p.size == q.size && q.remaining <= p.remaining
  }

  predicate StillQueued(p: Item, queue: set<Item>) {
    exists q :: q in queue && SameWaiter(p, q)
  }

  predicate Completed(p: Item, done: seq<Item>) {
    exists c :: c in done && SameWaiter(p, c)
  }

  /** Service order, said of priorities and arrivals: a lower priority number first, however late it came, and among
      equals the earlier arrival. */
  lemma ServedByPriority(done: seq<Item>, queue: set<Item>)
    requires Ranked(done, queue)
    ensures forall i, j | 0 <= i < j < |done| ::
              done[i].priority < done[j].priority
              || (done[i].priority == done[j].priority && done[i].seqNo < done[j].seqNo)
    ensures forall c, q | c in done && q in queue ::
              c.priority < q.priority || (c.priority == q.priority && c.seqNo < q.seqNo)
  {
  }

  /** Completions are in priority order and ahead of everyone still waiting. */
  predicate Ranked(done: seq<Item>, queue: set<Item>) {
    && (forall i, j | 0 <= i < j < |done| :: Better(done[i], done[j]))
    && forall c, q | c in done && q in queue :: Better(c, q) && c.seqNo != q.seqNo
  }

  predicate AllPaid(done: seq<Item>, paid: map<nat, nat>) {
    forall c | c in done :: c.seqNo in paid && paid[c.seqNo] == c.size
  }

  predicate Accounted(start: set<Item>, queue: set<Item>, done: seq<Item>) {
    forall p | p in start :: StillQueued(p, queue) || Completed(p, done)
  }

  /** Completions in priority order, each paid in full, and every waiter either still queued or completed. */
  predicate DrainedSoFar(start: set<Item>, queue: set<Item>, done: seq<Item>, paid: map<nat, nat>) {
    Ranked(done, queue) && AllPaid(done, paid) && Accounted(start, queue, done)
  }

  /** Whoever waits with a lower priority number completes no later than anyone with a higher one. */
  lemma UrgentFirst(start: set<Item>, queue: set<Item>, done: seq<Item>, paid: map<nat, nat>)
    requires DrainedSoFar(start, queue, done, paid)
    ensures forall a, b | a in start && b in start && a.priority < b.priority ::
              Completed(b, done) ==> Completed(a, done)
  {
    forall a, b | a in start && b in start && a.priority < b.priority && Completed(b, done) ensures Completed(a, done) {
      var c :| c in done && SameWaiter(b, c);
      assert forall q | q in queue :: c.priority <= q.priority;
      assert !StillQueued(a, queue);
    }
  }

  lemma NothingDrained(queue: set<Item>, paid: map<nat, nat>)
    ensures DrainedSoFar(queue, queue, [], paid)
  {
    forall p | p in queue ensures StillQueued(p, queue) {
      assert SameWaiter(p, p);
    }
  }

  /** A chunk for the head keeps all of that. */
  lemma AfterChunk(start: set<Item>, before: set<Item>, after: set<Item>, done: seq<Item>,
                   paid: map<nat, nat>, now: map<nat, nat>, h: Item, rest: Item)
    requires Head(before, h) && Distinct(before) && DrainedSoFar(start, before, done, paid)
    requires rest == h.(remaining := rest.remaining) && rest.remaining <= h.remaining
    requires after == AfterGrant(before, h, h.remaining - rest.remaining)
    requires forall n | n in paid && n != h.seqNo :: n in now && now[n] == paid[n]
    requires rest.remaining == 0 ==> h.seqNo in now && now[h.seqNo] == h.size
    ensures DrainedSoFar(start, after, if rest.remaining == 0 then done + [rest] else done, now)
  {
    RankedAfter(before, after, done, h, rest);
    AccountedAfter(start, before, after, done, h, rest);
  }

  lemma RankedAfter(before: set<Item>, after: set<Item>, done: seq<Item>, h: Item, rest: Item)
    requires Head(before, h) && Distinct(before) && Ranked(done, before)
    requires rest == h.(remaining := rest.remaining) && rest.remaining <= h.remaining
    requires after == AfterGrant(before, h, h.remaining - rest.remaining)
    ensures Ranked(if rest.remaining == 0 then done + [rest] else done, after)
  {
    forall c | c in done ensures Better(c, h) && Better(c, rest) && c.seqNo != rest.seqNo {
    }
    forall q | q in before && q != h ensures Better(rest, q) && rest.seqNo != q.seqNo {
    }
  }

  lemma AccountedAfter(start: set<Item>, before: set<Item>, after: set<Item>, done: seq<Item>, h: Item, rest: Item)
    requires h in before && Accounted(start, before, done)
    requires rest == h.(remaining := rest.remaining) && rest.remaining <= h.remaining
    requires after == AfterGrant(before, h, h.remaining - rest.remaining)
    ensures Accounted(start, after, if rest.remaining == 0 then done + [rest] else done)
  {
    var now := if rest.remaining == 0 then done + [rest] else done;
    forall p | p in start ensures StillQueued(p, after) || Completed(p, now) {
      if q :| q in before && SameWaiter(p, q) {
        if q != h {
          assert q in after;
        } else if rest.remaining == 0 {
          assert rest in now && SameWaiter(p, rest);
        } else {
          assert rest in after && SameWaiter(p, rest);
        }
      } else {
        var c :| c in done && SameWaiter(p, c);
        assert c in now;
      }
    }
  }
}
