/** What becomes of a proposal: carried until it is answered, retried above every slot it lost, told its results. */
module Proposals {
  import opened Bytes
  import opened LogStore
  import opened Replication

  // ---- a taken batch is carried until it is answered ----

  function Carried<C>(f: Flusher<C>): Option<seq<C>> {
    match f
    case Sending(batch) => Some(batch)
    case Loaded(batch, _) => Some(batch)
    case Registered(batch, _, _) => Some(batch)
    case Won(batch, _, _) => Some(batch)
    case LostSlot(batch, _) => Some(batch)
    case Refreshing(batch) => Some(batch)
    case Idle => None
    case FailedSlot(_) => None
  }

  ghost predicate Carries<S, C, R>(w: World<S, C, R>, n: nat, batch: seq<C>) {
    n in w.nodes && w.nodes[n].Up? && Carried(w.nodes[n].flusher) == Some(batch)
  }

  /** The proposers are answered, with results or with an error, or their node is gone. */
  ghost predicate Ends<S, C, R>(w: World<S, C, R>, e: Event<C>, n: nat) {
    || e == Crash(n)
    || (e.Flushes? && e.node == n
        && (e.flushAction.Ack? || e.flushAction.Drop? || e.flushAction.GiveUp? || e.flushAction.AppendFails?
            || (e.flushAction.Register? && n in w.nodes && w.nodes[n].Up? && w.nodes[n].shared.poisoned)))
  }

  /** What an event does to one node that survives it. */
  lemma NodeNext<S, C, R>(m: Machine<S, C, R>, w: World<S, C, R>, e: Event<C>, n: nat)
    requires Enabled(m, w, e) && n in w.nodes && e != Crash(n)
    ensures n in Next(m, w, e).nodes
    ensures Next(m, w, e).nodes[n] ==
            if e.Tails? && e.node == n then Tail(m, w.nodes[n], w.store, e.tailAction)
            else if e.Flushes? && e.node == n then Flush(m, w.nodes[n], w.store, e.flushAction)
            else w.nodes[n]
  {
  }

  /** The tailer leaves the flusher alone and never lowers what was seen. */
  lemma TailLeavesFlusher<S, C, R>(m: Machine<S, C, R>, node: Node<S, C, R>, store: Store, a: TailAction)
    requires node.Up? && TailEnabled(m, node, a)
    ensures
      var after := Tail(m, node, store, a);
      after.Up? && after.flusher == node.flusher && after.shared.lastSeen >= node.shared.lastSeen
  {
  }

  lemma StepCarries<S, C, R>(m: Machine<S, C, R>, w: World<S, C, R>, e: Event<C>, n: nat, batch: seq<C>)
    requires Enabled(m, w, e) && Carries(w, n, batch) && !Ends(w, e, n)
    ensures Carries(Next(m, w, e), n, batch)
  {
    NodeNext(m, w, e, n);
    if e.Tails? && e.node == n {
      TailLeavesFlusher(m, w.nodes[n], w.store, e.tailAction);
    }
  }

  ghost predicate NoEnd<S, C, R>(t: Trace<S, C, R>, n: nat, i: nat, j: nat)
    requires i <= j < |t.worlds| == |t.events| + 1
  {
    forall k | i <= k < j :: !Ends(t.worlds[k], t.events[k], n)
  }

  /** On every run a node carries on with the very batch it took, whatever slots it loses, until it is answered. */
  lemma {:induction false} TakenIsCarried<S, C, R>(
      m: Machine<S, C, R>, t: Trace<S, C, R>, i: nat, j: nat, n: nat, batch: seq<C>)
    requires IsRun(m, t) && i < j < |t.worlds| && t.events[i] == Flushes(n, Take(batch)) && NoEnd(t, n, i, j)
    ensures Carries(t.worlds[j], n, batch)
    decreases j
  {
    assert StepAt(m, t, j - 1) && !Ends(t.worlds[j - 1], t.events[j - 1], n);
    if i < j - 1 {
      TakenIsCarried(m, t, i, j - 1, n, batch);
      StepCarries(m, t.worlds[j - 1], t.events[j - 1], n, batch);
    }
  }

  ghost predicate Free<S, C, R>(w: World<S, C, R>, n: nat) {
    n in w.nodes && w.nodes[n].Up? ==> Carried(w.nodes[n].flusher).None?
  }

  lemma StepFree<S, C, R>(m: Machine<S, C, R>, w: World<S, C, R>, e: Event<C>, n: nat)
    requires Enabled(m, w, e) && !(e.Flushes? && e.node == n && e.flushAction.Take?)
    requires Free(w, n) || Ends(w, e, n)
    ensures Free(Next(m, w, e), n)
    ensures Free(w, n) ==> e != Flushes(n, Append)
  {
    if n in w.nodes && e != Crash(n) {
      NodeNext(m, w, e, n);
      if e.Tails? && e.node == n && w.nodes[n].Up? {
        TailLeavesFlusher(m, w.nodes[n], w.store, e.tailAction);
      }
    }
  }

  /** An answer is final: on every run, once the proposers were answered, whatever they were told, the node appends
      nothing again before it takes another batch. */
  lemma {:induction false} AnsweredOnce<S, C, R>(m: Machine<S, C, R>, t: Trace<S, C, R>, i: nat, j: nat, n: nat)
    requires IsRun(m, t) && i < j < |t.worlds| && Ends(t.worlds[i], t.events[i], n)
    requires forall k | i < k < j :: !(t.events[k].Flushes? && t.events[k].node == n && t.events[k].flushAction.Take?)
    ensures Free(t.worlds[j], n) && forall k | i < k < j :: t.events[k] != Flushes(n, Append)
    decreases j
  {
    assert StepAt(m, t, j - 1);
    if i < j - 1 {
      AnsweredOnce(m, t, i, j - 1, n);
    }
    StepFree(m, t.worlds[j - 1], t.events[j - 1], n);
  }

  ghost predicate HasWon<S, C, R>(w: World<S, C, R>, n: nat) {
    n in w.nodes && w.nodes[n].Up? && w.nodes[n].flusher.Won?
  }

  lemma StepWon<S, C, R>(m: Machine<S, C, R>, w: World<S, C, R>, e: Event<C>, n: nat)
    requires Enabled(m, w, e) && HasWon(w, n) && !Ends(w, e, n)
    ensures HasWon(Next(m, w, e), n) && e != Flushes(n, Append)
    ensures Next(m, w, e).nodes[n].flusher == w.nodes[n].flusher
  {
    NodeNext(m, w, e, n);
    if e.Tails? && e.node == n {
      TailLeavesFlusher(m, w.nodes[n], w.store, e.tailAction);
    }
  }

  /** A batch is appended once: whoever won a slot appends again only after an answer. */
  lemma {:induction false} WinnerWaits<S, C, R>(m: Machine<S, C, R>, t: Trace<S, C, R>, i: nat, j: nat, n: nat)
    requires IsRun(m, t) && i <= j < |t.worlds| && HasWon(t.worlds[i], n) && NoEnd(t, n, i, j)
    ensures HasWon(t.worlds[j], n) && forall k | i <= k < j :: t.events[k] != Flushes(n, Append)
    decreases j
  {
    if i < j {
      WinnerWaits(m, t, i, j - 1, n);
      assert StepAt(m, t, j - 1) && !Ends(t.worlds[j - 1], t.events[j - 1], n);
      StepWon(m, t.worlds[j - 1], t.events[j - 1], n);
    }
  }

  // ---- a lost slot is not tried again ----

  /** The flusher carries on and will only try indexes above `k`. */
  ghost predicate Past<S, C, R>(node: Node<S, C, R>, k: nat) {
    node.Up? &&
    match node.flusher
    case Sending(_) => node.shared.lastSeen >= k
    case Loaded(_, next) => next > k
    case Registered(_, next, _) => next > k
    case Won(_, next, _) => next > k
    case LostSlot(_, next) => true
    case Refreshing(_) => true
    case Idle => false
    case FailedSlot(_) => false
  }

  lemma TipIsLast<S, C, R>(m: Machine<S, C, R>, store: Store, hist: seq<seq<C>>, last: nat)
    requires StoreOk(m, store, hist) && IsTip(store, last)
    ensures last == |hist|
  {
    if SnapshotIdx(store) < |hist| {
      assert |hist| in store.log;
    }
  }

  lemma FlushPast<S, C, R>(m: Machine<S, C, R>, w: World<S, C, R>, n: nat, a: FlushAction<C>, k: nat)
    requires Ok(m, w) && Enabled(m, w, Flushes(n, a)) && !Ends(w, Flushes(n, a), n)
    requires k <= |w.hist| && Past(w.nodes[n], k)
    ensures Past(Flush(m, w.nodes[n], w.store, a), k)
  {
    if a.Refresh? {
      TipIsLast(m, w.store, w.hist, a.last);
    }
  }

  ghost predicate PastAt<S, C, R>(w: World<S, C, R>, n: nat, k: nat) {
    n in w.nodes && k <= |w.hist| && Past(w.nodes[n], k)
  }

  lemma StepPast<S, C, R>(m: Machine<S, C, R>, w: World<S, C, R>, e: Event<C>, n: nat, k: nat)
    requires Ok(m, w) && Enabled(m, w, e) && !Ends(w, e, n) && PastAt(w, n, k)
    ensures n in Next(m, w, e).nodes && Past(Next(m, w, e).nodes[n], k)
  {
    NodeNext(m, w, e, n);
    if e.Flushes? && e.node == n {
      FlushPast(m, w, n, e.flushAction, k);
    } else if e.Tails? && e.node == n {
      TailLeavesFlusher(m, w.nodes[n], w.store, e.tailAction);
    }
  }

  lemma {:induction false} StaysPast<S(!new), C(!new), R>(
      m: Machine<S, C, R>, t: Trace<S, C, R>, i: nat, j: nat, n: nat, k: nat)
    requires Lawful(m) && HarmlessRun(m, t) && i <= j < |t.worlds| && NoEnd(t, n, i, j) && PastAt(t.worlds[i], n, k)
    ensures PastAt(t.worlds[j], n, k)
    decreases j
  {
    if i < j {
      StaysPast(m, t, i, j - 1, n, k);
      RunKeeps(m, t, j - 1);
      HistoryGrows(m, t, j - 1, j);
      assert StepAt(m, t, j - 1) && !Ends(t.worlds[j - 1], t.events[j - 1], n);
      StepPast(m, t.worlds[j - 1], t.events[j - 1], n, k);
    }
  }

  /** After losing a slot, the next index a node tries for the same batch is above the one it lost. */
  lemma LostSlotIsPassed<S(!new), C(!new), R>(m: Machine<S, C, R>, t: Trace<S, C, R>, i: nat, j: nat, n: nat)
    requires Lawful(m) && HarmlessRun(m, t) && i < j < |t.events| && StepAt(m, t, i) && StepAt(m, t, j)
    requires t.events[i] == Flushes(n, Append) && t.worlds[i].nodes[n].flusher.next in t.worlds[i].store.log
    requires t.events[j] == Flushes(n, Append) && NoEnd(t, n, i, j)
    ensures t.worlds[j].nodes[n].flusher.next > t.worlds[i].nodes[n].flusher.next
  {
    var k := t.worlds[i].nodes[n].flusher.next;
    RunKeeps(m, t, i);
    RunStep(m, t, i);
    assert k <= |t.worlds[i].hist|;
    StaysPast(m, t, i + 1, j, n, k);
  }

  // ---- an uncontended append wins ----

  /** The flusher knows the whole history. */
  ghost predicate Informed<S, C, R>(node: Node<S, C, R>, length: nat) {
    node.Up? &&
    match node.flusher
    case Sending(_) => node.shared.lastSeen == length
    case Loaded(_, next) => next == length + 1
    case Registered(_, next, _) => next == length + 1
    case _ => false
  }

  lemma FlushInformed<S, C, R>(m: Machine<S, C, R>, node: Node<S, C, R>, store: Store, a: FlushAction<C>, length: nat)
    requires node.Up? && FlushEnabled(m, node, store, a) && Informed(node, length)
    requires !a.Append? && !a.AppendFails? && !(a.Register? && node.shared.poisoned)
    ensures Informed(Flush(m, node, store, a), length)
  {
  }

  lemma InformedStep<S, C, R>(m: Machine<S, C, R>, w: World<S, C, R>, v: World<S, C, R>, e: Event<C>, n: nat)
    requires Enabled(m, w, e) && v == Next(m, w, e) && Ok(m, v) && v.hist == w.hist
    requires n in w.nodes && Informed(w.nodes[n], |w.hist|) && !Ends(w, e, n) && e != Flushes(n, Append)
    ensures n in v.nodes && Informed(v.nodes[n], |v.hist|)
  {
    NodeNext(m, w, e, n);
    assert NodeOk(m, v.nodes[n], SnapshotIdx(v.store), v.hist);
    if e.Flushes? && e.node == n {
      FlushInformed(m, w.nodes[n], w.store, e.flushAction, |w.hist|);
    } else if e.Tails? && e.node == n {
      TailLeavesFlusher(m, w.nodes[n], w.store, e.tailAction);
    }
  }

  ghost predicate NoAppend<S, C, R>(t: Trace<S, C, R>, n: nat, i: nat, j: nat)
    requires i <= j < |t.worlds| == |t.events| + 1
  {
    forall k | i <= k < j :: t.events[k] != Flushes(n, Append)
  }

  lemma {:induction false} StaysInformed<S(!new), C(!new), R>(
      m: Machine<S, C, R>, t: Trace<S, C, R>, i: nat, j: nat, n: nat)
    requires Lawful(m) && HarmlessRun(m, t) && i <= j < |t.worlds| && NoEnd(t, n, i, j) && NoAppend(t, n, i, j)
    requires t.worlds[i].hist == t.worlds[j].hist
    requires n in t.worlds[i].nodes && Informed(t.worlds[i].nodes[n], |t.worlds[i].hist|)
    ensures n in t.worlds[j].nodes && Informed(t.worlds[j].nodes[n], |t.worlds[j].hist|)
    decreases j
  {
    if i < j {
      HistoryGrows(m, t, i, j - 1);
      HistoryGrows(m, t, j - 1, j);
      StaysInformed(m, t, i, j - 1, n);
      RunKeeps(m, t, j);
      assert StepAt(m, t, j - 1) && !Ends(t.worlds[j - 1], t.events[j - 1], n) && t.events[j - 1] != Flushes(n, Append);
      InformedStep(m, t.worlds[j - 1], t.worlds[j], t.events[j - 1], n);
    }
  }

  lemma RefreshInforms<S(!new), C(!new), R>(m: Machine<S, C, R>, t: Trace<S, C, R>, i: nat, n: nat, last: nat)
    requires Lawful(m) && HarmlessRun(m, t) && i < |t.events| && StepAt(m, t, i)
    requires t.events[i] == Flushes(n, Refresh(last))
    ensures t.worlds[i + 1].hist == t.worlds[i].hist
    ensures n in t.worlds[i + 1].nodes && Informed(t.worlds[i + 1].nodes[n], |t.worlds[i + 1].hist|)
  {
    var w, v := t.worlds[i], t.worlds[i + 1];
    RunKeeps(m, t, i);
    RunKeeps(m, t, i + 1);
    NodeNext(m, w, t.events[i], n);
    TipIsLast(m, w.store, w.hist, last);
    assert NodeOk(m, v.nodes[n], SnapshotIdx(v.store), v.hist);
  }

  /** A node that learned the tail and meets no other append gets the slot it tries. */
  lemma UncontendedAppendWins<S(!new), C(!new), R>(
      m: Machine<S, C, R>, t: Trace<S, C, R>, i: nat, j: nat, n: nat, last: nat)
    requires Lawful(m) && HarmlessRun(m, t) && i < j < |t.events| && StepAt(m, t, i) && StepAt(m, t, j)
    requires t.events[i] == Flushes(n, Refresh(last)) && t.events[j] == Flushes(n, Append)
    requires NoEnd(t, n, i + 1, j) && NoAppend(t, n, i + 1, j) && t.worlds[i].hist == t.worlds[j].hist
    ensures t.worlds[j + 1].nodes[n].flusher.Won?
    ensures t.worlds[j + 1].hist == t.worlds[j].hist + [t.worlds[j].nodes[n].flusher.batch]
  {
    RefreshInforms(m, t, i, n, last);
    StaysInformed(m, t, i + 1, j, n);
    RunKeeps(m, t, j);
    NodeNext(m, t.worlds[j], t.events[j], n);
    assert t.worlds[j].nodes[n].flusher.next !in t.worlds[j].store.log;
  }

  // ---- a waiter is told its results, unless a snapshot overtook them ----

  /** How far the node has come, a row it is about to answer aside. */
  ghost function Passed<S, R>(tail: Tailer<S, R>): nat {
    if tail.phase.Delivering? && tail.applied > 0 then tail.applied - 1 else tail.applied
  }

  /** The registration waits for an index the node has not passed, or its results are there. */
  ghost predicate Served<S, C, R>(node: Node<S, C, R>, ch: Channel) {
    node.Up? && (ch in node.shared.delivered || (ch.idx > Passed(node.tail) && Awaits<R>(node.shared.pending, ch)))
  }

  /** The node is not answered, and does not skip rows by installing a snapshot. */
  ghost predicate Proceeds<S, C, R>(w: World<S, C, R>, e: Event<C>, n: nat) {
    !Ends(w, e, n) && e != Tails(n, Restores)
  }

  lemma TailServes<S(!new), C(!new), R>(
      m: Machine<S, C, R>, node: Node<S, C, R>, store: Store, hist: seq<seq<C>>, a: TailAction, ch: Channel)
    requires Lawful(m) && forall b | b in hist :: m.fits(b)
    requires NodeOk(m, node, SnapshotIdx(store), hist) && TailEnabled(m, node, a) && !a.Restores? && Served(node, ch)
    ensures Served(Tail(m, node, store, a), ch)
  {
    if a.Applies? {
      var row := node.tail.phase.rows[0];
      if row.0 <= node.tail.applied + 1 {
        assert m.fits(hist[row.0 - 1]);
      }
    }
  }

  ghost predicate WinnerServed<S, C, R>(w: World<S, C, R>, n: nat, ch: Channel) {
    HasWon(w, n) && w.nodes[n].flusher.ch == ch && Served(w.nodes[n], ch)
  }

  lemma StepServes<S(!new), C(!new), R>(m: Machine<S, C, R>, w: World<S, C, R>, e: Event<C>, n: nat, ch: Channel)
    requires Lawful(m) && Ok(m, w) && Enabled(m, w, e) && WinnerServed(w, n, ch) && Proceeds(w, e, n)
    ensures WinnerServed(Next(m, w, e), n, ch)
  {
    StepWon(m, w, e, n);
    NodeNext(m, w, e, n);
    assert NodeOk(m, w.nodes[n], SnapshotIdx(w.store), w.hist);
    if e.Tails? && e.node == n {
      TailServes(m, w.nodes[n], w.store, w.hist, e.tailAction, ch);
    }
  }

  lemma {:induction false} StaysServed<S(!new), C(!new), R>(
      m: Machine<S, C, R>, t: Trace<S, C, R>, i: nat, j: nat, n: nat, ch: Channel)
    requires Lawful(m) && HarmlessRun(m, t) && i <= j < |t.worlds| && WinnerServed(t.worlds[i], n, ch)
    requires forall k | i <= k < j :: Proceeds(t.worlds[k], t.events[k], n)
    ensures WinnerServed(t.worlds[j], n, ch)
    decreases j
  {
    if i < j {
      StaysServed(m, t, i, j - 1, n, ch);
      RunKeeps(m, t, j - 1);
      assert StepAt(m, t, j - 1) && Proceeds(t.worlds[j - 1], t.events[j - 1], n);
      StepServes(m, t.worlds[j - 1], t.events[j - 1], n, ch);
    }
  }

  /** Winning leaves the registration in place, at an index the node has yet to reach. */
  lemma WinnerRegistered<S(!new), C(!new), R>(m: Machine<S, C, R>, t: Trace<S, C, R>, i: nat, n: nat)
    requires Lawful(m) && GuardedRun(m, t) && i < |t.events| && StepAt(m, t, i) && t.events[i] == Flushes(n, Append)
    requires t.worlds[i].nodes[n].flusher.next !in t.worlds[i].store.log
    ensures WinnerServed(t.worlds[i + 1], n, t.worlds[i].nodes[n].flusher.ch)
    ensures t.worlds[i].nodes[n].flusher.ch.idx == |t.worlds[i].hist| + 1
  {
    var w := t.worlds[i];
    GuardedRunIsHarmless(m, t);
    RunKeeps(m, t, i);
    RunWaits(m, t, i);
    assert NodeOk(m, w.nodes[n], SnapshotIdx(w.store), w.hist) && WaitOk(w.nodes[n]);
    WinExtendsHistory(m, t, i, Entry(w.nodes[n].flusher.next, w.nodes[n].flusher.batch));
  }

  /** The row a winner wrote keeps its results for good. */
  lemma WonRowKeepsResults<S(!new), C(!new), R>(m: Machine<S, C, R>, t: Trace<S, C, R>, i: nat, j: nat, n: nat)
    requires Lawful(m) && GuardedRun(m, t) && i < j < |t.worlds| && StepAt(m, t, i) && t.events[i] == Flushes(n, Append)
    requires t.worlds[i].nodes[n].flusher.next !in t.worlds[i].store.log
    ensures |t.worlds[i].hist| < |t.worlds[j].hist|
    ensures ResultsAt(m, t.worlds[j].hist, |t.worlds[i].hist| + 1)
            == Results(m, StateAt(m, t.worlds[i].hist, |t.worlds[i].hist|), t.worlds[i].nodes[n].flusher.batch)
  {
    GuardedRunIsHarmless(m, t);
    WinExtendsHistory(m, t, i, Entry(t.worlds[i].nodes[n].flusher.next, t.worlds[i].nodes[n].flusher.batch));
    HistoryGrows(m, t, i + 1, j);
    HistoryGrows(m, t, i, i + 1);
    StateAtPrefix(m, t.worlds[i].hist, t.worlds[j].hist, |t.worlds[i].hist|);
  }

  /** A node that wins a slot and then reads the log row by row past it, installing no snapshot on the way,
      has the row's own results for the proposers. */
  lemma WinnerIsAnswered<S(!new), C(!new), R>(m: Machine<S, C, R>, t: Trace<S, C, R>, i: nat, j: nat, n: nat)
    requires Lawful(m) && GuardedRun(m, t) && i < j < |t.worlds| && StepAt(m, t, i) && t.events[i] == Flushes(n, Append)
    requires t.worlds[i].nodes[n].flusher.next !in t.worlds[i].store.log
    requires forall k | i < k < j :: Proceeds(t.worlds[k], t.events[k], n)
    requires n in t.worlds[j].nodes && t.worlds[j].nodes[n].Up?
    requires Passed(t.worlds[j].nodes[n].tail) > |t.worlds[i].hist|
    ensures Enabled(m, t.worlds[j], Flushes(n, Ack))
    ensures t.worlds[j].nodes[n].shared.delivered[t.worlds[j].nodes[n].flusher.ch]
            == Results(m, StateAt(m, t.worlds[i].hist, |t.worlds[i].hist|), t.worlds[i].nodes[n].flusher.batch)
  {
    WinnerRegistered(m, t, i, n);
    GuardedRunIsHarmless(m, t);
    StaysServed(m, t, i + 1, j, n, t.worlds[i].nodes[n].flusher.ch);
    RunKeeps(m, t, j);
    assert NodeOk(m, t.worlds[j].nodes[n], SnapshotIdx(t.worlds[j].store), t.worlds[j].hist);
    WonRowKeepsResults(m, t, i, j, n);
  }

  // ---- recovery and truncation get somewhere ----

  /** A node starts at the stored snapshot, not before. */
  lemma StartsAtSnapshot<S(!new), C(!new), R>(m: Machine<S, C, R>, t: Trace<S, C, R>, i: nat, n: nat)
    requires Lawful(m) && HarmlessRun(m, t) && i < |t.events| && StepAt(m, t, i) && t.events[i] == Start(n)
    ensures
      var node := t.worlds[i + 1].nodes[n];
      node.Booting? && node.tail.applied == SnapshotIdx(t.worlds[i].store)
  {
    RunKeeps(m, t, i);
    BootOk(m, t.worlds[i].store, t.worlds[i].hist);
  }

  /** Gap recovery takes a node forward, to the stored snapshot. */
  lemma RecoveryAdvances<S(!new), C(!new), R>(m: Machine<S, C, R>, t: Trace<S, C, R>, i: nat, n: nat)
    requires Lawful(m) && HarmlessRun(m, t) && i < |t.events| && StepAt(m, t, i) && t.events[i] == Tails(n, Restores)
    ensures
      var before, after := t.worlds[i].nodes[n], t.worlds[i + 1].nodes[n];
      !after.Failed? && before.tail.applied < after.tail.applied == SnapshotIdx(t.worlds[i].store)
  {
    var w := t.worlds[i];
    RunKeeps(m, t, i);
    assert NodeOk(m, w.nodes[n], SnapshotIdx(w.store), w.hist);
    SnapshotLoads(m, w.store, w.hist);
  }

  /** A snapshot cycle leaves a snapshot at least as new as the node's, and then no log row it covers. */
  lemma CycleFreesLog<S, C, R>(m: Machine<S, C, R>, t: Trace<S, C, R>, i: nat, n: nat, k: nat)
    requires IsRun(m, t) && i < |t.events| && StepAt(m, t, i)
    ensures t.events[i] == Tails(n, Persists) ==>
              SnapshotIdx(t.worlds[i + 1].store) >= t.worlds[i].nodes[n].tail.phase.idx
              && t.worlds[i + 1].nodes[n].tail.phase == Truncating(t.worlds[i].nodes[n].tail.phase.idx)
    ensures t.events[i] == Tails(n, Truncates) && k in t.worlds[i + 1].store.log ==>
              k > t.worlds[i].nodes[n].tail.phase.upTo
  {
  }

  // ---- registrations ----

  /** The index the flusher has a registration for. */
  function Trying<C>(f: Flusher<C>): Option<nat> {
    match f
    case Registered(_, next, _) => Some(next)
    case Won(_, next, _) => Some(next)
    case LostSlot(_, next) => Some(next)
    case FailedSlot(next) => Some(next)
    case _ => None
  }

  /** Nobody else is registered, and a channel that has its results no longer is. */
  ghost predicate OnlyTrying<S, C, R>(node: Node<S, C, R>) {
    node.Up? ==>
      var f, sh := node.flusher, node.shared;
      && (forall i | i in sh.pending :: Trying(f) == Some(i) && sh.pending[i].serial < sh.serial)
      && (forall ch | ch in sh.delivered :: ch.serial < sh.serial)
      && (forall i | i in sh.pending :: sh.pending[i] !in sh.delivered)
      && (f.Registered? || f.Won? ==> f.ch.serial < sh.serial && forall i | i in sh.pending :: sh.pending[i] == f.ch)
  }

  lemma TailRegisters<S, C, R>(m: Machine<S, C, R>, node: Node<S, C, R>, store: Store, a: TailAction)
    requires !node.Failed? && TailEnabled(m, node, a) && OnlyTrying(node)
    ensures OnlyTrying(Tail(m, node, store, a))
  {
  }

  lemma FlushRegisters<S, C, R>(m: Machine<S, C, R>, node: Node<S, C, R>, store: Store, a: FlushAction<C>)
    requires node.Up? && FlushEnabled(m, node, store, a) && OnlyTrying(node)
    ensures OnlyTrying(Flush(m, node, store, a))
  {
  }

  /** On every run a node has at most one registration: the one for the slot it is trying. */
  lemma {:induction false} OneRegistration<S, C, R>(m: Machine<S, C, R>, t: Trace<S, C, R>, i: nat, n: nat)
    requires IsRun(m, t) && i < |t.worlds| && n in t.worlds[i].nodes
    ensures OnlyTrying(t.worlds[i].nodes[n])
    decreases i
  {
    if i > 0 {
      var w, e := t.worlds[i - 1], t.events[i - 1];
      assert StepAt(m, t, i - 1);
      if n in w.nodes && e != Crash(n) {
        OneRegistration(m, t, i - 1, n);
        NodeNext(m, w, e, n);
        if e.Tails? && e.node == n {
          TailRegisters(m, w.nodes[n], w.store, e.tailAction);
        }
        if e.Flushes? && e.node == n {
          FlushRegisters(m, w.nodes[n], w.store, e.flushAction);
        }
      }
    }
  }

  // ---- a log that cannot be read ----

  /** The tailer meets a row that does not decode, or no usable snapshot where rows are missing. */
  ghost predicate Unreadable<S, C, R>(m: Machine<S, C, R>, w: World<S, C, R>, n: nat, a: TailAction)
    requires Enabled(m, w, Tails(n, a))
  {
    var tail := w.nodes[n].tail;
    || (a.Applies? && tail.phase.rows[0].0 <= tail.applied + 1 && m.decode(tail.phase.rows[0].1).None?)
    || (a.Restores? && (w.store.snapshot.None? || m.load(w.store.snapshot.value.1).None?
                        || (w.nodes[n].Up? && w.store.snapshot.value.0 <= tail.applied)))
  }

  /** A node that reads no further, has dropped every registration and refuses new ones, or never came up. */
  ghost predicate GaveUp<S, C, R>(w: World<S, C, R>, n: nat) {
    && n in w.nodes
    && (w.nodes[n].Failed?
        || (w.nodes[n].Up? && w.nodes[n].tail.phase.Halted?
            && w.nodes[n].shared.poisoned && w.nodes[n].shared.pending == map[]))
  }

  lemma StepGaveUp<S, C, R>(m: Machine<S, C, R>, w: World<S, C, R>, e: Event<C>, n: nat)
    requires Enabled(m, w, e) && GaveUp(w, n) && e != Crash(n)
    ensures GaveUp(Next(m, w, e), n) && !(e.Tails? && e.node == n)
    ensures e.Flushes? && e.node == n ==> w.nodes[n].Up? && Next(m, w, e).nodes[n].Up?
    ensures e.Flushes? && e.node == n ==> Next(m, w, e).nodes[n].shared.viewState == w.nodes[n].shared.viewState
  {
    NodeNext(m, w, e, n);
  }

  /** On every run a node that could not read the log stays where it is until it is restarted: it applies nothing more,
      publishes nothing more, and whoever proposes through it is told so. */
  lemma {:induction false} UnreadableStops<S, C, R>(
      m: Machine<S, C, R>, t: Trace<S, C, R>, i: nat, j: nat, n: nat, a: TailAction)
    requires IsRun(m, t) && i < j < |t.worlds| && t.events[i] == Tails(n, a)
    requires StepAt(m, t, i) && Unreadable(m, t.worlds[i], n, a)
    requires forall k | i < k < j :: t.events[k] != Crash(n)
    ensures GaveUp(t.worlds[j], n)
    ensures forall k | i < k < j :: !(t.events[k].Tails? && t.events[k].node == n)
    ensures t.worlds[j].nodes[n].Up? ==>
              t.worlds[i].nodes[n].Up?
              && t.worlds[j].nodes[n].shared.viewState == t.worlds[i].nodes[n].shared.viewState
    decreases j
  {
    if i < j - 1 {
      UnreadableStops(m, t, i, j - 1, n, a);
      assert StepAt(m, t, j - 1) && t.events[j - 1] != Crash(n);
      StepGaveUp(m, t.worlds[j - 1], t.events[j - 1], n);
      NodeNext(m, t.worlds[j - 1], t.events[j - 1], n);
    }
  }

  /** A registration with such a node is refused, and a batch it had already appended is answered with an error. */
  lemma GaveUpAnswers<S, C, R>(m: Machine<S, C, R>, w: World<S, C, R>, n: nat)
    requires GaveUp(w, n) && w.nodes[n].Up?
    ensures Enabled(m, w, Flushes(n, Register)) ==> Next(m, w, Flushes(n, Register)).nodes[n].flusher.Idle?
    ensures w.nodes[n].flusher.Won? && w.nodes[n].flusher.ch !in w.nodes[n].shared.delivered ==>
              Enabled(m, w, Flushes(n, Drop)) && Next(m, w, Flushes(n, Drop)).nodes[n].flusher.Idle?
  {
  }
}
