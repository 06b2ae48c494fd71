/** Any number of nodes replicating one state machine over the shared log table. */
module Replication {
  import opened Bytes
  import opened LogStore

  /** The replicated machine: a deterministic step, its batch codec and its snapshot codec. */
  datatype Machine<!S, !C, !R> = Machine(
    init: S,
    step: (S, C) -> S,
    result: (S, C) -> R,
    fits: seq<C> -> bool,
    encode: seq<C> -> seq<byte>,
    decode: seq<byte> -> Option<seq<C>>,
    good: S -> bool,
    sized: S -> bool,
    save: S -> seq<byte>,
    load: seq<byte> -> Option<S>)

  /** The state after a batch; a failed command leaves the state alone. */
  ghost function RunBatch<S, C, R>(m: Machine<S, C, R>, s: S, batch: seq<C>): S {
    if batch == [] then s else m.step(RunBatch(m, s, batch[..|batch| - 1]), batch[|batch| - 1])
  }

  /** Each command's own result, in batch order. */
  ghost function Results<S, C, R>(m: Machine<S, C, R>, s: S, batch: seq<C>): (r: seq<R>)
    ensures |r| == |batch|
  {
    if batch == [] then []
    else
      var n := |batch| - 1;
      Results(m, s, batch[..n]) + [m.result(RunBatch(m, s, batch[..n]), batch[n])]
  }

  /** What the replicated machine must provide. */
  ghost predicate Lawful<S(!new), C(!new), R>(m: Machine<S, C, R>) {
    && (forall b :: m.fits(b) ==> m.decode(m.encode(b)) == Some(b))
    && (forall s :: m.good(s) && m.sized(s) ==> m.load(m.save(s)) == Some(s))
    && m.good(m.init)
    && (forall s, b :: m.good(s) && m.fits(b) ==> m.good(RunBatch(m, s, b)))
  }

  /** The state after the first `n` rows of the history. */
  ghost function StateAt<S, C, R>(m: Machine<S, C, R>, hist: seq<seq<C>>, n: nat): S
    requires n <= |hist|
  {
    if n == 0 then m.init else RunBatch(m, StateAt(m, hist, n - 1), hist[n - 1])
  }

  ghost function ResultsAt<S, C, R>(m: Machine<S, C, R>, hist: seq<seq<C>>, n: nat): seq<R>
    requires 0 < n <= |hist|
  {
    Results(m, StateAt(m, hist, n - 1), hist[n - 1])
  }

  // ---- a node: one tailer, one flusher, and what they share ----

  /** Where the tail loop stands. `Delivering` has published a row's view but not yet answered its waiter; `Retaining`
      has published a snapshot's view, having stood at `from`, but not yet dropped the registrations it covers;
      `Saving` and `Truncating` have a store call in flight. */
  datatype Phase<R> =
    | Ready
    | Rows(rows: seq<Row>)
    | Delivering(idx: nat, results: seq<R>, rest: seq<Row>)
    | Gap
    | Retaining(from: nat)
    | Saving(idx: nat, payload: seq<byte>)
    | Truncating(upTo: nat)
    | Halted

  datatype Tailer<S, R> = Tailer(state: S, applied: nat, phase: Phase<R>)

  /** A one-shot result channel, made for one index. */
  datatype Channel = Channel(idx: nat, serial: nat)

  datatype Shared<S, R> = Shared(
    viewIdx: nat, viewState: S, lastSeen: nat,
    pending: map<nat, Channel>, delivered: map<Channel, seq<R>>, serial: nat, poisoned: bool)

  datatype Flusher<C> =
    | Idle
    | Sending(batch: seq<C>)
    | Loaded(batch: seq<C>, next: nat)
    | Registered(batch: seq<C>, next: nat, ch: Channel)
    | Won(batch: seq<C>, next: nat, ch: Channel)
    | LostSlot(batch: seq<C>, next: nat)
    | FailedSlot(next: nat)
    | Refreshing(batch: seq<C>)

  datatype Node<S, C, R> =
    | Booting(tail: Tailer<S, R>)
    | Up(tail: Tailer<S, R>, shared: Shared<S, R>, flusher: Flusher<C>)
    | Failed

  /** A statement sent to the store. */
  datatype Write<C> = Entry(idx: nat, batch: seq<C>) | Save(idx: nat, payload: seq<byte>) | Cut(upTo: nat)

  /** `orphans` are statements whose issuer no longer waits for them; they may still land. */
  datatype World<S, C, R> = World(
    store: Store, nodes: map<nat, Node<S, C, R>>, orphans: seq<Write<C>>, hist: seq<seq<C>>)

  /** An append takes only a free index. */
  ghost function Perform<S, C, R>(m: Machine<S, C, R>, store: Store, wr: Write<C>): Store {
    match wr
    case Entry(idx, batch) => if idx in store.log then store else Insert(store, idx, m.encode(batch))
    case Save(idx, payload) => SaveSnapshot(store, idx, payload)
    case Cut(upTo) => Truncated(store, upTo)
  }

  /** A row inserted just beyond the tip extends the history; any other insertion rewrites a truncated slot. */
  ghost function Extend<C>(hist: seq<seq<C>>, store: Store, wr: Write<C>): seq<seq<C>> {
    if wr.Entry? && wr.idx !in store.log && wr.idx == |hist| + 1 then hist + [wr.batch] else hist
  }

  // ---- tailer ----

  /** Start from the snapshot row, or from nothing. */
  ghost function Boot<S, C, R>(m: Machine<S, C, R>, store: Store): Node<S, C, R> {
    if store.snapshot.None? then Booting(Tailer(m.init, 0, Ready))
    else
      var s := m.load(store.snapshot.value.1);
      if s.None? then Failed else Booting(Tailer(s.value, store.snapshot.value.0, Ready))
  }

  /** An empty fetch ends a cold start; otherwise the rows are taken one at a time. */
  ghost function Fetch<S, C, R>(node: Node<S, C, R>, store: Store, limit: nat): Node<S, C, R>
    requires !node.Failed?
  {
    var rows := RowsAfter(store, node.tail.applied, limit);
    if rows != [] then node.(tail := node.tail.(phase := Rows(rows)))
    else if node.Up? then node
    else
      Up(node.tail, Shared(node.tail.applied, node.tail.state, node.tail.applied, map[], map[], 0, false), Idle)
  }

  ghost function Poison<S, C, R>(node: Node<S, C, R>): Node<S, C, R>
    requires !node.Failed?
  {
    if node.Booting? then Failed
    else Up(node.tail.(phase := Halted), node.shared.(pending := map[], poisoned := true), node.flusher)
  }

  ghost function Publish<S, R>(sh: Shared<S, R>, idx: nat, state: S): Shared<S, R> {
    sh.(viewIdx := idx, viewState := state, lastSeen := Max(sh.lastSeen, idx))
  }

  /** A node that serves readers publishes the new view before it answers anyone. */
  ghost function ApplyRow<S, C, R>(m: Machine<S, C, R>, node: Node<S, C, R>): Node<S, C, R>
    requires !node.Failed? && node.tail.phase.Rows? && node.tail.phase.rows != []
  {
    var row, rest := node.tail.phase.rows[0], node.tail.phase.rows[1..];
    var batch := m.decode(row.1);
    if row.0 > node.tail.applied + 1 then node.(tail := node.tail.(phase := Gap))
    else if batch.None? then Poison(node)
    else
      var state := RunBatch(m, node.tail.state, batch.value);
      if node.Booting? then Booting(Tailer(state, row.0, Rows(rest)))
      else
        var results := Results(m, node.tail.state, batch.value);
        Up(Tailer(state, row.0, Delivering(row.0, results, rest)), Publish(node.shared, row.0, state), node.flusher)
  }

  /** Hands the results to whoever registered for the index, if anyone did. */
  ghost function Deliver<S, C, R>(node: Node<S, C, R>): Node<S, C, R>
    requires node.Up? && node.tail.phase.Delivering?
  {
    var p, sh := node.tail.phase, node.shared;
    var tail := node.tail.(phase := Rows(p.rest));
    if p.idx !in sh.pending then Up(tail, sh, node.flusher)
    else
      Up(tail, sh.(pending := sh.pending - {p.idx}, delivered := sh.delivered[sh.pending[p.idx] := p.results]),
         node.flusher)
  }

  /** Reinstall from the stored snapshot and publish it. */
  ghost function Restore<S, C, R>(m: Machine<S, C, R>, node: Node<S, C, R>, store: Store): Node<S, C, R>
    requires !node.Failed?
  {
    if store.snapshot.None? then Poison(node)
    else
      var idx, state := store.snapshot.value.0, m.load(store.snapshot.value.1);
      if state.None? || (node.Up? && idx <= node.tail.applied) then Poison(node)
      else
        if node.Booting? then Booting(Tailer(state.value, idx, Ready))
        else Up(Tailer(state.value, idx, Retaining(node.tail.applied)), Publish(node.shared, idx, state.value),
                node.flusher)
  }

  /** Registrations the installed snapshot covers are dropped: their results cannot be computed here. */
  ghost function Retain<S, C, R>(node: Node<S, C, R>): Node<S, C, R>
    requires node.Up?
  {
    var sh := node.shared;
    Up(node.tail.(phase := Ready),
       sh.(pending := (map i | i in sh.pending && i > node.tail.applied :: sh.pending[i])), node.flusher)
  }

  // ---- actions ----

  datatype TailAction =
    | Fetches(limit: nat) | Applies | Delivers | Restores | RestoreFails | Retains
    | Encodes | Persists | Truncates | NextRound

  datatype FlushAction<C> =
    Take(batch: seq<C>) | Load | Register | Append | AppendFails | Forget | Refresh(last: nat) | GiveUp | Ack | Drop

  ghost predicate TailEnabled<S, C, R>(m: Machine<S, C, R>, node: Node<S, C, R>, a: TailAction)
    requires !node.Failed?
  {
    var phase := node.tail.phase;
    match a
    case Fetches(_) => phase.Ready?
    case Applies => phase.Rows? && phase.rows != []
    case Delivers => node.Up? && phase.Delivering?
    case Restores => phase.Gap?
    case RestoreFails => phase.Gap?
    case Retains => node.Up? && phase.Retaining?
    case Encodes => node.Up? && phase == Rows([]) && m.sized(node.tail.state)
    case Persists => phase.Saving?
    case Truncates => phase.Truncating?
    case NextRound => phase == Rows([]) || phase.Saving? || phase.Truncating?
  }

  /** What `last_idx` may answer. */
  ghost predicate IsTip(store: Store, last: nat) {
    && last >= SnapshotIdx(store) && (forall i | i in store.log :: i <= last)
    && (last == SnapshotIdx(store) || last in store.log)
  }

  ghost predicate FlushEnabled<S, C, R>(m: Machine<S, C, R>, node: Node<S, C, R>, store: Store, a: FlushAction<C>)
    requires node.Up?
  {
    var f := node.flusher;
    match a
    case Take(batch) => f.Idle? && m.fits(batch)
    case Load => f.Sending?
    case Register => f.Loaded?
    case Append => f.Registered?
    case AppendFails => f.Registered?
    case Forget => f.LostSlot? || f.FailedSlot?
    case Refresh(last) => f.Refreshing? && IsTip(store, last)
    case GiveUp => f.Refreshing?
    case Ack => f.Won? && f.ch in node.shared.delivered
    case Drop => f.Won? && f.ch !in node.shared.delivered && f.ch !in node.shared.pending.Values
  }

  ghost function Tail<S, C, R>(m: Machine<S, C, R>, node: Node<S, C, R>, store: Store, a: TailAction): Node<S, C, R>
    requires !node.Failed? && TailEnabled(m, node, a)
  {
    var tail := node.tail;
    match a
    case Fetches(limit) => Fetch(node, store, limit)
    case Applies => ApplyRow(m, node)
    case Delivers => Deliver(node)
    case Restores => Restore(m, node, store)
    case RestoreFails => node.(tail := tail.(phase := Ready))
    case Retains => Retain(node)
    case Encodes => node.(tail := tail.(phase := Saving(tail.applied, m.save(tail.state))))
    case Persists => node.(tail := tail.(phase := Truncating(tail.phase.idx)))
    case Truncates => node.(tail := tail.(phase := Ready))
    case NextRound => node.(tail := tail.(phase := Ready))
  }

  ghost function Flush<S, C, R>(m: Machine<S, C, R>, node: Node<S, C, R>, store: Store, a: FlushAction<C>)
    : Node<S, C, R>
    requires node.Up? && FlushEnabled(m, node, store, a)
  {
    var f, sh := node.flusher, node.shared;
    match a
    case Take(batch) => node.(flusher := Sending(batch))
    case Load => node.(flusher := Loaded(f.batch, sh.lastSeen + 1))
    case Register =>
      if sh.poisoned then node.(flusher := Idle)
      else
        var ch := Channel(f.next, sh.serial);
        node.(shared := sh.(pending := sh.pending[f.next := ch], serial := sh.serial + 1),
              flusher := Registered(f.batch, f.next, ch))
    case Append =>
      if f.next in store.log then node.(flusher := LostSlot(f.batch, f.next))
      else node.(flusher := Won(f.batch, f.next, f.ch))
    case AppendFails => node.(flusher := FailedSlot(f.next))
    case Forget =>
      node.(shared := sh.(pending := sh.pending - {f.next}),
            flusher := if f.FailedSlot? then Idle else Refreshing(f.batch))
    case Refresh(last) => node.(shared := sh.(lastSeen := Max(sh.lastSeen, last)), flusher := Sending(f.batch))
    case GiveUp => node.(flusher := Idle)
    case Ack => node.(flusher := Idle)
    case Drop => node.(flusher := Idle)
  }

  // ---- the system ----

  datatype Event<C> =
    | Start(node: nat) | Crash(node: nat) | Land(at: nat)
    | Tails(node: nat, tailAction: TailAction) | Flushes(node: nat, flushAction: FlushAction<C>)

  ghost predicate Enabled<S, C, R>(m: Machine<S, C, R>, w: World<S, C, R>, e: Event<C>) {
    match e
    case Start(n) => n !in w.nodes
    case Crash(n) => n in w.nodes
    case Land(i) => i < |w.orphans|
    case Tails(n, a) => n in w.nodes && !w.nodes[n].Failed? && TailEnabled(m, w.nodes[n], a)
    case Flushes(n, a) => n in w.nodes && w.nodes[n].Up? && FlushEnabled(m, w.nodes[n], w.store, a)
  }

  /** The statement the tailer has in flight, if any. */
  ghost function TailWrites<S, C, R>(node: Node<S, C, R>): seq<Write<C>> {
    if node.Failed? then []
    else if node.tail.phase.Saving? then [Save(node.tail.phase.idx, node.tail.phase.payload)]
    else if node.tail.phase.Truncating? then [Cut(node.tail.phase.upTo)]
    else []
  }

  /** The append the flusher has in flight, if any. */
  ghost function FlushWrites<S, C, R>(node: Node<S, C, R>): seq<Write<C>> {
    if node.Up? && node.flusher.Registered? then [Entry(node.flusher.next, node.flusher.batch)] else []
  }

  /** The statement the store executes in this event, if any. */
  ghost function Executes<S, C, R>(w: World<S, C, R>, e: Event<C>): (ws: seq<Write<C>>)
    ensures |ws| <= 1
  {
    match e
    case Land(i) => if i < |w.orphans| then [w.orphans[i]] else []
    case Tails(n, a) => if n in w.nodes && (a.Persists? || a.Truncates?) then TailWrites(w.nodes[n]) else []
    case Flushes(n, a) => if n in w.nodes && a.Append? then FlushWrites(w.nodes[n]) else []
    case _ => []
  }

  /** Statements whose outcome nobody waits for after this event. */
  ghost function Orphaned<S, C, R>(w: World<S, C, R>, e: Event<C>): seq<Write<C>> {
    match e
    case Crash(n) => if n in w.nodes then TailWrites(w.nodes[n]) + FlushWrites(w.nodes[n]) else []
    case Tails(n, a) => if n in w.nodes && a.NextRound? then TailWrites(w.nodes[n]) else []
    case Flushes(n, a) => if n in w.nodes && a.AppendFails? then FlushWrites(w.nodes[n]) else []
    case _ => []
  }

  ghost function NodesAfter<S, C, R>(m: Machine<S, C, R>, w: World<S, C, R>, e: Event<C>): map<nat, Node<S, C, R>>
    requires Enabled(m, w, e)
  {
    match e
    case Start(n) => w.nodes[n := Boot(m, w.store)]
    case Crash(n) => w.nodes - {n}
    case Land(_) => w.nodes
    case Tails(n, a) => w.nodes[n := Tail(m, w.nodes[n], w.store, a)]
    case Flushes(n, a) => w.nodes[n := Flush(m, w.nodes[n], w.store, a)]
  }

  ghost function Next<S, C, R>(m: Machine<S, C, R>, w: World<S, C, R>, e: Event<C>): World<S, C, R>
    requires Enabled(m, w, e)
  {
    var nodes, ws := NodesAfter(m, w, e), Executes(w, e);
    var orphans := (if e.Land? then w.orphans[..e.at] + w.orphans[e.at + 1..] else w.orphans) + Orphaned(w, e);
    if ws == [] then World(w.store, nodes, orphans, w.hist)
    else World(Perform(m, w.store, ws[0]), nodes, orphans, Extend(w.hist, w.store, ws[0]))
  }

  /** No append may land on an index the stored snapshot already covers. */
  ghost predicate Guarded<S, C, R>(w: World<S, C, R>, e: Event<C>) {
    forall wr | wr in Executes(w, e) :: wr.Entry? && wr.idx !in w.store.log ==> wr.idx > SnapshotIdx(w.store)
  }

  /** The exact condition: above the snapshot, or the very row that was truncated there. */
  ghost predicate Harmless<S, C, R>(w: World<S, C, R>, e: Event<C>) {
    forall wr | wr in Executes(w, e) :: HarmlessWrite(w.store, w.hist, wr)
  }

  ghost predicate HarmlessWrite<C>(store: Store, hist: seq<seq<C>>, wr: Write<C>) {
    wr.Entry? && wr.idx !in store.log ==>
      wr.idx > SnapshotIdx(store) || (0 < wr.idx <= |hist| && hist[wr.idx - 1] == wr.batch)
  }

  ghost function EmptyWorld<S, C, R>(): World<S, C, R> {
    World(EMPTY_STORE, map[], [], [])
  }

  /** A run from the empty store: the worlds passed through and the events between them. */
  datatype Trace<S, C, R> = Trace(worlds: seq<World<S, C, R>>, events: seq<Event<C>>)

  ghost predicate StepAt<S, C, R>(m: Machine<S, C, R>, t: Trace<S, C, R>, i: nat)
    requires i < |t.events| && |t.worlds| == |t.events| + 1
  {
    Enabled(m, t.worlds[i], t.events[i]) && t.worlds[i + 1] == Next(m, t.worlds[i], t.events[i])
  }

  ghost predicate IsRun<S, C, R>(m: Machine<S, C, R>, t: Trace<S, C, R>) {
    && |t.worlds| == |t.events| + 1 && t.worlds[0] == EmptyWorld()
    && forall i | 0 <= i < |t.events| :: StepAt(m, t, i)
  }

  /** Every event of the run respects the append guard. */
  ghost predicate GuardedRun<S, C, R>(m: Machine<S, C, R>, t: Trace<S, C, R>) {
    IsRun(m, t) && forall i | 0 <= i < |t.events| :: Guarded(t.worlds[i], t.events[i])
  }

  /** Every event of the run is harmless. */
  ghost predicate HarmlessRun<S, C, R>(m: Machine<S, C, R>, t: Trace<S, C, R>) {
    IsRun(m, t) && forall i | 0 <= i < |t.events| :: Harmless(t.worlds[i], t.events[i])
  }

  // ---- what every event keeps ----

  /** Rows carry their history entry, and every index above the snapshot is present. */
  ghost predicate StoreOk<S, C, R>(m: Machine<S, C, R>, store: Store, hist: seq<seq<C>>) {
    && (forall i | i in store.log :: 0 < i <= |hist| && store.log[i] == m.encode(hist[i - 1]))
    && SnapshotIdx(store) <= |hist|
    && (store.snapshot.Some? ==> IsSave(m, store.snapshot.value.0, store.snapshot.value.1, hist))
    && (forall i | SnapshotIdx(store) < i <= |hist| :: i in store.log)
  }

  ghost predicate IsSave<S, C, R>(m: Machine<S, C, R>, idx: nat, payload: seq<byte>, hist: seq<seq<C>>) {
    idx <= |hist| && m.sized(StateAt(m, hist, idx)) && payload == m.save(StateAt(m, hist, idx))
  }

  /** Fetched rows are history rows above `from`, and whatever they skip the snapshot covers. */
  ghost predicate RowsOk<S, C, R>(m: Machine<S, C, R>, rows: seq<Row>, from: nat, snap: nat, hist: seq<seq<C>>) {
    rows == [] ||
    (&& from < rows[0].0 <= |hist| && rows[0].1 == m.encode(hist[rows[0].0 - 1])
     && (rows[0].0 == from + 1 || from < snap)
     && RowsOk(m, rows[1..], rows[0].0, snap, hist))
  }

  ghost predicate PhaseOk<S, C, R>(m: Machine<S, C, R>, phase: Phase<R>, applied: nat, snap: nat, hist: seq<seq<C>>) {
    match phase
    case Ready => true
    case Rows(rows) => RowsOk(m, rows, applied, snap, hist)
    case Delivering(idx, results, rest) =>
      0 < idx == applied <= |hist| && results == ResultsAt(m, hist, idx) && RowsOk(m, rest, applied, snap, hist)
    case Gap => applied < snap
    case Retaining(from) => from <= applied
    case Saving(idx, payload) => IsSave(m, idx, payload, hist)
    case Truncating(upTo) => upTo <= snap
    case Halted => false
  }

  ghost predicate TailOk<S, C, R>(m: Machine<S, C, R>, tail: Tailer<S, R>, snap: nat, hist: seq<seq<C>>) {
    && tail.applied <= |hist| && tail.state == StateAt(m, hist, tail.applied)
    && PhaseOk(m, tail.phase, tail.applied, snap, hist)
  }

  /** The view is the applied state; channels lead to their own index's results. */
  ghost predicate SharedOk<S, C, R>(m: Machine<S, C, R>, sh: Shared<S, R>, tail: Tailer<S, R>, hist: seq<seq<C>>) {
    && sh.viewIdx == tail.applied && sh.viewState == tail.state && !sh.poisoned
    && tail.applied <= sh.lastSeen <= |hist|
    && (forall i | i in sh.pending :: sh.pending[i].idx == i)
    && (forall ch | ch in sh.delivered ::
          0 < ch.idx <= sh.viewIdx && ch.idx <= |hist| && sh.delivered[ch] == ResultsAt(m, hist, ch.idx))
  }

  ghost predicate FlushOk<S, C, R>(m: Machine<S, C, R>, f: Flusher<C>, hist: seq<seq<C>>) {
    match f
    case Idle => true
    case Sending(batch) => m.fits(batch)
    case Loaded(batch, next) => m.fits(batch) && 0 < next <= |hist| + 1
    case Registered(batch, next, ch) => m.fits(batch) && 0 < next <= |hist| + 1 && ch.idx == next
    case Won(batch, next, ch) => 0 < next <= |hist| && hist[next - 1] == batch && ch.idx == next
    case LostSlot(batch, _) => m.fits(batch)
    case FailedSlot(_) => true
    case Refreshing(batch) => m.fits(batch)
  }

  ghost predicate NodeOk<S, C, R>(m: Machine<S, C, R>, node: Node<S, C, R>, snap: nat, hist: seq<seq<C>>) {
    && !node.Failed? && TailOk(m, node.tail, snap, hist)
    && (node.Up? ==> SharedOk(m, node.shared, node.tail, hist) && FlushOk(m, node.flusher, hist))
  }

  ghost predicate WriteOk<S, C, R>(m: Machine<S, C, R>, wr: Write<C>, snap: nat, hist: seq<seq<C>>) {
    match wr
    case Entry(idx, batch) => m.fits(batch) && 0 < idx <= |hist| + 1
    case Save(idx, payload) => IsSave(m, idx, payload, hist)
    case Cut(upTo) => upTo <= snap
  }

  ghost predicate Ok<S, C, R>(m: Machine<S, C, R>, w: World<S, C, R>) {
    && (forall b | b in w.hist :: m.fits(b))
    && StoreOk(m, w.store, w.hist)
    && (forall n | n in w.nodes :: NodeOk(m, w.nodes[n], SnapshotIdx(w.store), w.hist))
    && (forall wr | wr in w.orphans :: WriteOk(m, wr, SnapshotIdx(w.store), w.hist))
  }

  // ---- history only grows ----

  lemma {:induction false} StateAtPrefix<S, C, R>(m: Machine<S, C, R>, hist: seq<seq<C>>, more: seq<seq<C>>, n: nat)
    requires hist <= more && n <= |hist|
    ensures StateAt(m, hist, n) == StateAt(m, more, n)
    ensures n > 0 ==> ResultsAt(m, hist, n) == ResultsAt(m, more, n)
  {
    if n > 0 {
      StateAtPrefix(m, hist, more, n - 1);
    }
  }

  lemma IsSaveGrows<S, C, R>(m: Machine<S, C, R>, idx: nat, payload: seq<byte>, hist: seq<seq<C>>, more: seq<seq<C>>)
    requires IsSave(m, idx, payload, hist) && hist <= more
    ensures IsSave(m, idx, payload, more)
  {
    StateAtPrefix(m, hist, more, idx);
  }

  lemma {:induction false} RowsOkGrow<S, C, R>(
      m: Machine<S, C, R>, rows: seq<Row>, from: nat, snap: nat, snap': nat, hist: seq<seq<C>>, more: seq<seq<C>>)
    requires RowsOk(m, rows, from, snap, hist) && snap <= snap' && hist <= more
    ensures RowsOk(m, rows, from, snap', more)
  {
    if rows != [] {
      RowsOkGrow(m, rows[1..], rows[0].0, snap, snap', hist, more);
    }
  }

  /** A node stays correct while the history grows and the snapshot advances. */
  lemma NodeOkGrows<S, C, R>(
      m: Machine<S, C, R>, node: Node<S, C, R>, snap: nat, snap': nat, hist: seq<seq<C>>, more: seq<seq<C>>)
    requires NodeOk(m, node, snap, hist) && snap <= snap' && hist <= more
    ensures NodeOk(m, node, snap', more)
  {
    StateAtPrefix(m, hist, more, node.tail.applied);
    match node.tail.phase {
      case Rows(rows) => RowsOkGrow(m, rows, node.tail.applied, snap, snap', hist, more);
      case Delivering(_, _, rest) => RowsOkGrow(m, rest, node.tail.applied, snap, snap', hist, more);
      case Saving(idx, payload) => IsSaveGrows(m, idx, payload, hist, more);
      case _ =>
    }
    if node.Up? {
      forall ch | ch in node.shared.delivered
        ensures node.shared.delivered[ch] == ResultsAt(m, more, ch.idx)
      {
        StateAtPrefix(m, hist, more, ch.idx);
      }
    }
  }

  lemma WriteOkGrows<S, C, R>(
      m: Machine<S, C, R>, wr: Write<C>, snap: nat, snap': nat, hist: seq<seq<C>>, more: seq<seq<C>>)
    requires WriteOk(m, wr, snap, hist) && snap <= snap' && hist <= more
    ensures WriteOk(m, wr, snap', more)
  {
    if wr.Save? {
      IsSaveGrows(m, wr.idx, wr.payload, hist, more);
    }
  }

  // ---- the store ----

  /** A harmless statement keeps the store aligned with a history that only grows. */
  lemma PerformKeeps<S, C, R>(m: Machine<S, C, R>, store: Store, hist: seq<seq<C>>, wr: Write<C>)
    requires StoreOk(m, store, hist) && WriteOk(m, wr, SnapshotIdx(store), hist)
    requires HarmlessWrite(store, hist, wr)
    ensures StoreOk(m, Perform(m, store, wr), Extend(hist, store, wr))
    ensures hist <= Extend(hist, store, wr) && SnapshotIdx(store) <= SnapshotIdx(Perform(m, store, wr))
    ensures wr.Entry? && wr.idx !in store.log ==>
              wr.idx <= |Extend(hist, store, wr)| && Extend(hist, store, wr)[wr.idx - 1] == wr.batch
    ensures wr.Entry? && wr.idx !in store.log && wr.idx > SnapshotIdx(store) ==> wr.idx == |hist| + 1
  {
    if wr.Entry? && wr.idx !in store.log && wr.idx == |hist| + 1 && store.snapshot.Some? {
      IsSaveGrows(m, store.snapshot.value.0, store.snapshot.value.1, hist, hist + [wr.batch]);
    }
  }

  // ---- the tailer ----

  lemma {:induction false} GoodAt<S(!new), C(!new), R>(m: Machine<S, C, R>, hist: seq<seq<C>>, n: nat)
    requires Lawful(m) && n <= |hist| && forall b | b in hist :: m.fits(b)
    ensures m.good(StateAt(m, hist, n))
  {
    if n > 0 {
      GoodAt(m, hist, n - 1);
      assert m.fits(hist[n - 1]);
    }
  }

  /** The stored snapshot loads back to the history's state at its index. */
  lemma SnapshotLoads<S(!new), C(!new), R>(m: Machine<S, C, R>, store: Store, hist: seq<seq<C>>)
    requires Lawful(m) && StoreOk(m, store, hist) && (forall b | b in hist :: m.fits(b)) && store.snapshot.Some?
    ensures m.load(store.snapshot.value.1) == Some(StateAt(m, hist, store.snapshot.value.0))
  {
    GoodAt(m, hist, store.snapshot.value.0);
  }

  lemma BootOk<S(!new), C(!new), R>(m: Machine<S, C, R>, store: Store, hist: seq<seq<C>>)
    requires Lawful(m) && StoreOk(m, store, hist) && forall b | b in hist :: m.fits(b)
    ensures NodeOk(m, Boot(m, store), SnapshotIdx(store), hist)
  {
    if store.snapshot.Some? {
      SnapshotLoads(m, store, hist);
    }
  }

  /** Whatever a fetch skips is below the snapshot. */
  lemma {:induction false} FetchedOk<S, C, R>(
      m: Machine<S, C, R>, store: Store, hist: seq<seq<C>>, after: nat, limit: nat)
    requires StoreOk(m, store, hist)
    ensures RowsOk(m, RowsAfter(store, after, limit), after, SnapshotIdx(store), hist)
    decreases limit
  {
    var rows := RowsAfter(store, after, limit);
    if rows != [] {
      FetchedOk(m, store, hist, rows[0].0, limit - 1);
      assert after + 1 in store.log ==> after + 1 in IdsAfter(store, after);
      assert rows[0].0 <= |hist|;
    }
  }

  lemma FetchKeeps<S, C, R>(m: Machine<S, C, R>, node: Node<S, C, R>, store: Store, hist: seq<seq<C>>, limit: nat)
    requires StoreOk(m, store, hist) && NodeOk(m, node, SnapshotIdx(store), hist) && node.tail.phase.Ready?
    ensures NodeOk(m, Fetch(node, store, limit), SnapshotIdx(store), hist)
  {
    FetchedOk(m, store, hist, node.tail.applied, limit);
  }

  /** Applying the next row moves the node one row along the history and holds that row's own results. */
  lemma ApplyKeeps<S(!new), C(!new), R>(m: Machine<S, C, R>, node: Node<S, C, R>, snap: nat, hist: seq<seq<C>>)
    requires Lawful(m) && NodeOk(m, node, snap, hist) && TailEnabled(m, node, Applies)
    requires forall b | b in hist :: m.fits(b)
    ensures NodeOk(m, ApplyRow(m, node), snap, hist)
  {
    var row := node.tail.phase.rows[0];
    if row.0 <= node.tail.applied + 1 {
      assert m.fits(hist[row.0 - 1]);
      assert StateAt(m, hist, row.0) == RunBatch(m, node.tail.state, hist[row.0 - 1]);
    }
  }

  lemma RestoreKeeps<S(!new), C(!new), R>(m: Machine<S, C, R>, node: Node<S, C, R>, store: Store, hist: seq<seq<C>>)
    requires Lawful(m) && StoreOk(m, store, hist) && forall b | b in hist :: m.fits(b)
    requires NodeOk(m, node, SnapshotIdx(store), hist) && node.tail.phase.Gap?
    ensures NodeOk(m, Restore(m, node, store), SnapshotIdx(store), hist)
  {
    SnapshotLoads(m, store, hist);
  }

  lemma RetainKeeps<S, C, R>(m: Machine<S, C, R>, node: Node<S, C, R>, snap: nat, hist: seq<seq<C>>)
    requires NodeOk(m, node, snap, hist) && node.Up? && node.tail.phase.Retaining?
    ensures NodeOk(m, Retain(node), snap, hist)
  {
  }

  lemma DeliverKeeps<S, C, R>(m: Machine<S, C, R>, node: Node<S, C, R>, snap: nat, hist: seq<seq<C>>)
    requires NodeOk(m, node, snap, hist) && node.Up? && node.tail.phase.Delivering?
    ensures NodeOk(m, Deliver(node), snap, hist)
  {
  }

  /** Moving on with nothing in hand, or with the encoded state, or with a truncation the snapshot covers. */
  lemma PhaseKeeps<S, C, R>(m: Machine<S, C, R>, node: Node<S, C, R>, snap: nat, hist: seq<seq<C>>, phase: Phase<R>)
    requires NodeOk(m, node, snap, hist) && PhaseOk(m, phase, node.tail.applied, snap, hist)
    requires !node.tail.phase.Delivering?
    ensures NodeOk(m, node.(tail := node.tail.(phase := phase)), snap, hist)
  {
  }

  lemma PersistKeeps<S, C, R>(m: Machine<S, C, R>, node: Node<S, C, R>, store: Store, hist: seq<seq<C>>)
    requires NodeOk(m, node, SnapshotIdx(store), hist) && node.tail.phase.Saving?
    ensures
      var stored := SaveSnapshot(store, node.tail.phase.idx, node.tail.phase.payload);
      NodeOk(m, node.(tail := node.tail.(phase := Truncating(node.tail.phase.idx))), SnapshotIdx(stored), hist)
  {
    var stored := SaveSnapshot(store, node.tail.phase.idx, node.tail.phase.payload);
    NodeOkGrows(m, node, SnapshotIdx(store), SnapshotIdx(stored), hist, hist);
    PhaseKeeps(m, node, SnapshotIdx(stored), hist, Truncating(node.tail.phase.idx));
  }

  lemma TailNodeKeeps<S(!new), C(!new), R>(
      m: Machine<S, C, R>, node: Node<S, C, R>, store: Store, hist: seq<seq<C>>, a: TailAction)
    requires Lawful(m) && StoreOk(m, store, hist) && forall b | b in hist :: m.fits(b)
    requires NodeOk(m, node, SnapshotIdx(store), hist) && TailEnabled(m, node, a) && !a.Persists?
    ensures NodeOk(m, Tail(m, node, store, a), SnapshotIdx(store), hist)
  {
    var snap := SnapshotIdx(store);
    match a
    case Fetches(limit) => FetchKeeps(m, node, store, hist, limit);
    case Applies => ApplyKeeps(m, node, snap, hist);
    case Delivers => DeliverKeeps(m, node, snap, hist);
    case Restores => RestoreKeeps(m, node, store, hist);
    case Retains => RetainKeeps(m, node, snap, hist);
    case Encodes => PhaseKeeps(m, node, snap, hist, Saving(node.tail.applied, m.save(node.tail.state)));
    case _ => PhaseKeeps(m, node, snap, hist, Ready);
  }

  lemma TailKeeps<S(!new), C(!new), R>(m: Machine<S, C, R>, w: World<S, C, R>, n: nat, a: TailAction)
    requires Lawful(m) && Ok(m, w) && Enabled(m, w, Tails(n, a))
    ensures
      var v := Next(m, w, Tails(n, a));
      NodeOk(m, v.nodes[n], SnapshotIdx(v.store), v.hist)
  {
    assert NodeOk(m, w.nodes[n], SnapshotIdx(w.store), w.hist);
    if a.Persists? {
      PersistKeeps(m, w.nodes[n], w.store, w.hist);
    } else {
      TailNodeKeeps(m, w.nodes[n], w.store, w.hist, a);
    }
  }

  // ---- the flusher ----

  lemma FlushKeeps<S, C, R>(m: Machine<S, C, R>, w: World<S, C, R>, n: nat, a: FlushAction<C>)
    requires Ok(m, w) && Enabled(m, w, Flushes(n, a)) && Harmless(w, Flushes(n, a))
    ensures
      var v := Next(m, w, Flushes(n, a));
      NodeOk(m, v.nodes[n], SnapshotIdx(v.store), v.hist)
  {
    var node := w.nodes[n];
    if a.Append? {
      var wr := Entry(node.flusher.next, node.flusher.batch);
      assert Executes(w, Flushes(n, a)) == [wr];
      PerformKeeps(m, w.store, w.hist, wr);
      NodeOkGrows(m, node, SnapshotIdx(w.store), SnapshotIdx(Perform(m, w.store, wr)), w.hist,
                  Extend(w.hist, w.store, wr));
    }
  }

  // ---- every run ----

  lemma ExecutedOk<S, C, R>(m: Machine<S, C, R>, w: World<S, C, R>, e: Event<C>)
    requires Ok(m, w) && Enabled(m, w, e)
    ensures forall wr | wr in Executes(w, e) :: WriteOk(m, wr, SnapshotIdx(w.store), w.hist)
    ensures forall wr | wr in Orphaned(w, e) :: WriteOk(m, wr, SnapshotIdx(w.store), w.hist)
  {
    if e.Crash? || e.Tails? || e.Flushes? {
      assert NodeOk(m, w.nodes[e.node], SnapshotIdx(w.store), w.hist);
    }
  }

  lemma StoreKeeps<S, C, R>(m: Machine<S, C, R>, w: World<S, C, R>, e: Event<C>)
    requires Ok(m, w) && Enabled(m, w, e) && Harmless(w, e)
    ensures
      var v := Next(m, w, e);
      && StoreOk(m, v.store, v.hist) && w.hist <= v.hist && SnapshotIdx(w.store) <= SnapshotIdx(v.store)
      && forall b | b in v.hist :: m.fits(b)
  {
    ExecutedOk(m, w, e);
    var ws := Executes(w, e);
    if ws != [] {
      assert ws[0] in ws;
      PerformKeeps(m, w.store, w.hist, ws[0]);
    }
  }

  lemma OrphansKeep<S, C, R>(m: Machine<S, C, R>, w: World<S, C, R>, e: Event<C>)
    requires Ok(m, w) && Enabled(m, w, e) && Harmless(w, e)
    ensures
      var v := Next(m, w, e);
      forall wr | wr in v.orphans :: WriteOk(m, wr, SnapshotIdx(v.store), v.hist)
  {
    var v := Next(m, w, e);
    StoreKeeps(m, w, e);
    ExecutedOk(m, w, e);
    forall wr | wr in v.orphans ensures WriteOk(m, wr, SnapshotIdx(v.store), v.hist) {
      assert wr in w.orphans || wr in Orphaned(w, e);
      WriteOkGrows(m, wr, SnapshotIdx(w.store), SnapshotIdx(v.store), w.hist, v.hist);
    }
  }

  /** Every harmless event keeps the whole invariant, extends the history and never moves the snapshot back. */
  lemma StepKeeps<S(!new), C(!new), R>(m: Machine<S, C, R>, w: World<S, C, R>, e: Event<C>)
    requires Lawful(m) && Ok(m, w) && Enabled(m, w, e) && Harmless(w, e)
    ensures Ok(m, Next(m, w, e)) && w.hist <= Next(m, w, e).hist
    ensures SnapshotIdx(w.store) <= SnapshotIdx(Next(m, w, e).store)
  {
    var v := Next(m, w, e);
    StoreKeeps(m, w, e);
    OrphansKeep(m, w, e);
    forall n | n in v.nodes ensures NodeOk(m, v.nodes[n], SnapshotIdx(v.store), v.hist) {
      if e == Start(n) {
        BootOk(m, w.store, w.hist);
      } else if e.Tails? && e.node == n {
        TailKeeps(m, w, n, e.tailAction);
      } else if e.Flushes? && e.node == n {
        FlushKeeps(m, w, n, e.flushAction);
      } else {
        NodeOkGrows(m, w.nodes[n], SnapshotIdx(w.store), SnapshotIdx(v.store), w.hist, v.hist);
      }
    }
  }

  /** Encoding is injective on batches that fit. */
  lemma EncodeInjective<S(!new), C(!new), R>(m: Machine<S, C, R>, a: seq<C>, b: seq<C>)
    requires Lawful(m) && m.fits(a) && m.fits(b) && m.encode(a) == m.encode(b)
    ensures a == b
  {
    assert m.decode(m.encode(a)) == Some(a) && m.decode(m.encode(b)) == Some(b);
  }

  /** A store that still matches the history was given a harmless statement. */
  lemma OnlyHarmlessKeeps<S(!new), C(!new), R>(m: Machine<S, C, R>, store: Store, hist: seq<seq<C>>, wr: Write<C>)
    requires Lawful(m) && StoreOk(m, store, hist) && WriteOk(m, wr, SnapshotIdx(store), hist)
    requires forall b | b in hist :: m.fits(b)
    ensures StoreOk(m, Perform(m, store, wr), Extend(hist, store, wr)) ==> HarmlessWrite(store, hist, wr)
  {
    if wr.Entry? && wr.idx !in store.log && wr.idx <= SnapshotIdx(store) {
      assert Perform(m, store, wr).log[wr.idx] == m.encode(wr.batch);
      assert hist[wr.idx - 1] in hist;
      if m.encode(wr.batch) == m.encode(hist[wr.idx - 1]) {
        EncodeInjective(m, wr.batch, hist[wr.idx - 1]);
      }
    }
  }

  /** The invariant survives an event exactly when the event is harmless. */
  lemma StepKeepsIff<S(!new), C(!new), R>(m: Machine<S, C, R>, w: World<S, C, R>, e: Event<C>)
    requires Lawful(m) && Ok(m, w) && Enabled(m, w, e)
    ensures Ok(m, Next(m, w, e)) <==> Harmless(w, e)
  {
    if Harmless(w, e) {
      StepKeeps(m, w, e);
    }
    ExecutedOk(m, w, e);
    if Executes(w, e) != [] {
      assert Executes(w, e)[0] in Executes(w, e);
      OnlyHarmlessKeeps(m, w.store, w.hist, Executes(w, e)[0]);
    }
  }

  lemma RunStep<S(!new), C(!new), R>(m: Machine<S, C, R>, t: Trace<S, C, R>, i: nat)
    requires Lawful(m) && HarmlessRun(m, t) && i < |t.events| && Ok(m, t.worlds[i])
    ensures Ok(m, t.worlds[i + 1]) && t.worlds[i].hist <= t.worlds[i + 1].hist
    ensures SnapshotIdx(t.worlds[i].store) <= SnapshotIdx(t.worlds[i + 1].store)
  {
    assert StepAt(m, t, i) && Harmless(t.worlds[i], t.events[i]);
    StepKeeps(m, t.worlds[i], t.events[i]);
  }

  lemma GuardedIsHarmless<S, C, R>(w: World<S, C, R>, e: Event<C>)
    requires Guarded(w, e)
    ensures Harmless(w, e)
  {
  }

  /** The append guard is enough. */
  lemma GuardedRunIsHarmless<S, C, R>(m: Machine<S, C, R>, t: Trace<S, C, R>)
    requires GuardedRun(m, t)
    ensures HarmlessRun(m, t)
  {
    forall i | 0 <= i < |t.events| ensures Harmless(t.worlds[i], t.events[i]) {
      GuardedIsHarmless(t.worlds[i], t.events[i]);
    }
  }

  /** The invariant holds throughout every harmless run of any number of nodes. */
  lemma {:induction false} RunKeeps<S(!new), C(!new), R>(m: Machine<S, C, R>, t: Trace<S, C, R>, i: nat)
    requires Lawful(m) && HarmlessRun(m, t) && i < |t.worlds|
    ensures Ok(m, t.worlds[i])
    decreases i
  {
    if i > 0 {
      RunKeeps(m, t, i - 1);
      RunStep(m, t, i - 1);
    }
  }

  ghost predicate OkThroughout<S, C, R>(m: Machine<S, C, R>, t: Trace<S, C, R>) {
    forall i | 0 <= i < |t.worlds| :: Ok(m, t.worlds[i])
  }

  /** A run keeps the invariant throughout if and only if every event of it is harmless. */
  lemma {:induction false} RunKeepsIff<S(!new), C(!new), R>(m: Machine<S, C, R>, t: Trace<S, C, R>)
    requires Lawful(m) && IsRun(m, t)
    ensures OkThroughout(m, t) <==> HarmlessRun(m, t)
  {
    if HarmlessRun(m, t) {
      forall i | 0 <= i < |t.worlds| ensures Ok(m, t.worlds[i]) {
        RunKeeps(m, t, i);
      }
    }
    if OkThroughout(m, t) {
      forall i | 0 <= i < |t.events| ensures Harmless(t.worlds[i], t.events[i]) {
        assert StepAt(m, t, i) && Ok(m, t.worlds[i]) && Ok(m, t.worlds[i + 1]);
        StepKeepsIff(m, t.worlds[i], t.events[i]);
      }
    }
  }

  /** Along a run the one history only grows and the stored snapshot never regresses. */
  lemma {:induction false} HistoryGrows<S(!new), C(!new), R>(m: Machine<S, C, R>, t: Trace<S, C, R>, i: nat, j: nat)
    requires Lawful(m) && HarmlessRun(m, t) && i <= j < |t.worlds|
    ensures t.worlds[i].hist <= t.worlds[j].hist
    ensures SnapshotIdx(t.worlds[i].store) <= SnapshotIdx(t.worlds[j].store)
    decreases j
  {
    if i < j {
      HistoryGrows(m, t, i, j - 1);
      RunKeeps(m, t, j - 1);
      RunStep(m, t, j - 1);
    }
  }

  /** The node's state is the fold of the first `applied` rows of the history. */
  ghost predicate Follows<S, C, R>(m: Machine<S, C, R>, node: Node<S, C, R>, hist: seq<seq<C>>) {
    !node.Failed? && node.tail.applied <= |hist| && node.tail.state == StateAt(m, hist, node.tail.applied)
  }

  /** Agreement: nodes that stand at the same index, at any two moments of a run, hold the same state. */
  lemma Agreement<S(!new), C(!new), R>(m: Machine<S, C, R>, t: Trace<S, C, R>, i: nat, j: nat, p: nat, q: nat)
    requires Lawful(m) && HarmlessRun(m, t) && i <= j < |t.worlds|
    requires p in t.worlds[i].nodes && q in t.worlds[j].nodes
    ensures
      var v, w := t.worlds[i].nodes[p], t.worlds[j].nodes[q];
      && Follows(m, v, t.worlds[j].hist) && Follows(m, w, t.worlds[j].hist)
      && (v.tail.applied == w.tail.applied ==> v.tail.state == w.tail.state)
  {
    var v, w := t.worlds[i], t.worlds[j];
    RunKeeps(m, t, i);
    RunKeeps(m, t, j);
    HistoryGrows(m, t, i, j);
    assert NodeOk(m, v.nodes[p], SnapshotIdx(v.store), v.hist) && NodeOk(m, w.nodes[q], SnapshotIdx(w.store), w.hist);
    StateAtPrefix(m, v.hist, w.hist, v.nodes[p].tail.applied);
  }

  /** No node failed to boot, halted or was poisoned; a node that met a gap has a newer snapshot to install. */
  ghost predicate Sound<S, C, R>(w: World<S, C, R>, node: Node<S, C, R>) {
    && !node.Failed? && !node.tail.phase.Halted? && (node.Up? ==> !node.shared.poisoned)
    && (node.tail.phase.Gap? ==> w.store.snapshot.Some? && w.store.snapshot.value.0 > node.tail.applied)
  }

  /** Every index above the stored snapshot is in the log and decodes to its own history row. */
  ghost predicate Complete<S, C, R>(m: Machine<S, C, R>, w: World<S, C, R>) {
    forall i | SnapshotIdx(w.store) < i <= |w.hist| ::
      i in w.store.log && m.decode(w.store.log[i]) == Some(w.hist[i - 1])
  }

  lemma OkIsSafe<S(!new), C(!new), R>(m: Machine<S, C, R>, w: World<S, C, R>)
    requires Lawful(m) && Ok(m, w)
    ensures Complete(m, w) && forall n | n in w.nodes :: Sound(w, w.nodes[n])
  {
    forall i | SnapshotIdx(w.store) < i <= |w.hist|
      ensures i in w.store.log && m.decode(w.store.log[i]) == Some(w.hist[i - 1])
    {
      assert m.fits(w.hist[i - 1]);
    }
    forall n | n in w.nodes ensures Sound(w, w.nodes[n]) {
      assert NodeOk(m, w.nodes[n], SnapshotIdx(w.store), w.hist);
    }
  }

  /** Truncation safety: the log is complete above the snapshot and the recovery failures are unreachable. */
  lemma TruncationSafety<S(!new), C(!new), R>(m: Machine<S, C, R>, t: Trace<S, C, R>, i: nat)
    requires Lawful(m) && HarmlessRun(m, t) && i < |t.worlds|
    ensures Complete(m, t.worlds[i]) && forall n | n in t.worlds[i].nodes :: Sound(t.worlds[i], t.worlds[i].nodes[n])
  {
    RunKeeps(m, t, i);
    OkIsSafe(m, t.worlds[i]);
  }

  /**
   * A proposal about to be answered: the history row at its index is the proposer's own batch, the results are
   * what that batch yields at that point, and the local view already includes it.
   */
  ghost predicate Answered<S, C, R>(m: Machine<S, C, R>, hist: seq<seq<C>>, f: Flusher<C>, sh: Shared<S, R>) {
    && f.Won? && f.ch in sh.delivered && 0 < f.next <= |hist| && hist[f.next - 1] == f.batch
    && sh.delivered[f.ch] == Results(m, StateAt(m, hist, f.next - 1), f.batch)
    && f.next <= sh.viewIdx <= |hist| && sh.viewState == StateAt(m, hist, sh.viewIdx)
  }

  /** Acknowledgement: on every run, an acknowledgement is only ever given for an answered proposal. */
  lemma Acknowledged<S(!new), C(!new), R>(m: Machine<S, C, R>, t: Trace<S, C, R>, i: nat, n: nat)
    requires Lawful(m) && HarmlessRun(m, t) && i < |t.worlds| && Enabled(m, t.worlds[i], Flushes(n, Ack))
    ensures Answered(m, t.worlds[i].hist, t.worlds[i].nodes[n].flusher, t.worlds[i].nodes[n].shared)
  {
    RunKeeps(m, t, i);
    assert NodeOk(m, t.worlds[i].nodes[n], SnapshotIdx(t.worlds[i].store), t.worlds[i].hist);
    NodeAnswers(m, t.worlds[i].nodes[n], SnapshotIdx(t.worlds[i].store), t.worlds[i].hist);
  }

  lemma NodeAnswers<S, C, R>(m: Machine<S, C, R>, node: Node<S, C, R>, snap: nat, hist: seq<seq<C>>)
    requires NodeOk(m, node, snap, hist) && node.Up? && node.flusher.Won? && node.flusher.ch in node.shared.delivered
    ensures Answered(m, hist, node.flusher, node.shared)
  {
    assert FlushOk(m, node.flusher, hist) && SharedOk(m, node.shared, node.tail, hist);
  }

  // ---- nobody waits in vain ----

  /** How far the node has answered its waiters. */
  ghost function Told<S, R>(tail: Tailer<S, R>): nat {
    if tail.phase.Delivering? && tail.applied > 0 then tail.applied - 1
    else if tail.phase.Retaining? then tail.phase.from
    else tail.applied
  }

  ghost predicate Awaits<R>(pending: map<nat, Channel>, ch: Channel) {
    ch.idx in pending && pending[ch.idx] == ch
  }

  /** A registration is in place until its index is answered, and a winner's is gone once it is. */
  ghost predicate WaitOk<S, C, R>(node: Node<S, C, R>) {
    node.Up? ==>
      var f, told, pending := node.flusher, Told(node.tail), node.shared.pending;
      && (f.Registered? || f.Won? ==> f.ch.idx == f.next && (f.next > told ==> Awaits<R>(pending, f.ch)))
      && (f.Won? && f.next <= told ==> !Awaits<R>(pending, f.ch))
  }

  ghost predicate Waits<S, C, R>(w: World<S, C, R>) {
    forall n | n in w.nodes :: WaitOk(w.nodes[n])
  }

  lemma ApplyWaits<S(!new), C(!new), R>(m: Machine<S, C, R>, node: Node<S, C, R>, snap: nat, hist: seq<seq<C>>)
    requires Lawful(m) && NodeOk(m, node, snap, hist) && TailEnabled(m, node, Applies) && WaitOk(node)
    requires forall b | b in hist :: m.fits(b)
    ensures WaitOk(ApplyRow(m, node))
  {
    var row := node.tail.phase.rows[0];
    if row.0 <= node.tail.applied + 1 {
      assert m.fits(hist[row.0 - 1]);
    }
  }

  lemma RestoreWaits<S(!new), C(!new), R>(m: Machine<S, C, R>, node: Node<S, C, R>, store: Store, hist: seq<seq<C>>)
    requires Lawful(m) && StoreOk(m, store, hist) && forall b | b in hist :: m.fits(b)
    requires NodeOk(m, node, SnapshotIdx(store), hist) && node.tail.phase.Gap? && WaitOk(node)
    ensures WaitOk(Restore(m, node, store))
  {
    SnapshotLoads(m, store, hist);
  }

  lemma RetainWaits<S, C, R>(m: Machine<S, C, R>, node: Node<S, C, R>, snap: nat, hist: seq<seq<C>>)
    requires NodeOk(m, node, snap, hist) && node.Up? && node.tail.phase.Retaining? && WaitOk(node)
    ensures WaitOk(Retain(node))
  {
  }

  lemma DeliverWaits<S, C, R>(m: Machine<S, C, R>, node: Node<S, C, R>, snap: nat, hist: seq<seq<C>>)
    requires NodeOk(m, node, snap, hist) && node.Up? && node.tail.phase.Delivering? && WaitOk(node)
    ensures WaitOk(Deliver(node))
  {
  }

  lemma TailWaits<S(!new), C(!new), R>(m: Machine<S, C, R>, w: World<S, C, R>, n: nat, a: TailAction)
    requires Lawful(m) && Ok(m, w) && Enabled(m, w, Tails(n, a)) && WaitOk(w.nodes[n])
    ensures WaitOk(Tail(m, w.nodes[n], w.store, a))
  {
    assert NodeOk(m, w.nodes[n], SnapshotIdx(w.store), w.hist);
    match a
    case Applies => ApplyWaits(m, w.nodes[n], SnapshotIdx(w.store), w.hist);
    case Delivers => DeliverWaits(m, w.nodes[n], SnapshotIdx(w.store), w.hist);
    case Restores => RestoreWaits(m, w.nodes[n], w.store, w.hist);
    case Retains => RetainWaits(m, w.nodes[n], SnapshotIdx(w.store), w.hist);
    case _ =>
  }

  /** Under the guard a winner's index is one its own tailer has not answered yet. */
  lemma FlushWaits<S, C, R>(m: Machine<S, C, R>, w: World<S, C, R>, n: nat, a: FlushAction<C>)
    requires Ok(m, w) && Enabled(m, w, Flushes(n, a)) && Guarded(w, Flushes(n, a)) && WaitOk(w.nodes[n])
    ensures WaitOk(Flush(m, w.nodes[n], w.store, a))
  {
    var node := w.nodes[n];
    assert NodeOk(m, node, SnapshotIdx(w.store), w.hist);
    if a.Append? {
      assert Executes(w, Flushes(n, a)) == [Entry(node.flusher.next, node.flusher.batch)];
      assert Entry(node.flusher.next, node.flusher.batch) in Executes(w, Flushes(n, a));
    }
  }

  lemma StepWaits<S(!new), C(!new), R>(m: Machine<S, C, R>, w: World<S, C, R>, e: Event<C>)
    requires Lawful(m) && Ok(m, w) && Waits(w) && Enabled(m, w, e) && Guarded(w, e)
    ensures Waits(Next(m, w, e))
  {
    var v := Next(m, w, e);
    forall n | n in v.nodes ensures WaitOk(v.nodes[n]) {
      if e.Tails? && e.node == n {
        TailWaits(m, w, n, e.tailAction);
      } else if e.Flushes? && e.node == n {
        FlushWaits(m, w, n, e.flushAction);
      } else if n in w.nodes {
        assert WaitOk(w.nodes[n]);
      }
    }
  }

  lemma {:induction false} RunWaits<S(!new), C(!new), R>(m: Machine<S, C, R>, t: Trace<S, C, R>, i: nat)
    requires Lawful(m) && GuardedRun(m, t) && i < |t.worlds|
    ensures Waits(t.worlds[i])
    decreases i
  {
    if i > 0 {
      RunWaits(m, t, i - 1);
      GuardedRunIsHarmless(m, t);
      RunKeeps(m, t, i - 1);
      assert StepAt(m, t, i - 1) && Guarded(t.worlds[i - 1], t.events[i - 1]);
      StepWaits(m, t.worlds[i - 1], t.events[i - 1]);
    }
  }

  /**
   * No proposer is left waiting: on every guarded run, a flusher that won an index its node has passed can be answered
   * at once, with results or, when a snapshot overtook them, with the outcome-unknown error.
   */
  lemma NeverStuck<S(!new), C(!new), R>(m: Machine<S, C, R>, t: Trace<S, C, R>, i: nat, n: nat)
    requires Lawful(m) && GuardedRun(m, t) && i < |t.worlds| && n in t.worlds[i].nodes && t.worlds[i].nodes[n].Up?
    requires t.worlds[i].nodes[n].flusher.Won? && t.worlds[i].nodes[n].flusher.next <= Told(t.worlds[i].nodes[n].tail)
    ensures Enabled(m, t.worlds[i], Flushes(n, Ack)) || Enabled(m, t.worlds[i], Flushes(n, Drop))
  {
    RunWaits(m, t, i);
    GuardedRunIsHarmless(m, t);
    RunKeeps(m, t, i);
    var node := t.worlds[i].nodes[n];
    assert WaitOk(node) && NodeOk(m, node, SnapshotIdx(t.worlds[i].store), t.worlds[i].hist);
    forall k | k in node.shared.pending ensures node.shared.pending[k] != node.flusher.ch {
      assert node.shared.pending[k].idx == k;
    }
  }

  /** Under the guard a winning append always takes the next index and extends the history by its batch. */
  lemma WinExtendsHistory<S(!new), C(!new), R>(m: Machine<S, C, R>, t: Trace<S, C, R>, i: nat, wr: Write<C>)
    requires Lawful(m) && GuardedRun(m, t) && i < |t.events|
    requires wr in Executes(t.worlds[i], t.events[i]) && wr.Entry? && wr.idx !in t.worlds[i].store.log
    ensures wr.idx == |t.worlds[i].hist| + 1 && t.worlds[i + 1].hist == t.worlds[i].hist + [wr.batch]
  {
    var w := t.worlds[i];
    GuardedRunIsHarmless(m, t);
    RunKeeps(m, t, i);
    assert StepAt(m, t, i) && Guarded(w, t.events[i]);
    ExecutedOk(m, w, t.events[i]);
    assert Executes(w, t.events[i]) == [wr];
    PerformKeeps(m, w.store, w.hist, wr);
  }
}
