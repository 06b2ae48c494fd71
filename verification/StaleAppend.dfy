/** Without the append guard, a writer that lags behind a truncation forks the state. */
module StaleAppend {
  import opened Bytes
  import opened LogStore
  import opened Replication

  ghost function Last<S, C, R>(t: Trace<S, C, R>): World<S, C, R>
    requires t.worlds != []
  {
    t.worlds[|t.worlds| - 1]
  }

  lemma Continue<S, C, R>(m: Machine<S, C, R>, t: Trace<S, C, R>, e: Event<C>) returns (u: Trace<S, C, R>)
    requires IsRun(m, t) && Enabled(m, Last(t), e)
    ensures IsRun(m, u) && Last(u) == Next(m, Last(t), e)
  {
    u := Trace(t.worlds + [Next(m, Last(t), e)], t.events + [e]);
    forall i | 0 <= i < |u.events| ensures StepAt(m, u, i) {
      assert i < |t.events| ==> StepAt(m, t, i);
    }
  }

  ghost function Fresh<S, C, R>(m: Machine<S, C, R>, flusher: Flusher<C>): Node<S, C, R> {
    Up(Tailer(m.init, 0, Ready), Shared(0, m.init, 0, map[], map[], 0, false), flusher)
  }

  /** The store after one row was appended, and after that row was snapshotted and truncated. */
  ghost function OneRow<S, C, R>(m: Machine<S, C, R>, x: seq<C>): Store {
    Store(map[1 := m.encode(x)], None)
  }

  ghost function Snapshotted<S, C, R>(m: Machine<S, C, R>, x: seq<C>): Store {
    Store(map[], Some((1, m.save(RunBatch(m, m.init, x)))))
  }

  ghost function Writer<S, C, R>(m: Machine<S, C, R>, phase: Phase<R>, flusher: Flusher<C>): Node<S, C, R> {
    Up(Tailer(m.init, 0, phase), Shared(0, m.init, 0, map[1 := Channel(1, 0)], map[], 1, false), flusher)
  }

  /** A node that applied its own row at index 1. */
  ghost function Applied<S, C, R>(m: Machine<S, C, R>, x: seq<C>, phase: Phase<R>): Node<S, C, R> {
    var s := RunBatch(m, m.init, x);
    Up(Tailer(s, 1, phase), Shared(1, s, 1, map[], map[Channel(1, 0) := Results(m, m.init, x)], 1, false),
       Won(x, 1, Channel(1, 0)))
  }

  lemma BringUp<S, C, R>(m: Machine<S, C, R>, t: Trace<S, C, R>, n: nat) returns (u: Trace<S, C, R>)
    requires IsRun(m, t) && n !in Last(t).nodes && Last(t).store == EMPTY_STORE
    ensures IsRun(m, u) && Last(u) == Last(t).(nodes := Last(t).nodes[n := Fresh(m, Idle)])
  {
    u := Continue(m, t, Start(n));
    assert Last(u) == Last(t).(nodes := Last(t).nodes[n := Booting(Tailer(m.init, 0, Ready))]);
    assert IdsAfter(EMPTY_STORE, 0) == {};
    u := Continue(m, u, Tails(n, Fetches(1)));
  }

  /** A fresh node takes a batch and picks index 1 for it. */
  lemma Choose<S, C, R>(m: Machine<S, C, R>, t: Trace<S, C, R>, n: nat, x: seq<C>) returns (u: Trace<S, C, R>)
    requires IsRun(m, t) && m.fits(x) && n in Last(t).nodes && Last(t).nodes[n] == Fresh(m, Idle)
    ensures IsRun(m, u)
    ensures Last(u) == Last(t).(nodes := Last(t).nodes[n := Fresh(m, Loaded(x, 1))])
  {
    u := Continue(m, t, Flushes(n, Take(x)));
    assert Last(u) == Last(t).(nodes := Last(t).nodes[n := Fresh(m, Sending(x))]);
    u := Continue(m, u, Flushes(n, Load));
  }

  /** With index 1 free the node registers, wins the slot, and the store gains its row. */
  lemma Win<S, C, R>(m: Machine<S, C, R>, t: Trace<S, C, R>, n: nat, x: seq<C>) returns (u: Trace<S, C, R>)
    requires IsRun(m, t) && n in Last(t).nodes && Last(t).nodes[n] == Fresh(m, Loaded(x, 1))
    requires 1 !in Last(t).store.log
    ensures IsRun(m, u)
    ensures Last(u).store == Insert(Last(t).store, 1, m.encode(x)) && Last(u).orphans == Last(t).orphans
    ensures Last(u).hist == if Last(t).hist == [] then [x] else Last(t).hist
    ensures Last(u).nodes == Last(t).nodes[n := Writer(m, Ready, Won(x, 1, Channel(1, 0)))]
  {
    u := Continue(m, t, Flushes(n, Register));
    var registered := Writer(m, Ready, Registered(x, 1, Channel(1, 0)));
    assert Last(u) == Last(t).(nodes := Last(t).nodes[n := registered]);
    u := Continue(m, u, Flushes(n, Append));
  }

  /** The winner fetches the row at index 1 and applies it. */
  lemma ApplyFirst<S(!new), C(!new), R>(m: Machine<S, C, R>, t: Trace<S, C, R>, n: nat, x: seq<C>)
      returns (u: Trace<S, C, R>)
    requires Lawful(m) && m.fits(x) && IsRun(m, t) && n in Last(t).nodes
    requires Last(t).nodes[n] == Writer(m, Ready, Won(x, 1, Channel(1, 0)))
    requires Last(t).store.log == map[1 := m.encode(x)]
    ensures IsRun(m, u) && Last(u) == Last(t).(nodes := Last(t).nodes[n := Applied(m, x, Rows([]))])
  {
    assert IdsAfter(Last(t).store, 0) == {1};
    var fetched := Writer(m, Rows([(1, m.encode(x))]), Won(x, 1, Channel(1, 0)));
    assert RowsAfter(Last(t).store, 0, 1) == [(1, m.encode(x))];
    u := Continue(m, t, Tails(n, Fetches(1)));
    assert Last(u) == Last(t).(nodes := Last(t).nodes[n := fetched]);
    u := Continue(m, u, Tails(n, Applies));
    ApplyFetched(m, x);
    assert Last(u) == Last(t).(nodes := Last(t).nodes[n := Published(m, x)]);
    u := Continue(m, u, Tails(n, Delivers));
    DeliverPublished(m, x);
  }

  /** A node that published its own row at index 1 and has yet to answer its proposer. */
  ghost function Published<S, C, R>(m: Machine<S, C, R>, x: seq<C>): Node<S, C, R> {
    var s := RunBatch(m, m.init, x);
    Up(Tailer(s, 1, Delivering(1, Results(m, m.init, x), [])),
       Shared(1, s, 1, map[1 := Channel(1, 0)], map[], 1, false), Won(x, 1, Channel(1, 0)))
  }

  lemma ApplyFetched<S(!new), C(!new), R>(m: Machine<S, C, R>, x: seq<C>)
    requires Lawful(m) && m.fits(x)
    ensures ApplyRow(m, Writer(m, Rows([(1, m.encode(x))]), Won(x, 1, Channel(1, 0)))) == Published(m, x)
  {
    var rows := [(1, m.encode(x))];
    assert m.decode(m.encode(x)) == Some(x) && rows[1..] == [];
  }

  lemma DeliverPublished<S, C, R>(m: Machine<S, C, R>, x: seq<C>)
    ensures Deliver(Published(m, x)) == Applied(m, x, Rows([]))
  {
    var node, ch := Published(m, x), Channel(1, 0);
    assert node.shared.pending - {1} == map[];
    assert node.shared.delivered[ch := Results(m, m.init, x)] == map[ch := Results(m, m.init, x)];
  }

  /** It then snapshots the state at index 1 and truncates the log. */
  lemma SnapshotAndCut<S, C, R>(m: Machine<S, C, R>, t: Trace<S, C, R>, n: nat, x: seq<C>) returns (u: Trace<S, C, R>)
    requires IsRun(m, t) && m.sized(RunBatch(m, m.init, x)) && n in Last(t).nodes
    requires Last(t).nodes[n] == Applied(m, x, Rows([])) && Last(t).store == OneRow(m, x)
    ensures IsRun(m, u)
    ensures Last(u) == Last(t).(store := Snapshotted(m, x), nodes := Last(t).nodes[n := Applied(m, x, Ready)])
  {
    var payload := m.save(RunBatch(m, m.init, x));
    u := Continue(m, t, Tails(n, Encodes));
    assert Last(u) == Last(t).(nodes := Last(t).nodes[n := Applied(m, x, Saving(1, payload))]);
    u := Continue(m, u, Tails(n, Persists));
    assert Last(u).store == Store(map[1 := m.encode(x)], Some((1, payload)));
    assert Last(u).nodes == Last(t).nodes[n := Applied(m, x, Truncating(1))];
    u := Continue(m, u, Tails(n, Truncates));
    assert Truncated(Store(map[1 := m.encode(x)], Some((1, payload))), 1) == Snapshotted(m, x);
  }

  /**
   * Two nodes pick index 1; one appends, applies, snapshots and truncates; the other's append then lands on the
   * truncated slot. Both stand at index 1 with different states, and the second proposal is acknowledged although
   * the history never holds it.
   */
  lemma StaleAppendForks<S(!new), C(!new), R>(m: Machine<S, C, R>, x: seq<C>, y: seq<C>) returns (t: Trace<S, C, R>)
    requires Lawful(m) && m.fits(x) && m.fits(y) && m.sized(RunBatch(m, m.init, x))
    requires RunBatch(m, m.init, x) != RunBatch(m, m.init, y)
    ensures IsRun(m, t)
    ensures
      var w := Last(t);
      && 0 in w.nodes && 1 in w.nodes && w.nodes[0].Up? && w.nodes[1].Up?
      && w.nodes[0].tail.applied == w.nodes[1].tail.applied && w.nodes[0].tail.state != w.nodes[1].tail.state
      && Enabled(m, w, Flushes(1, Ack)) && w.nodes[1].flusher.batch == y && y !in w.hist
  {
    t := Trace([EmptyWorld()], []);
    t := BringUp(m, t, 0);
    t := BringUp(m, t, 1);
    t := Choose(m, t, 1, y);
    t := Choose(m, t, 0, x);
    t := Win(m, t, 0, x);
    assert Last(t).store == OneRow(m, x);
    t := ApplyFirst(m, t, 0, x);
    t := SnapshotAndCut(m, t, 0, x);
    t := Win(m, t, 1, y);
    assert Last(t).store.log == map[1 := m.encode(y)];
    t := ApplyFirst(m, t, 1, y);
  }
}
