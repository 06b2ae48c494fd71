/** Concurrent appends and closes of one stream, interleaved at every shared access. */
module StreamAppend {
  import opened Bytes

  /** Where one append stands; `at` is its position in the storage pipeline. */
  datatype Phase =
    | Begun
    | Checked
    | Locked
    | Reserved(offset: nat)
    | Submitted(at: nat, offset: nat)
    | Resolved(at: nat, offset: nat, ok: bool)
    | Completed
    | Done

  datatype Op = Op(count: nat, phase: Phase)

  /** A forced close skips the wait for appends in flight. */
  datatype Closer = Waiting | Closing | Forced

  /** A record handed to storage: the offsets `[offset, offset + count)`. */
  datatype Entry = Entry(offset: nat, count: nat)

  datatype World = World(
    next: nat, confirm: nat, closed: bool, fenced: bool, inflight: int, lock: Option<nat>,
    ops: map<nat, Op>, closers: map<nat, Closer>, storage: seq<Entry>, durable: set<nat>)

  /** A stream opened at offset `base`. */
  function Opened(base: nat): World {
    World(base, base, false, false, 0, None, map[], map[], [], {})
  }

  /** `Cancel`: the caller drops an append that waits for storage. `Persist`: storage makes a record durable. */
  datatype Event =
    | Begin(op: nat, count: nat)
    | Check(op: nat)
    | Acquire(op: nat)
    | Reserve(op: nat)
    | Submit(op: nat)
    | Resolve(op: nat, ok: bool)
    | Complete(op: nat)
    | Drop(op: nat)
    | Cancel(op: nat)
    | Persist(at: nat)
    | CloseCall(closer: nat)
    | SeeIdle(closer: nat)
    | ForceClose(closer: nat)

  predicate Enabled(w: World, e: Event) {
    match e
    case Begin(o, _) => o !in w.ops
    case Check(o) => o in w.ops && w.ops[o].phase.Begun?
    case Acquire(o) => o in w.ops && w.ops[o].phase.Checked? && w.lock.None?
    case Reserve(o) => o in w.ops && w.ops[o].phase.Locked?
    case Submit(o) => o in w.ops && w.ops[o].phase.Reserved?
    case Resolve(o, _) => o in w.ops && w.ops[o].phase.Submitted?
    case Complete(o) => o in w.ops && w.ops[o].phase.Resolved?
    case Drop(o) => o in w.ops && w.ops[o].phase.Completed?
    case Cancel(o) => o in w.ops && (w.ops[o].phase.Submitted? || w.ops[o].phase.Resolved?)
    case Persist(at) => at < |w.storage|
    case CloseCall(c) => c !in w.closers
    case SeeIdle(c) => c in w.closers && w.closers[c].Waiting? && w.inflight == 0
    case ForceClose(c) => c !in w.closers
  }

  function Move(w: World, o: nat, phase: Phase): World
    requires o in w.ops
  {
    w.(ops := w.ops[o := w.ops[o].(phase := phase)])
  }

  function Next(w: World, e: Event): World
    requires Enabled(w, e)
  {
    match e
    case Begin(o, count) => w.(inflight := w.inflight + 1, ops := w.ops[o := Op(count, Begun)])
    case Check(o) =>
      if w.closed || w.fenced then Move(w.(inflight := w.inflight - 1), o, Done) else Move(w, o, Checked)
    case Acquire(o) => Move(w.(lock := Some(o)), o, Locked)
    case Reserve(o) => Move(w.(next := w.next + w.ops[o].count), o, Reserved(w.next))
    case Submit(o) =>
      Move(w.(lock := None, storage := w.storage + [Entry(w.ops[o].phase.offset, w.ops[o].count)]),
           o, Submitted(|w.storage|, w.ops[o].phase.offset))
    case Resolve(o, ok) =>
      var p := w.ops[o].phase;
      Move(if ok then w.(durable := w.durable + {p.at}) else w, o, Resolved(p.at, p.offset, ok))
    case Complete(o) =>
      var p := w.ops[o].phase;
      Move(if p.ok then w.(confirm := Max(w.confirm, p.offset + w.ops[o].count)) else w.(fenced := true), o, Completed)
    case Drop(o) => Move(w.(inflight := w.inflight - 1), o, Done)
    case Cancel(o) => Move(w.(inflight := w.inflight - 1), o, Done)
    case Persist(at) => w.(durable := w.durable + {at})
    case CloseCall(c) => w.(closed := true, closers := w.closers[c := Waiting])
    case SeeIdle(c) => w.(closers := w.closers[c := Closing])
    case ForceClose(c) => w.(closed := true, closers := w.closers[c := Forced])
  }

  // ---- what every event keeps ----

  function Active(ops: map<nat, Op>): set<nat> {
    set o | o in ops && ops[o].phase != Done
  }

  /** The offset just past a run of contiguous entries. */
  function End(base: nat, storage: seq<Entry>): nat {
    if storage == [] then base else End(base, storage[..|storage| - 1]) + storage[|storage| - 1].count
  }

  /** Every entry starts where the previous one ends. */
  ghost predicate Contiguous(base: nat, storage: seq<Entry>) {
    forall i | 0 <= i < |storage| :: storage[i].offset == End(base, storage[..i])
  }

  /** An append that passed the admission check and has not finished. */
  predicate Admitted(p: Phase) {
    !p.Begun? && !p.Done?
  }

  /** The lock is held exactly by the append between reserving and submitting. */
  ghost predicate LockOk(w: World) {
    forall o :: w.lock == Some(o) <==> o in w.ops && (w.ops[o].phase.Locked? || w.ops[o].phase.Reserved?)
  }

  /** Records reserved by the lock holder and not yet submitted. */
  function Held(w: World): nat {
    if w.lock.Some? && w.lock.value in w.ops && w.ops[w.lock.value].phase.Reserved? then w.ops[w.lock.value].count
    else 0
  }

  /** Storage is contiguous, a reservation sits just past it, and nothing beyond it is confirmed. */
  ghost predicate OffsetsOk(base: nat, w: World) {
    && Contiguous(base, w.storage) && w.next == End(base, w.storage) + Held(w)
    && (w.lock.Some? && w.lock.value in w.ops && w.ops[w.lock.value].phase.Reserved? ==>
          w.ops[w.lock.value].phase.offset == End(base, w.storage))
    && base <= w.confirm <= End(base, w.storage)
  }

  /** A submitted append knows its place in the pipeline; a good answer means that place is durable. */
  predicate OpOk(storage: seq<Entry>, durable: set<nat>, op: Op) {
    && (op.phase.Submitted? || op.phase.Resolved? ==>
          op.phase.at < |storage| && storage[op.phase.at] == Entry(op.phase.offset, op.count))
    && (op.phase.Resolved? && op.phase.ok ==> op.phase.at in durable)
  }

  ghost predicate PipelineOk(w: World) {
    (forall o | o in w.ops :: OpOk(w.storage, w.durable, w.ops[o])) && forall i | i in w.durable :: i < |w.storage|
  }

  /** Once some close passed the drain, no append is past admission, and the closed mark keeps it so. */
  ghost predicate DrainOk(w: World) {
    && ((exists c :: c in w.closers) ==> w.closed)
    && ((exists c :: c in w.closers && w.closers[c].Closing?) ==> forall o | o in w.ops :: !Admitted(w.ops[o].phase))
  }

  ghost predicate Ok(base: nat, w: World) {
    && w.inflight == |Active(w.ops)| && LockOk(w) && OffsetsOk(base, w) && PipelineOk(w) && DrainOk(w)
  }

  lemma {:induction false} EndGrows(base: nat, storage: seq<Entry>, i: nat)
    requires i <= |storage|
    ensures base <= End(base, storage[..i]) <= End(base, storage)
    decreases |storage|
  {
    if i < |storage| {
      assert storage[..|storage| - 1][..i] == storage[..i];
      EndGrows(base, storage[..|storage| - 1], i);
    } else {
      assert storage[..i] == storage;
      if storage != [] {
        EndGrows(base, storage[..|storage| - 1], |storage| - 1);
        assert storage[..|storage| - 1][..|storage| - 1] == storage[..|storage| - 1];
      }
    }
  }

  lemma ContiguousAppend(base: nat, storage: seq<Entry>, e: Entry)
    requires Contiguous(base, storage) && e.offset == End(base, storage)
    ensures Contiguous(base, storage + [e]) && End(base, storage + [e]) == End(base, storage) + e.count
  {
    var more := storage + [e];
    assert more[..|storage|] == storage;
    forall i | 0 <= i < |more| ensures more[i].offset == End(base, more[..i]) {
      assert i < |storage| ==> more[..i] == storage[..i];
    }
  }

  lemma OneLess(was: set<nat>, now: set<nat>, o: nat)
    requires now == was - {o}
    ensures |now| == |was| - (if o in was then 1 else 0)
  {
    if o !in was {
      assert now == was;
    }
  }

  lemma OneMore(was: set<nat>, now: set<nat>, o: nat)
    requires now == was + {o}
    ensures |now| == |was| + (if o in was then 0 else 1)
  {
    if o in was {
      assert now == was;
    } else {
      assert was == now - {o};
    }
  }

  lemma ActiveAfter(ops: map<nat, Op>, o: nat, op: Op)
    ensures op.phase.Done? ==> |Active(ops[o := op])| == |Active(ops)| - (if o in Active(ops) then 1 else 0)
    ensures !op.phase.Done? ==> |Active(ops[o := op])| == |Active(ops)| + (if o in Active(ops) then 0 else 1)
  {
    var was, now := Active(ops), Active(ops[o := op]);
    assert o in now <==> !op.phase.Done?;
    forall x | x != o ensures x in now <==> x in was {
      assert x in ops[o := op] <==> x in ops;
    }
    if op.phase.Done? {
      OneLess(was, now, o);
    } else {
      OneMore(was, now, o);
    }
  }

  /** An event of one append. */
  predicate OfAppend(e: Event) {
    !e.CloseCall? && !e.SeeIdle? && !e.ForceClose? && !e.Persist?
  }

  /** The in-flight counter counts the unfinished appends. */
  lemma CountKeeps(w: World, e: Event)
    requires w.inflight == |Active(w.ops)| && Enabled(w, e)
    ensures Next(w, e).inflight == |Active(Next(w, e).ops)|
  {
    if OfAppend(e) {
      var ops := Next(w, e).ops;
      ActiveAfter(w.ops, e.op, ops[e.op]);
      assert ops == w.ops[e.op := ops[e.op]];
    }
  }

  lemma LockKeeps(w: World, e: Event)
    requires LockOk(w) && Enabled(w, e)
    ensures LockOk(Next(w, e))
  {
  }

  /** A completed append ends within what was submitted. */
  lemma EndOfEntry(base: nat, storage: seq<Entry>, at: nat)
    requires Contiguous(base, storage) && at < |storage|
    ensures base <= storage[at].offset && storage[at].offset + storage[at].count <= End(base, storage)
  {
    EndGrows(base, storage, at + 1);
    EndGrows(base, storage, at);
    assert storage[..at + 1][..at] == storage[..at];
  }

  lemma SubmitOffsets(base: nat, w: World, o: nat)
    requires LockOk(w) && OffsetsOk(base, w) && Enabled(w, Submit(o))
    ensures OffsetsOk(base, Next(w, Submit(o)))
  {
    assert w.lock == Some(o);
    var e, v := Entry(w.ops[o].phase.offset, w.ops[o].count), Next(w, Submit(o));
    ContiguousAppend(base, w.storage, e);
    assert v.storage == w.storage + [e] && v.lock.None? && Held(v) == 0 && v.next == w.next && v.confirm == w.confirm;
  }

  lemma ReserveOffsets(base: nat, w: World, o: nat)
    requires LockOk(w) && OffsetsOk(base, w) && Enabled(w, Reserve(o))
    ensures OffsetsOk(base, Next(w, Reserve(o)))
  {
    assert w.lock == Some(o);
  }

  lemma CompleteOffsets(base: nat, w: World, o: nat)
    requires LockOk(w) && OffsetsOk(base, w) && Enabled(w, Complete(o)) && OpOk(w.storage, w.durable, w.ops[o])
    ensures OffsetsOk(base, Next(w, Complete(o)))
  {
    EndOfEntry(base, w.storage, w.ops[o].phase.at);
    assert w.lock != Some(o);
  }

  /** One append at a time reserves and submits, so storage sees contiguous offsets. */
  lemma OffsetsKeep(base: nat, w: World, e: Event)
    requires LockOk(w) && OffsetsOk(base, w) && PipelineOk(w) && Enabled(w, e)
    ensures OffsetsOk(base, Next(w, e))
  {
    match e
    case Submit(o) => SubmitOffsets(base, w, o);
    case Reserve(o) => ReserveOffsets(base, w, o);
    case Complete(o) =>
      assert OpOk(w.storage, w.durable, w.ops[o]);
      CompleteOffsets(base, w, o);
    case _ => if OfAppend(e) { assert w.lock != Some(e.op); }
  }

  lemma PipelineKeeps(w: World, e: Event)
    requires PipelineOk(w) && Enabled(w, e)
    ensures PipelineOk(Next(w, e))
  {
    var v := Next(w, e);
    forall o | o in v.ops ensures OpOk(v.storage, v.durable, v.ops[o]) {
      assert o in w.ops ==> OpOk(w.storage, w.durable, w.ops[o]);
    }
  }

  /** The close saw no append in flight, and later admissions see the mark. */
  lemma DrainKeeps(w: World, e: Event)
    requires w.inflight == |Active(w.ops)| && DrainOk(w) && Enabled(w, e)
    ensures DrainOk(Next(w, e))
  {
    if e.SeeIdle? {
      forall o | o in w.ops ensures !Admitted(w.ops[o].phase) {
        assert o !in Active(w.ops);
      }
    }
  }

  lemma StepKeeps(base: nat, w: World, e: Event)
    requires Ok(base, w) && Enabled(w, e)
    ensures Ok(base, Next(w, e))
  {
    CountKeeps(w, e);
    LockKeeps(w, e);
    OffsetsKeep(base, w, e);
    PipelineKeeps(w, e);
    DrainKeeps(w, e);
  }

  // ---- every schedule ----

  datatype Trace = Trace(worlds: seq<World>, events: seq<Event>)

  predicate StepAt(t: Trace, i: nat)
    requires i < |t.events| && |t.worlds| == |t.events| + 1
  {
    Enabled(t.worlds[i], t.events[i]) && t.worlds[i + 1] == Next(t.worlds[i], t.events[i])
  }

  predicate IsRun(base: nat, t: Trace) {
    && |t.worlds| == |t.events| + 1 && t.worlds[0] == Opened(base)
    && forall i | 0 <= i < |t.events| :: StepAt(t, i)
  }

  lemma {:induction false} RunKeeps(base: nat, t: Trace, i: nat)
    requires IsRun(base, t) && i < |t.worlds|
    ensures Ok(base, t.worlds[i])
    decreases i
  {
    if i > 0 {
      RunKeeps(base, t, i - 1);
      assert StepAt(t, i - 1);
      StepKeeps(base, t.worlds[i - 1], t.events[i - 1]);
    } else {
      assert Active(t.worlds[0].ops) == {};
    }
  }

  /** Storage receives contiguous increasing offsets, and the confirm offset never passes the next one. */
  lemma StorageSeesContiguousOffsets(base: nat, t: Trace, i: nat, k: nat)
    requires IsRun(base, t) && i < |t.worlds| && k < |t.worlds[i].storage|
    ensures
      var w := t.worlds[i];
      && w.storage[k].offset == (if k == 0 then base else w.storage[k - 1].offset + w.storage[k - 1].count)
      && w.storage[k].offset + w.storage[k].count <= w.next && base <= w.confirm <= w.next
  {
    RunKeeps(base, t, i);
    var storage := t.worlds[i].storage;
    EndOfEntry(base, storage, k);
    if k > 0 {
      assert storage[..k][..k - 1] == storage[..k - 1];
      assert storage[k - 1].offset == End(base, storage[..k - 1]);
    }
  }

  predicate CloseStarted(w: World, c: nat) {
    c in w.closers && w.closers[c].Closing?
  }

  lemma {:induction false} CloseStays(base: nat, t: Trace, i: nat, j: nat, c: nat)
    requires IsRun(base, t) && i <= j < |t.worlds| && CloseStarted(t.worlds[i], c)
    ensures CloseStarted(t.worlds[j], c)
    decreases j
  {
    if i < j {
      CloseStays(base, t, i, j - 1, c);
      assert StepAt(t, j - 1);
    }
  }

  /** From the moment a close starts its final phase, no append is in flight and none is ever admitted. */
  lemma NoAppendAfterClose(base: nat, t: Trace, i: nat, j: nat, c: nat)
    requires IsRun(base, t) && i <= j < |t.worlds| && CloseStarted(t.worlds[i], c)
    ensures forall o | o in t.worlds[j].ops :: !Admitted(t.worlds[j].ops[o].phase)
    ensures t.worlds[j].storage == t.worlds[i].storage
    decreases j
  {
    CloseStays(base, t, i, j, c);
    RunKeeps(base, t, j);
    assert CloseStarted(t.worlds[j], c);
    if i < j {
      NoAppendAfterClose(base, t, i, j - 1, c);
      assert StepAt(t, j - 1);
    }
  }

  predicate Unadmitted(w: World, o: nat) {
    o in w.ops ==> !Admitted(w.ops[o].phase)
  }

  /** Once an append failed, or a close was called, nothing that was not admitted by then ever is. */
  lemma {:induction false} NoneAdmittedOnceMarked(base: nat, t: Trace, i: nat, j: nat, o: nat)
    requires IsRun(base, t) && i <= j < |t.worlds|
    requires (t.worlds[i].fenced || t.worlds[i].closed) && Unadmitted(t.worlds[i], o)
    ensures (t.worlds[j].fenced || t.worlds[j].closed) && Unadmitted(t.worlds[j], o)
    decreases j
  {
    if i < j {
      NoneAdmittedOnceMarked(base, t, i, j - 1, o);
      assert StepAt(t, j - 1);
    }
  }

  // ---- what a completion does ----

  predicate Fails(w: World, e: Event) {
    e.Complete? && e.op in w.ops && w.ops[e.op].phase.Resolved? && !w.ops[e.op].phase.ok
  }

  /** A failed append closes the stream to everything not admitted by then, for good. */
  lemma FailureFences(base: nat, t: Trace, i: nat, j: nat, o: nat)
    requires IsRun(base, t) && i < j < |t.worlds| && Fails(t.worlds[i], t.events[i])
    ensures t.worlds[j].fenced
    ensures Unadmitted(t.worlds[i], o) ==> Unadmitted(t.worlds[j], o)
  {
    assert StepAt(t, i);
    FencedStays(base, t, i + 1, j);
    if Unadmitted(t.worlds[i], o) {
      NoneAdmittedOnceMarked(base, t, i + 1, j, o);
    }
  }

  lemma {:induction false} FencedStays(base: nat, t: Trace, i: nat, j: nat)
    requires IsRun(base, t) && i <= j < |t.worlds| && t.worlds[i].fenced
    ensures t.worlds[j].fenced
    decreases j
  {
    if i < j {
      FencedStays(base, t, i, j - 1);
      assert StepAt(t, j - 1);
    }
  }

  predicate Closes(e: Event) {
    e.CloseCall? || e.ForceClose?
  }

  ghost predicate ClosedBefore(t: Trace, j: nat)
    requires j <= |t.events|
  {
    exists i :: 0 <= i < j && Closes(t.events[i])
  }

  ghost predicate FailedBefore(t: Trace, j: nat)
    requires j <= |t.events| < |t.worlds|
  {
    exists i :: 0 <= i < j && Fails(t.worlds[i], t.events[i])
  }

  /** The stream is closed if and only if a close was called, and fenced if and only if an append failed. */
  lemma {:induction false} MarkedIff(base: nat, t: Trace, j: nat)
    requires IsRun(base, t) && j < |t.worlds|
    ensures (t.worlds[j].closed <==> ClosedBefore(t, j)) && (t.worlds[j].fenced <==> FailedBefore(t, j))
    decreases j
  {
    if j > 0 {
      MarkedIff(base, t, j - 1);
      assert StepAt(t, j - 1);
      assert ClosedBefore(t, j) <==> ClosedBefore(t, j - 1) || Closes(t.events[j - 1]);
      assert FailedBefore(t, j) <==> FailedBefore(t, j - 1) || Fails(t.worlds[j - 1], t.events[j - 1]);
    }
  }

  /** An append is admitted if and only if, by its check, no close was called and no append failed. */
  lemma AdmittedIff(base: nat, t: Trace, j: nat, o: nat)
    requires IsRun(base, t) && j < |t.events| && t.events[j] == Check(o)
    ensures o in t.worlds[j + 1].ops
    ensures Admitted(t.worlds[j + 1].ops[o].phase) <==> !ClosedBefore(t, j) && !FailedBefore(t, j)
  {
    assert StepAt(t, j);
    MarkedIff(base, t, j);
  }

  /** Storage made the record durable, or answered its append with success. */
  predicate Persists(w: World, e: Event, at: nat) {
    || e == Persist(at)
    || (e.Resolve? && e.ok && e.op in w.ops && w.ops[e.op].phase.Submitted? && w.ops[e.op].phase.at == at)
  }

  ghost predicate PersistedBefore(t: Trace, j: nat, at: nat)
    requires j <= |t.events| < |t.worlds|
  {
    exists i :: 0 <= i < j && Persists(t.worlds[i], t.events[i], at)
  }

  lemma {:induction false} DurableIff(base: nat, t: Trace, j: nat, at: nat)
    requires IsRun(base, t) && j < |t.worlds|
    ensures at in t.worlds[j].durable <==> PersistedBefore(t, j, at)
    decreases j
  {
    if j > 0 {
      DurableIff(base, t, j - 1, at);
      assert StepAt(t, j - 1);
      assert PersistedBefore(t, j, at)
             <==> PersistedBefore(t, j - 1, at) || Persists(t.worlds[j - 1], t.events[j - 1], at);
    }
  }

  predicate Succeeds(w: World, e: Event) {
    e.Complete? && e.op in w.ops && w.ops[e.op].phase.Resolved? && w.ops[e.op].phase.ok
  }

  /** The offset just past the records an event confirms. */
  function ConfirmedEnd(w: World, e: Event): nat
    requires Succeeds(w, e)
  {
    w.ops[e.op].phase.offset + w.ops[e.op].count
  }

  /** What was confirmed stays confirmed: after a successful append the confirm offset is at its end or past it. */
  lemma {:induction false} ConfirmReaches(base: nat, t: Trace, i: nat, j: nat)
    requires IsRun(base, t) && i < j < |t.worlds| && Succeeds(t.worlds[i], t.events[i])
    ensures t.worlds[j].confirm >= ConfirmedEnd(t.worlds[i], t.events[i])
    decreases j
  {
    assert StepAt(t, j - 1);
    if i < j - 1 {
      ConfirmReaches(base, t, i, j - 1);
    }
  }

  /** And nothing else moves it: the confirm offset is where the stream was opened or the end of a successful append. */
  lemma {:induction false} ConfirmIsAnEnd(base: nat, t: Trace, j: nat)
    requires IsRun(base, t) && j < |t.worlds|
    ensures t.worlds[j].confirm == base
            || exists i :: 0 <= i < j && Succeeds(t.worlds[i], t.events[i])
                           && t.worlds[j].confirm == ConfirmedEnd(t.worlds[i], t.events[i])
    decreases j
  {
    if j > 0 {
      ConfirmIsAnEnd(base, t, j - 1);
      assert StepAt(t, j - 1);
      if t.worlds[j].confirm != t.worlds[j - 1].confirm {
        assert Succeeds(t.worlds[j - 1], t.events[j - 1]);
      }
    }
  }

  // ---- what a closed or fenced stream still hands over ----

  predicate Marked(w: World) {
    w.closed || w.fenced
  }

  /** Admitted and not yet handed to storage. */
  predicate OnItsWay(p: Phase) {
    p.Checked? || p.Locked? || p.Reserved?
  }

  ghost predicate Quiet(w: World) {
    forall o | o in w.ops :: !OnItsWay(w.ops[o].phase)
  }

  predicate Possible(w: World, events: seq<Event>)
    decreases |events|
  {
    events == [] || (Enabled(w, events[0]) && Possible(Next(w, events[0]), events[1..]))
  }

  function After(w: World, events: seq<Event>): World
    requires Possible(w, events)
    decreases |events|
  {
    if events == [] then w else After(Next(w, events[0]), events[1..])
  }

  ghost predicate Sealed(w: World) {
    forall events | Possible(w, events) :: After(w, events).storage == w.storage
  }

  lemma {:induction false} QuietSeals(w: World, events: seq<Event>)
    requires Marked(w) && Quiet(w) && Possible(w, events)
    ensures After(w, events).storage == w.storage
    decreases |events|
  {
    if events != [] {
      QuietSeals(Next(w, events[0]), events[1..]);
    }
  }

  /** One more event in front. */
  lemma Precede(w: World, e: Event, events: seq<Event>)
    requires Enabled(w, e) && Possible(Next(w, e), events)
    ensures Possible(w, [e] + events) && After(w, [e] + events) == After(Next(w, e), events)
  {
    assert ([e] + events)[1..] == events;
  }

  /** An append on its way can always get there. */
  lemma Overtakes(w: World, o: nat) returns (events: seq<Event>)
    requires LockOk(w) && o in w.ops && OnItsWay(w.ops[o].phase)
    requires w.ops[o].phase.Checked? ==> w.lock.None?
    ensures Possible(w, events) && |After(w, events).storage| > |w.storage|
    decreases if w.ops[o].phase.Checked? then 2 else if w.ops[o].phase.Locked? then 1 else 0
  {
    var e := if w.ops[o].phase.Checked? then Acquire(o) else if w.ops[o].phase.Locked? then Reserve(o) else Submit(o);
    var v := Next(w, e);
    if e.Submit? {
      events := [];
    } else {
      LockKeeps(w, e);
      events := Overtakes(v, o);
    }
    Precede(w, e, events);
    events := [e] + events;
  }

  /** A closed or fenced stream hands storage nothing more, whatever happens next,
      if and only if no admitted append is still on its way there. */
  lemma MarkedSealsIff(w: World)
    requires LockOk(w) && Marked(w)
    ensures Sealed(w) <==> Quiet(w)
  {
    if Quiet(w) {
      forall events | Possible(w, events) ensures After(w, events).storage == w.storage {
        QuietSeals(w, events);
      }
    } else {
      var o :| o in w.ops && OnItsWay(w.ops[o].phase);
      if w.lock.Some? {
        o := w.lock.value;
      }
      var events := Overtakes(w, o);
    }
  }

  // ---- durability ----

  /** Storage makes or reports a record durable only after every record submitted before it. */
  predicate InOrder(w: World, e: Event) {
    && (e.Resolve? && e.ok && e.op in w.ops && w.ops[e.op].phase.Submitted? ==>
          forall k | 0 <= k < w.ops[e.op].phase.at :: k in w.durable)
    && (e.Persist? ==> forall k | 0 <= k < e.at :: k in w.durable)
  }

  /** Every record that starts below the confirm offset, and holds anything, is durable. */
  ghost predicate DurableBelowConfirm(w: World) {
    forall k | 0 <= k < |w.storage| && w.storage[k].count > 0 && w.storage[k].offset < w.confirm :: k in w.durable
  }

  ghost predicate DurablePrefix(w: World) {
    forall k, n | n in w.durable && 0 <= k < n :: k in w.durable
  }

  /** Two entries of a contiguous pipeline do not overlap. */
  lemma EarlierEndsFirst(base: nat, storage: seq<Entry>, k: nat, n: nat)
    requires Contiguous(base, storage) && k < n < |storage|
    ensures storage[k].offset + storage[k].count <= storage[n].offset
  {
    EndGrows(base, storage[..n], k + 1);
    assert storage[..n][..k + 1] == storage[..k + 1] && storage[..k + 1][..k] == storage[..k];
  }

  /**
   * Confirming an append keeps everything below the confirm offset durable exactly when every non-empty record
   * submitted before it is durable too.
   */
  lemma CompleteKeepsDurableIff(base: nat, w: World, o: nat)
    requires Ok(base, w) && DurableBelowConfirm(w) && Enabled(w, Complete(o)) && w.ops[o].phase.ok
    ensures
      var at := w.ops[o].phase.at;
      at < |w.storage|
      && (DurableBelowConfirm(Next(w, Complete(o))) <==>
          forall k | 0 <= k < at && w.storage[k].count > 0 :: k in w.durable)
  {
    assert OpOk(w.storage, w.durable, w.ops[o]);
    var at := w.ops[o].phase.at;
    forall k | 0 <= k < |w.storage| && k != at
      ensures k < at ==> w.storage[k].offset + w.storage[k].count <= w.storage[at].offset
      ensures at < k ==> w.storage[at].offset + w.storage[at].count <= w.storage[k].offset
    {
      if k < at { EarlierEndsFirst(base, w.storage, k, at); } else { EarlierEndsFirst(base, w.storage, at, k); }
    }
  }

  /** An append is confirmed only once every non-empty record submitted before it is durable. */
  predicate ConfirmsInOrder(w: World, e: Event) {
    e.Complete? && e.op in w.ops && w.ops[e.op].phase.Resolved? && w.ops[e.op].phase.ok ==>
      forall k | 0 <= k < w.ops[e.op].phase.at && k < |w.storage| && w.storage[k].count > 0 :: k in w.durable
  }

  lemma StepDurableIff(base: nat, w: World, e: Event)
    requires Ok(base, w) && DurableBelowConfirm(w) && Enabled(w, e)
    ensures DurableBelowConfirm(Next(w, e)) <==> ConfirmsInOrder(w, e)
  {
    if e.Complete? && w.ops[e.op].phase.ok {
      CompleteKeepsDurableIff(base, w, e.op);
    } else if e.Submit? {
      SubmitKeepsDurable(base, w, e.op);
    }
  }

  ghost predicate ConfirmsAllInOrder(t: Trace)
    requires |t.worlds| == |t.events| + 1
  {
    forall i | 0 <= i < |t.events| :: ConfirmsInOrder(t.worlds[i], t.events[i])
  }

  lemma {:induction false} ConfirmsDurable(base: nat, t: Trace, i: nat)
    requires IsRun(base, t) && i < |t.worlds| && ConfirmsAllInOrder(t)
    ensures DurableBelowConfirm(t.worlds[i])
    decreases i
  {
    if i > 0 {
      ConfirmsDurable(base, t, i - 1);
      RunKeeps(base, t, i - 1);
      assert StepAt(t, i - 1);
      StepDurableIff(base, t.worlds[i - 1], t.events[i - 1]);
    }
  }

  /** Everything below the confirm offset is durable throughout a schedule
      if and only if no append is confirmed before an earlier record is durable. */
  lemma RunDurableIff(base: nat, t: Trace)
    requires IsRun(base, t)
    ensures (forall i | 0 <= i < |t.worlds| :: DurableBelowConfirm(t.worlds[i])) <==> ConfirmsAllInOrder(t)
  {
    if ConfirmsAllInOrder(t) {
      forall i | 0 <= i < |t.worlds| ensures DurableBelowConfirm(t.worlds[i]) {
        ConfirmsDurable(base, t, i);
      }
    }
    if forall i | 0 <= i < |t.worlds| :: DurableBelowConfirm(t.worlds[i]) {
      forall i | 0 <= i < |t.events| ensures ConfirmsInOrder(t.worlds[i], t.events[i]) {
        RunKeeps(base, t, i);
        assert StepAt(t, i) && DurableBelowConfirm(t.worlds[i]) && DurableBelowConfirm(t.worlds[i + 1]);
        StepDurableIff(base, t.worlds[i], t.events[i]);
      }
    }
  }

  lemma {:induction false} OrderedRunDurable(base: nat, t: Trace, i: nat)
    requires IsRun(base, t) && i < |t.worlds|
    requires forall k | 0 <= k < |t.events| :: InOrder(t.worlds[k], t.events[k])
    ensures DurableBelowConfirm(t.worlds[i]) && DurablePrefix(t.worlds[i])
    decreases i
  {
    if i > 0 {
      OrderedRunDurable(base, t, i - 1);
      RunKeeps(base, t, i - 1);
      assert StepAt(t, i - 1) && InOrder(t.worlds[i - 1], t.events[i - 1]);
      OrderedStepDurable(base, t.worlds[i - 1], t.events[i - 1]);
    }
  }

  lemma OrderedStepDurable(base: nat, w: World, e: Event)
    requires Ok(base, w) && Enabled(w, e) && InOrder(w, e) && DurableBelowConfirm(w) && DurablePrefix(w)
    ensures DurableBelowConfirm(Next(w, e)) && DurablePrefix(Next(w, e))
  {
    if e.Complete? && w.ops[e.op].phase.ok {
      assert OpOk(w.storage, w.durable, w.ops[e.op]);
      OrderedComplete(base, w, e.op);
    } else if e.Submit? {
      SubmitKeepsDurable(base, w, e.op);
    }
  }

  lemma OrderedComplete(base: nat, w: World, o: nat)
    requires Contiguous(base, w.storage) && DurableBelowConfirm(w) && DurablePrefix(w)
    requires Enabled(w, Complete(o)) && w.ops[o].phase.ok && OpOk(w.storage, w.durable, w.ops[o])
    ensures DurableBelowConfirm(Next(w, Complete(o)))
  {
    var at, v := w.ops[o].phase.at, Next(w, Complete(o));
    forall k | 0 <= k < |w.storage| && w.storage[k].count > 0 && w.storage[k].offset < v.confirm
      ensures k in w.durable
    {
      if k < at {
        assert at in w.durable;
      } else if at < k {
        EarlierEndsFirst(base, w.storage, at, k);
      }
    }
  }

  /** A newly submitted record starts at or past everything confirmed. */
  lemma SubmitKeepsDurable(base: nat, w: World, o: nat)
    requires Ok(base, w) && DurableBelowConfirm(w) && Enabled(w, Submit(o))
    ensures DurableBelowConfirm(Next(w, Submit(o)))
  {
    assert w.lock == Some(o);
  }

  /** When durability resolves in submit order, everything below the confirm offset is durable on every schedule. */
  lemma ConfirmedIsDurable(base: nat, t: Trace, i: nat, x: nat)
    requires IsRun(base, t) && i < |t.worlds| && base <= x < t.worlds[i].confirm
    requires forall k | 0 <= k < |t.events| :: InOrder(t.worlds[k], t.events[k])
    ensures exists k :: k in t.worlds[i].durable && k < |t.worlds[i].storage|
              && t.worlds[i].storage[k].offset <= x < t.worlds[i].storage[k].offset + t.worlds[i].storage[k].count
  {
    var w := t.worlds[i];
    RunKeeps(base, t, i);
    OrderedRunDurable(base, t, i);
    var k := EntryAt(base, w.storage, x);
    assert k in w.durable;
  }

  function Last(t: Trace): World
    requires t.worlds != []
  {
    t.worlds[|t.worlds| - 1]
  }

  /** A run with one more event. */
  lemma Extend(base: nat, t: Trace, e: Event) returns (u: Trace)
    requires IsRun(base, t) && Enabled(Last(t), e)
    ensures IsRun(base, u) && Last(u) == Next(Last(t), e)
  {
    u := Trace(t.worlds + [Next(Last(t), e)], t.events + [e]);
    forall i | 0 <= i < |u.events| ensures StepAt(u, i) {
      assert i < |t.events| ==> StepAt(t, i);
    }
  }

  /** An append on an idle, unmarked stream goes through to storage. */
  lemma AppendOne(base: nat, t: Trace, o: nat, count: nat) returns (u: Trace)
    requires IsRun(base, t) && !Marked(Last(t)) && Last(t).lock.None? && o !in Last(t).ops
    ensures IsRun(base, u)
    ensures
      var w := Last(t);
      Last(u) == w.(next := w.next + count, inflight := w.inflight + 1, storage := w.storage + [Entry(w.next, count)],
                    ops := w.ops[o := Op(count, Submitted(|w.storage|, w.next))])
  {
    u := Extend(base, t, Begin(o, count));
    u := Extend(base, u, Check(o));
    u := Extend(base, u, Acquire(o));
    u := Extend(base, u, Reserve(o));
    u := Extend(base, u, Submit(o));
  }

  /** Storage that resolves out of order breaks it: the second of two records is confirmed, the first is not durable. */
  lemma OutOfOrderConfirms() returns (t: Trace)
    ensures IsRun(0, t)
    ensures Last(t).confirm == 2 && Last(t).storage == [Entry(0, 1), Entry(1, 1)] && 0 !in Last(t).durable
  {
    t := AppendOne(0, Trace([Opened(0)], []), 0, 1);
    t := AppendOne(0, t, 1, 1);
    t := Extend(0, t, Resolve(1, true));
    t := Extend(0, t, Complete(1));
  }

  /** The entry that holds an offset. */
  lemma {:induction false} EntryAt(base: nat, storage: seq<Entry>, x: nat) returns (k: nat)
    requires Contiguous(base, storage) && base <= x < End(base, storage)
    ensures k < |storage| && storage[k].offset <= x < storage[k].offset + storage[k].count
  {
    var n := |storage| - 1;
    assert storage[n].offset == End(base, storage[..n]);
    if x >= storage[n].offset {
      k := n;
    } else {
      forall i | 0 <= i < n ensures storage[..n][i].offset == End(base, storage[..n][..i]) {
        assert storage[..n][..i] == storage[..i];
      }
      k := EntryAt(base, storage[..n], x);
    }
  }
}
