/** Lease keepers competing for one row, with stale clock reads, crashes, and statements that land after their
    caller gave up. */
module LeaseKeeper {
  import opened Bytes
  import opened LogStore

  /** An epoch granted for a clock value read before the call. */
  datatype Claim = Claim(epoch: nat, at: int)

  datatype Phase =
    | Waiting
    | Calling(now: int)
    | Answered(now: int, got: Option<nat>)
    | Broken(now: int)
    | Releasing(epoch: nat)
    | Stopped

  /** `seen` is the clock value of the last attempt the keeper finished. */
  datatype Keeper = Keeper(held: Option<Claim>, leader: bool, phase: Phase, seen: int)

  /** What a keeper asks of the row. */
  datatype Statement =
    | Take(name: string, prev: Option<nat>, now: int)
    | GiveBack(name: string, epoch: nat)

  /** `late` holds the statements whose callers saw an error or crashed; each may still execute, once. */
  datatype World = World(row: Lease, clock: int, keepers: map<string, Keeper>, grants: seq<nat>,
                         late: multiset<Statement>)

  datatype Event =
    | Tick(delta: nat)
    | Start(name: string)
    | Crash(name: string)
    | Read(name: string)
    | Execute(name: string)
    | Lose(name: string)
    | Receive(name: string)
    | Recover(name: string)
    | Stop(name: string)
    | Release(name: string)
    | AbandonRelease(name: string)
    | Land(statement: Statement)

  function Prev(k: Keeper): Option<nat> {
    if k.held.Some? then Some(k.held.value.epoch) else None
  }

  predicate Outstanding(k: Keeper) {
    k.phase.Calling? || k.phase.Releasing?
  }

  function Issued(n: string, k: Keeper): Statement
    requires Outstanding(k)
  {
    if k.phase.Calling? then Take(n, Prev(k), k.phase.now) else GiveBack(n, k.phase.epoch)
  }

  predicate Enabled(w: World, e: Event) {
    match e
    case Tick(_) => true
    case Start(n) => n !in w.keepers
    case Crash(n) => n in w.keepers
    case Read(n) => n in w.keepers && w.keepers[n].phase.Waiting?
    case Execute(n) => n in w.keepers && w.keepers[n].phase.Calling?
    case Lose(n) => n in w.keepers && w.keepers[n].phase.Calling?
    case Receive(n) => n in w.keepers && w.keepers[n].phase.Answered?
    case Recover(n) => n in w.keepers && w.keepers[n].phase.Broken?
    case Stop(n) => n in w.keepers && w.keepers[n].phase.Waiting?
    case Release(n) => n in w.keepers && w.keepers[n].phase.Releasing?
    case AbandonRelease(n) => n in w.keepers && w.keepers[n].phase.Releasing?
    case Land(s) => s in w.late
  }

  function Answer(row: Lease, s: Statement): Option<nat> {
    if s.Take? then Granted(row, s.name, s.prev, s.now) else None
  }

  /** The statement executes on the row; a fresh acquisition is recorded in `grants`. */
  function Perform(w: World, s: Statement, ttl: int): World {
    match s
    case Take(n, prev, now) =>
      var got := Answer(w.row, s);
      w.(row := Leased(w.row, n, prev, now, ttl),
         grants := if got.Some? && prev.None? then w.grants + [got.value] else w.grants)
    case GiveBack(n, epoch) => w.(row := Released(w.row, n, epoch))
  }

  function With(w: World, n: string, k: Keeper): World {
    w.(keepers := w.keepers[n := k])
  }

  /** The caller gives up on its statement. */
  function Orphan(w: World, n: string): World
    requires n in w.keepers
  {
    if Outstanding(w.keepers[n]) then w.(late := w.late + multiset{Issued(n, w.keepers[n])}) else w
  }

  function Next(w: World, e: Event, ttl: int): World
    requires Enabled(w, e)
  {
    match e
    case Tick(delta) => w.(clock := w.clock + delta)
    case Start(n) => With(w, n, Keeper(None, false, Waiting, w.clock))
    case Crash(n) => Orphan(w, n).(keepers := w.keepers - {n})
    case Read(n) => With(w, n, w.keepers[n].(phase := Calling(w.clock)))
    case Execute(n) =>
      var k := w.keepers[n];
      var s := Issued(n, k);
      With(Perform(w, s, ttl), n, k.(phase := Answered(k.phase.now, Answer(w.row, s))))
    case Lose(n) => With(Orphan(w, n), n, w.keepers[n].(phase := Broken(w.keepers[n].phase.now)))
    case Receive(n) =>
      var p := w.keepers[n].phase;
      With(w, n, if p.got.Some? then Keeper(Some(Claim(p.got.value, p.now)), true, Waiting, p.now)
                 else Keeper(None, false, Waiting, p.now))
    case Recover(n) =>
      var k := w.keepers[n];
      With(w, n, if k.held.Some? && k.phase.now - k.held.value.at >= ttl then Keeper(None, false, Waiting, k.phase.now)
                 else k.(phase := Waiting, seen := k.phase.now))
    case Stop(n) =>
      var k := w.keepers[n];
      With(w, n, k.(held := None, phase := if k.held.Some? then Releasing(k.held.value.epoch) else Stopped))
    case Release(n) =>
      var k := w.keepers[n];
      With(Perform(w, Issued(n, k), ttl), n, k.(leader := false, phase := Stopped))
    case AbandonRelease(n) => With(Orphan(w, n), n, w.keepers[n].(leader := false, phase := Stopped))
    case Land(s) => Perform(w, s, ttl).(late := w.late - multiset{s})
  }

  /** The keeper an event belongs to. */
  predicate Of(e: Event, n: string) {
    !e.Tick? && !e.Land? && e.name == n
  }

  // ---- what every event keeps ----

  /** Clock values are in the past, and a keeper that leads has a recent success. */
  predicate KeeperOk(k: Keeper, clock: int, ttl: int) {
    && (k.held.Some? ==> k.held.value.at <= clock)
    && (k.phase.Calling? || k.phase.Answered? || k.phase.Broken? ==>
          k.phase.now <= clock && (k.held.Some? ==> k.held.value.at <= k.phase.now))
    && (k.leader ==> k.held.Some? || k.phase.Releasing?)
    && (k.held.Some? ==> k.seen == k.held.value.at || k.seen - k.held.value.at < ttl)
    && (k.phase.Releasing? || k.phase.Stopped? ==> k.held.None?)
  }

  ghost predicate KeepersOk(w: World, ttl: int) {
    && (forall n | n in w.keepers :: KeeperOk(w.keepers[n], w.clock, ttl))
    && forall s | s in w.late && s.Take? :: s.now <= w.clock
  }

  lemma KeepersKeep(w: World, e: Event, ttl: int)
    requires KeepersOk(w, ttl) && Enabled(w, e)
    ensures KeepersOk(Next(w, e, ttl), ttl)
  {
    var v := Next(w, e, ttl);
    forall n | n in v.keepers ensures KeeperOk(v.keepers[n], v.clock, ttl) {
      assert n in w.keepers ==> KeeperOk(w.keepers[n], w.clock, ttl);
    }
    forall s | s in v.late && s.Take? ensures s.now <= v.clock {
      if s !in w.late {
        assert KeeperOk(w.keepers[e.name], w.clock, ttl);
      }
    }
  }

  /** Epochs granted so far, in order, and none above the row's. */
  predicate GrantsOk(w: World) {
    && (forall i, j | 0 <= i < j < |w.grants| :: w.grants[i] < w.grants[j])
    && forall i | 0 <= i < |w.grants| :: w.grants[i] <= w.row.epoch
  }

  /** The statement an event executes, if any. */
  function Executed(w: World, e: Event): Option<Statement>
    requires Enabled(w, e)
  {
    match e
    case Execute(n) => Some(Issued(n, w.keepers[n]))
    case Release(n) => Some(Issued(n, w.keepers[n]))
    case Land(s) => Some(s)
    case _ => None
  }

  lemma PerformGrants(w: World, s: Statement, ttl: int)
    requires GrantsOk(w)
    ensures var v := Perform(w, s, ttl); GrantsOk(v) && v.row.epoch >= w.row.epoch
  {
  }

  lemma GrantsKeep(w: World, e: Event, ttl: int)
    requires GrantsOk(w) && Enabled(w, e)
    ensures var v := Next(w, e, ttl); GrantsOk(v) && v.row.epoch >= w.row.epoch
  {
    var s := Executed(w, e);
    if s.Some? {
      PerformGrants(w, s.value, ttl);
    }
  }

  // ---- claims on the row ----

  /** What the keeper believes to hold, or is about to be told. */
  predicate Claims(k: Keeper, c: Claim) {
    k.held == Some(c) || (k.phase.Answered? && k.phase.got.Some? && c == Claim(k.phase.got.value, k.phase.now))
  }

  predicate RunOut(c: Claim, clock: int, ttl: int) {
    c.at + ttl < clock
  }

  /** The row is the holder's at least until the claim's time to live, or that time has passed. */
  predicate Protected(row: Lease, clock: int, n: string, c: Claim, ttl: int) {
    c.epoch <= row.epoch && ((row.holder == n && row.expires >= c.at + ttl) || RunOut(c, clock, ttl))
  }

  ghost predicate ClaimsOk(w: World, ttl: int) {
    forall n, c | n in w.keepers && Claims(w.keepers[n], c) :: Protected(w.row, w.clock, n, c, ttl)
  }

  /** A release names an epoch below every claim its name has by now. */
  ghost predicate ReleasesOk(w: World) {
    && (forall n | n in w.keepers && w.keepers[n].phase.Releasing? :: w.keepers[n].phase.epoch <= w.row.epoch)
    && (forall s | s in w.late && s.GiveBack? :: s.epoch <= w.row.epoch)
    && forall s, c | s in w.late && s.GiveBack? && s.name in w.keepers && Claims(w.keepers[s.name], c) ::
        s.epoch < c.epoch
  }

  ghost predicate Ok(w: World, ttl: int) {
    KeepersOk(w, ttl) && ClaimsOk(w, ttl) && ReleasesOk(w)
  }

  /** The statement is refused, or no live claim of its own name is newer than it. */
  ghost predicate Harmless(w: World, s: Statement, ttl: int) {
    s.Take? && Answer(w.row, s).Some? && s.name in w.keepers ==>
      forall c | Claims(w.keepers[s.name], c) :: c.at <= s.now || RunOut(c, w.clock, ttl)
  }

  /** No statement takes the row from another name's claim that has not run out, nor shortens it. */
  lemma OthersKeep(w: World, s: Statement, m: string, c: Claim, ttl: int)
    requires Protected(w.row, w.clock, m, c, ttl) && m != s.name && (s.Take? ==> s.now <= w.clock)
    ensures Protected(Perform(w, s, ttl).row, w.clock, m, c, ttl)
  {
  }

  /** A late statement keeps every claim protected if and only if it is harmless. */
  lemma LandKeepsIff(w: World, s: Statement, ttl: int)
    requires Ok(w, ttl) && Enabled(w, Land(s))
    ensures ClaimsOk(Next(w, Land(s), ttl), ttl) <==> Harmless(w, s, ttl)
  {
    var v := Next(w, Land(s), ttl);
    forall m, c | m in w.keepers && Claims(w.keepers[m], c)
      ensures m != s.name ==> Protected(v.row, v.clock, m, c, ttl)
    {
      assert Protected(w.row, w.clock, m, c, ttl);
      if m != s.name {
        OthersKeep(w, s, m, c, ttl);
      }
    }
  }

  lemma OwnClaims(w: World, e: Event, n: string, c: Claim, ttl: int)
    requires Ok(w, ttl) && Enabled(w, e) && Of(e, n) && n in Next(w, e, ttl).keepers
    requires Claims(Next(w, e, ttl).keepers[n], c)
    ensures Protected(Next(w, e, ttl).row, Next(w, e, ttl).clock, n, c, ttl)
  {
    var k := Next(w, e, ttl).keepers[n];
    if n in w.keepers {
      assert KeeperOk(w.keepers[n], w.clock, ttl);
      assert Claims(w.keepers[n], c) ==> Protected(w.row, w.clock, n, c, ttl);
    }
  }

  lemma ClaimsKeep(w: World, e: Event, ttl: int)
    requires Ok(w, ttl) && Enabled(w, e) && !e.Land?
    ensures ClaimsOk(Next(w, e, ttl), ttl)
  {
    var v := Next(w, e, ttl);
    forall m, c | m in v.keepers && Claims(v.keepers[m], c) ensures Protected(v.row, v.clock, m, c, ttl) {
      if Of(e, m) {
        OwnClaims(w, e, m, c, ttl);
      } else {
        assert v.keepers[m] == w.keepers[m] && Protected(w.row, w.clock, m, c, ttl);
        if e.Execute? || e.Release? {
          assert KeeperOk(w.keepers[e.name], w.clock, ttl);
          OthersKeep(w, Issued(e.name, w.keepers[e.name]), m, c, ttl);
        }
      }
    }
  }

  /** A claim's epoch was claimed before by the same keeper, or is new to the row. */
  lemma ClaimOrigin(w: World, e: Event, n: string, c: Claim, ttl: int)
    requires Enabled(w, e) && n in Next(w, e, ttl).keepers && Claims(Next(w, e, ttl).keepers[n], c)
    ensures c.epoch > w.row.epoch || (n in w.keepers && exists b :: Claims(w.keepers[n], b) && b.epoch == c.epoch)
  {
    if c.epoch <= w.row.epoch {
      var k := w.keepers[n];
      var b := if k.held.Some? && k.held.value.epoch == c.epoch then k.held.value else c;
      assert Claims(k, b) && b.epoch == c.epoch;
    }
  }

  lemma LateReleasesKeep(w: World, e: Event, s: Statement, c: Claim, ttl: int)
    requires Ok(w, ttl) && Enabled(w, e) && s in Next(w, e, ttl).late && s.GiveBack?
    requires s.name in Next(w, e, ttl).keepers && Claims(Next(w, e, ttl).keepers[s.name], c)
    ensures s.epoch < c.epoch
  {
    if s in w.late {
      assert s.epoch <= w.row.epoch;
      ClaimOrigin(w, e, s.name, c, ttl);
    }
  }

  lemma RowEpochGrows(w: World, e: Event, ttl: int)
    requires Enabled(w, e)
    ensures Next(w, e, ttl).row.epoch >= w.row.epoch
  {
  }

  lemma ReleasingBounded(w: World, e: Event, ttl: int, n: string)
    requires Ok(w, ttl) && Enabled(w, e)
    ensures
      var v := Next(w, e, ttl);
      n in v.keepers && v.keepers[n].phase.Releasing? ==> v.keepers[n].phase.epoch <= v.row.epoch
  {
    RowEpochGrows(w, e, ttl);
    if e.Stop? && e.name == n && w.keepers[n].held.Some? {
      assert Claims(w.keepers[n], w.keepers[n].held.value);
    }
  }

  lemma LateBounded(w: World, e: Event, ttl: int, s: Statement)
    requires Ok(w, ttl) && Enabled(w, e) && s in Next(w, e, ttl).late && s.GiveBack?
    ensures s.epoch <= Next(w, e, ttl).row.epoch
  {
    RowEpochGrows(w, e, ttl);
  }

  lemma ReleasesBounded(w: World, e: Event, ttl: int)
    requires Ok(w, ttl) && Enabled(w, e)
    ensures
      var v := Next(w, e, ttl);
      && (forall n | n in v.keepers && v.keepers[n].phase.Releasing? :: v.keepers[n].phase.epoch <= v.row.epoch)
      && (forall s | s in v.late && s.GiveBack? :: s.epoch <= v.row.epoch)
  {
    var v := Next(w, e, ttl);
    forall n | n in v.keepers && v.keepers[n].phase.Releasing? ensures v.keepers[n].phase.epoch <= v.row.epoch {
      ReleasingBounded(w, e, ttl, n);
    }
    forall s | s in v.late && s.GiveBack? ensures s.epoch <= v.row.epoch {
      LateBounded(w, e, ttl, s);
    }
  }

  lemma ReleasesKeep(w: World, e: Event, ttl: int)
    requires Ok(w, ttl) && Enabled(w, e)
    ensures ReleasesOk(Next(w, e, ttl))
  {
    var v := Next(w, e, ttl);
    ReleasesBounded(w, e, ttl);
    forall s, c | s in v.late && s.GiveBack? && s.name in v.keepers && Claims(v.keepers[s.name], c)
      ensures s.epoch < c.epoch
    {
      LateReleasesKeep(w, e, s, c, ttl);
    }
  }

  /** An event keeps every claim protected unless it is a late statement that is not harmless. */
  lemma StepKeepsIff(w: World, e: Event, ttl: int)
    requires Ok(w, ttl) && Enabled(w, e)
    ensures Ok(Next(w, e, ttl), ttl) <==> (e.Land? ==> Harmless(w, e.statement, ttl))
  {
    KeepersKeep(w, e, ttl);
    ReleasesKeep(w, e, ttl);
    if e.Land? {
      LandKeepsIff(w, e.statement, ttl);
    } else {
      ClaimsKeep(w, e, ttl);
    }
  }

  // ---- every run ----

  const EMPTY := World(SEED_LEASE, 0, map[], [], multiset{})

  datatype Trace = Trace(worlds: seq<World>, events: seq<Event>)

  predicate StepAt(t: Trace, i: nat, ttl: int)
    requires i < |t.events| && |t.worlds| == |t.events| + 1
  {
    Enabled(t.worlds[i], t.events[i]) && t.worlds[i + 1] == Next(t.worlds[i], t.events[i], ttl)
  }

  predicate IsRun(t: Trace, ttl: int) {
    && |t.worlds| == |t.events| + 1 && t.worlds[0] == EMPTY
    && forall i | 0 <= i < |t.events| :: StepAt(t, i, ttl)
  }

  /** No statement lands late on a newer claim of its own name. */
  ghost predicate Guarded(t: Trace, ttl: int)
    requires |t.worlds| == |t.events| + 1
  {
    forall i | 0 <= i < |t.events| && t.events[i].Land? :: Harmless(t.worlds[i], t.events[i].statement, ttl)
  }

  lemma {:induction false} RunKeeps(t: Trace, ttl: int, i: nat)
    requires IsRun(t, ttl) && Guarded(t, ttl) && i < |t.worlds|
    ensures Ok(t.worlds[i], ttl)
    decreases i
  {
    if i > 0 {
      RunKeeps(t, ttl, i - 1);
      assert StepAt(t, i - 1, ttl);
      StepKeepsIff(t.worlds[i - 1], t.events[i - 1], ttl);
    }
  }

  /** A run keeps every claim protected throughout if and only if its late statements are harmless. */
  lemma {:induction false} RunKeepsIff(t: Trace, ttl: int)
    requires IsRun(t, ttl)
    ensures (forall i | 0 <= i < |t.worlds| :: Ok(t.worlds[i], ttl)) <==> Guarded(t, ttl)
  {
    if Guarded(t, ttl) {
      forall i | 0 <= i < |t.worlds| ensures Ok(t.worlds[i], ttl) {
        RunKeeps(t, ttl, i);
      }
    }
    if forall i | 0 <= i < |t.worlds| :: Ok(t.worlds[i], ttl) {
      forall i | 0 <= i < |t.events| && t.events[i].Land? ensures Harmless(t.worlds[i], t.events[i].statement, ttl) {
        assert StepAt(t, i, ttl) && Ok(t.worlds[i], ttl) && Ok(t.worlds[i + 1], ttl);
        StepKeepsIff(t.worlds[i], t.events[i], ttl);
      }
    }
  }

  /** The keeper's last success is at most one time-to-live ago. */
  predicate HoldsWithinTtl(w: World, n: string, ttl: int) {
    n in w.keepers && w.keepers[n].held.Some? && w.clock - w.keepers[n].held.value.at <= ttl
  }

  /** Exclusion: at no moment of a guarded run do two keepers both hold the lease within its time to live. */
  lemma LeaseExclusion(t: Trace, ttl: int, i: nat, p: string, q: string)
    requires IsRun(t, ttl) && Guarded(t, ttl) && i < |t.worlds|
    requires HoldsWithinTtl(t.worlds[i], p, ttl) && HoldsWithinTtl(t.worlds[i], q, ttl)
    ensures p == q
  {
    RunKeeps(t, ttl, i);
    var w := t.worlds[i];
    assert Claims(w.keepers[p], w.keepers[p].held.value) && Claims(w.keepers[q], w.keepers[q].held.value);
  }

  /** When two leadership flags are up at once, one of them is past its time to live or giving the lease back. */
  lemma FlagsOverlapOnlyPastTtl(t: Trace, ttl: int, i: nat, p: string, q: string)
    requires IsRun(t, ttl) && Guarded(t, ttl) && i < |t.worlds| && p != q
    requires p in t.worlds[i].keepers && t.worlds[i].keepers[p].leader
    requires q in t.worlds[i].keepers && t.worlds[i].keepers[q].leader
    ensures
      var w := t.worlds[i];
      w.keepers[p].phase.Releasing? || w.keepers[q].phase.Releasing?
      || !HoldsWithinTtl(w, p, ttl) || !HoldsWithinTtl(w, q, ttl)
  {
    var w := t.worlds[i];
    if HoldsWithinTtl(w, p, ttl) && HoldsWithinTtl(w, q, ttl) {
      LeaseExclusion(t, ttl, i, p, q);
    }
  }

  /** A late statement that does not shorten the row's expiry is harmless. */
  lemma LengtheningIsHarmless(w: World, s: Statement, ttl: int)
    requires Ok(w, ttl) && s.Take? && Perform(w, s, ttl).row.expires >= w.row.expires
    ensures Harmless(w, s, ttl)
  {
    if Answer(w.row, s).Some? && s.name in w.keepers {
      forall c | Claims(w.keepers[s.name], c) ensures c.at <= s.now || RunOut(c, w.clock, ttl) {
        assert Protected(w.row, w.clock, s.name, c, ttl);
      }
    }
  }

  // ---- on every run, guarded or not ----

  lemma {:induction false} RunGrants(t: Trace, ttl: int, i: nat)
    requires IsRun(t, ttl) && i < |t.worlds|
    ensures GrantsOk(t.worlds[i]) && KeepersOk(t.worlds[i], ttl)
    decreases i
  {
    if i > 0 {
      RunGrants(t, ttl, i - 1);
      assert StepAt(t, i - 1, ttl);
      GrantsKeep(t.worlds[i - 1], t.events[i - 1], ttl);
      KeepersKeep(t.worlds[i - 1], t.events[i - 1], ttl);
    }
  }

  /** Each acquisition is granted an epoch above every epoch granted before it in the run. */
  lemma AcquisitionsRaiseEpoch(t: Trace, ttl: int, i: nat)
    requires IsRun(t, ttl) && i < |t.worlds|
    ensures forall a, b | 0 <= a < b < |t.worlds[i].grants| :: t.worlds[i].grants[a] < t.worlds[i].grants[b]
    ensures forall a | 0 <= a < |t.worlds[i].grants| :: t.worlds[i].grants[a] <= t.worlds[i].row.epoch
  {
    RunGrants(t, ttl, i);
  }

  /** A keeper that still leads found, at its last attempt, that its last success was less than a time to live old. */
  lemma LeadsOnlyWithinTtl(t: Trace, ttl: int, i: nat, n: string)
    requires IsRun(t, ttl) && i < |t.worlds| && n in t.worlds[i].keepers
    requires t.worlds[i].keepers[n].leader && !t.worlds[i].keepers[n].phase.Releasing?
    ensures
      var k := t.worlds[i].keepers[n];
      k.held.Some? && (k.seen == k.held.value.at || k.seen - k.held.value.at < ttl)
  {
    RunGrants(t, ttl, i);
    assert KeeperOk(t.worlds[i].keepers[n], t.worlds[i].clock, ttl);
  }

  lemma {:induction false} EpochGrows(t: Trace, ttl: int, i: nat, j: nat)
    requires IsRun(t, ttl) && i <= j < |t.worlds|
    ensures t.worlds[i].row.epoch <= t.worlds[j].row.epoch
    decreases j
  {
    if i < j {
      EpochGrows(t, ttl, i, j - 1);
      assert StepAt(t, j - 1, ttl);
    }
  }

  predicate Names(s: Statement, epoch: nat) {
    s == GiveBack(s.name, epoch) || (s.Take? && s.prev == Some(epoch))
  }

  /** Fencing: once the row moved past an epoch, no renewal or release of that epoch, however late,
      ever changes the row again, and every such renewal is refused. */
  lemma OldEpochChangesNothing(t: Trace, ttl: int, i: nat, j: nat, epoch: nat)
    requires IsRun(t, ttl) && i <= j < |t.events| && t.worlds[i].row.epoch > epoch && StepAt(t, j, ttl)
    requires
      var s := Executed(t.worlds[j], t.events[j]);
      s.Some? && Names(s.value, epoch)
    ensures t.worlds[j + 1].row == t.worlds[j].row
    ensures Answer(t.worlds[j].row, Executed(t.worlds[j], t.events[j]).value).None?
  {
    EpochGrows(t, ttl, i, j);
  }

  /** The keeper is neither answered, stopped nor crashed. */
  predicate NoNews(e: Event, n: string) {
    !(Of(e, n) && (e.Receive? || e.Stop? || e.Crash?))
  }

  /** Every failed attempt between two moments was made less than a time to live after the last success. */
  ghost predicate FailedInTime(t: Trace, i: nat, j: nat, n: string, at: int, ttl: int)
    requires i <= j < |t.worlds| == |t.events| + 1
  {
    forall k | i <= k < j && t.events[k] == Recover(n) && n in t.worlds[k].keepers
        && t.worlds[k].keepers[n].phase.Broken? ::
      t.worlds[k].keepers[n].phase.now - at < ttl
  }

  /** Without news a keeper's claim and flag change only by giving up after a failed attempt. */
  lemma NoNewsStep(w: World, e: Event, n: string, ttl: int)
    requires Enabled(w, e) && NoNews(e, n) && n in w.keepers && !w.keepers[n].phase.Releasing?
    ensures
      var v, k := Next(w, e, ttl), w.keepers[n];
      && n in v.keepers && !v.keepers[n].phase.Releasing?
      && var gaveUp := e == Recover(n) && k.held.Some? && k.phase.now - k.held.value.at >= ttl;
         v.keepers[n].leader == (k.leader && !gaveUp) && v.keepers[n].held == if gaveUp then None else k.held
  {
  }

  /** A leader that hears nothing but errors leads on if and only if none of its attempts came a time to live
      after its last success. */
  lemma {:induction false} LeadsThroughErrorsIff(t: Trace, ttl: int, i: nat, j: nat, n: string)
    requires IsRun(t, ttl) && i <= j < |t.worlds| && n in t.worlds[i].keepers
    requires t.worlds[i].keepers[n].leader && t.worlds[i].keepers[n].held.Some?
    requires forall k | i <= k < j :: NoNews(t.events[k], n)
    ensures
      var at := t.worlds[i].keepers[n].held.value.at;
      && n in t.worlds[j].keepers && !t.worlds[j].keepers[n].phase.Releasing?
      && (t.worlds[j].keepers[n].leader <==> FailedInTime(t, i, j, n, at, ttl))
      && t.worlds[j].keepers[n].held == if t.worlds[j].keepers[n].leader then t.worlds[i].keepers[n].held else None
    decreases j
  {
    if i < j {
      LeadsThroughErrorsIff(t, ttl, i, j - 1, n);
      assert StepAt(t, j - 1, ttl) && NoNews(t.events[j - 1], n);
      NoNewsStep(t.worlds[j - 1], t.events[j - 1], n, ttl);
      FailedSnoc(t, i, j, n, t.worlds[i].keepers[n].held.value.at, ttl);
    } else {
      RunGrants(t, ttl, i);
      assert KeeperOk(t.worlds[i].keepers[n], t.worlds[i].clock, ttl);
    }
  }

  lemma FailedSnoc(t: Trace, i: nat, j: nat, n: string, at: int, ttl: int)
    requires i < j < |t.worlds| == |t.events| + 1 && Enabled(t.worlds[j - 1], t.events[j - 1])
    ensures FailedInTime(t, i, j, n, at, ttl) <==>
            FailedInTime(t, i, j - 1, n, at, ttl)
            && (t.events[j - 1] == Recover(n) ==> t.worlds[j - 1].keepers[n].phase.now - at < ttl)
  {
  }

  // ---- what a keeper makes of its answers ----

  predicate Grants(w: World, e: Event, n: string) {
    e == Receive(n) && n in w.keepers && w.keepers[n].phase.Answered? && w.keepers[n].phase.got.Some?
  }

  predicate Unled(w: World, n: string) {
    n in w.keepers ==> !w.keepers[n].leader && w.keepers[n].held.None?
  }

  /** Only its own events touch a keeper. */
  lemma OthersUntouched(w: World, e: Event, n: string, ttl: int)
    requires Enabled(w, e) && !Of(e, n)
    ensures n in Next(w, e, ttl).keepers <==> n in w.keepers
    ensures n in w.keepers ==> Next(w, e, ttl).keepers[n] == w.keepers[n]
  {
  }

  lemma StepUnled(w: World, e: Event, n: string, ttl: int)
    requires Enabled(w, e) && !Grants(w, e, n) && Unled(w, n)
    ensures Unled(Next(w, e, ttl), n)
  {
    if !Of(e, n) {
      OthersUntouched(w, e, n, ttl);
    }
  }

  /** After a refusal it received, a keeper neither leads nor holds until it receives a later grant. */
  lemma {:induction false} RefusalDemotes(t: Trace, ttl: int, i: nat, j: nat, n: string)
    requires IsRun(t, ttl) && i < j < |t.worlds| && t.events[i] == Receive(n) && !Grants(t.worlds[i], t.events[i], n)
    requires forall k | i < k < j :: !Grants(t.worlds[k], t.events[k], n)
    ensures Unled(t.worlds[j], n)
    decreases j
  {
    assert StepAt(t, j - 1, ttl);
    if i < j - 1 {
      RefusalDemotes(t, ttl, i, j - 1, n);
      assert !Grants(t.worlds[j - 1], t.events[j - 1], n);
      StepUnled(t.worlds[j - 1], t.events[j - 1], n, ttl);
    }
  }

  predicate OpenCall(w: World, n: string, at: int) {
    && n in w.keepers && (w.keepers[n].phase.Calling? || w.keepers[n].phase.Answered?) && w.keepers[n].phase.now == at
  }

  lemma StepKeepsCall(w: World, e: Event, n: string, at: int, ttl: int)
    requires Enabled(w, e) && OpenCall(w, n, at) && (!Of(e, n) || e.Execute?)
    ensures OpenCall(Next(w, e, ttl), n, at)
  {
    if !Of(e, n) {
      OthersUntouched(w, e, n, ttl);
    }
  }

  lemma {:induction false} CallKeepsClock(t: Trace, ttl: int, i: nat, j: nat, n: string)
    requires IsRun(t, ttl) && i < j < |t.worlds| && t.events[i] == Read(n)
    requires forall k | i < k < j :: !Of(t.events[k], n) || t.events[k].Execute?
    ensures OpenCall(t.worlds[j], n, t.worlds[i].clock)
    decreases j
  {
    assert StepAt(t, j - 1, ttl);
    if i < j - 1 {
      CallKeepsClock(t, ttl, i, j - 1, n);
      StepKeepsCall(t.worlds[j - 1], t.events[j - 1], n, t.worlds[i].clock, ttl);
    }
  }

  /** A received grant makes the keeper lead, with the granted epoch, as of the clock it read before the call. */
  lemma GrantLeads(t: Trace, ttl: int, i: nat, j: nat, n: string)
    requires IsRun(t, ttl) && i < j < |t.events| && t.events[i] == Read(n)
    requires forall k | i < k < j :: !Of(t.events[k], n) || t.events[k].Execute?
    requires Grants(t.worlds[j], t.events[j], n)
    ensures n in t.worlds[j + 1].keepers && t.worlds[j + 1].keepers[n].leader
    ensures t.worlds[j + 1].keepers[n].held == Some(Claim(t.worlds[j].keepers[n].phase.got.value, t.worlds[i].clock))
  {
    CallKeepsClock(t, ttl, i, j, n);
    assert StepAt(t, j, ttl);
  }

  /** On guarded runs a keeper within its time to live whose epoch is still the row's is never refused. */
  lemma UndisturbedRenewal(t: Trace, ttl: int, i: nat, n: string)
    requires IsRun(t, ttl) && Guarded(t, ttl) && i < |t.events| && t.events[i] == Execute(n)
    requires HoldsWithinTtl(t.worlds[i], n, ttl)
    requires t.worlds[i].row.epoch == t.worlds[i].keepers[n].held.value.epoch
    ensures n in t.worlds[i + 1].keepers && t.worlds[i + 1].keepers[n].phase.Answered?
    ensures t.worlds[i + 1].keepers[n].phase.got == Some(t.worlds[i].row.epoch)
  {
    var w := t.worlds[i];
    RunKeeps(t, ttl, i);
    assert StepAt(t, i, ttl) && Claims(w.keepers[n], w.keepers[n].held.value) && KeeperOk(w.keepers[n], w.clock, ttl);
  }

  predicate Leaving(w: World, n: string) {
    && n in w.keepers && (w.keepers[n].phase.Releasing? || w.keepers[n].phase.Stopped?) && w.keepers[n].held.None?
    && (w.keepers[n].phase.Stopped? ==> !w.keepers[n].leader)
  }

  lemma StepLeaving(w: World, e: Event, n: string, ttl: int)
    requires Enabled(w, e) && e != Crash(n) && Leaving(w, n)
    ensures Leaving(Next(w, e, ttl), n)
  {
    if !Of(e, n) {
      OthersUntouched(w, e, n, ttl);
    }
  }

  /** A keeper that was told to stop holds nothing again, and no longer leads once its release is over. */
  lemma {:induction false} StopsForGood(t: Trace, ttl: int, i: nat, j: nat, n: string)
    requires IsRun(t, ttl) && i < j < |t.worlds| && t.events[i] == Stop(n)
    requires forall k | i < k < j :: t.events[k] != Crash(n)
    ensures Leaving(t.worlds[j], n)
    decreases j
  {
    assert StepAt(t, j - 1, ttl);
    if i < j - 1 {
      StopsForGood(t, ttl, i, j - 1, n);
      assert t.events[j - 1] != Crash(n);
      StepLeaving(t.worlds[j - 1], t.events[j - 1], n, ttl);
    } else {
      RunGrants(t, ttl, i);
      assert KeeperOk(t.worlds[i].keepers[n], t.worlds[i].clock, ttl);
    }
  }

  lemma {:induction false} ReleasesWhatItHeld(t: Trace, ttl: int, i: nat, j: nat, n: string)
    requires IsRun(t, ttl) && i < j < |t.worlds| && t.events[i] == Stop(n)
    requires n in t.worlds[i].keepers && t.worlds[i].keepers[n].held.Some?
    requires forall k | i < k < j :: !Of(t.events[k], n)
    ensures n in t.worlds[j].keepers
    ensures t.worlds[j].keepers[n].phase == Releasing(t.worlds[i].keepers[n].held.value.epoch)
    decreases j
  {
    assert StepAt(t, j - 1, ttl);
    if i < j - 1 {
      ReleasesWhatItHeld(t, ttl, i, j - 1, n);
      OthersUntouched(t.worlds[j - 1], t.events[j - 1], n, ttl);
    }
  }

  /** A keeper that stops hands the lease over: once its release executes on the row it still owns, everyone else may
      acquire it at once, at the next epoch. */
  lemma StoppingHandsOver(t: Trace, ttl: int, i: nat, j: nat, n: string, other: string, now: int)
    requires IsRun(t, ttl) && i < j < |t.events| && t.events[i] == Stop(n) && t.events[j] == Release(n) && now > 0
    requires n in t.worlds[i].keepers && t.worlds[i].keepers[n].held.Some?
    requires forall k | i < k < j :: !Of(t.events[k], n)
    requires t.worlds[j].row.holder == n && t.worlds[j].row.epoch == t.worlds[i].keepers[n].held.value.epoch
    ensures Granted(t.worlds[j + 1].row, other, None, now) == Some(t.worlds[i].keepers[n].held.value.epoch + 1)
  {
    ReleasesWhatItHeld(t, ttl, i, j, n);
    assert StepAt(t, j, ttl);
  }

  /** A statement whose caller crashed or gave up may still execute, and does so once. */
  lemma LandsOnce(w: World, e: Event, n: string, ttl: int)
    requires Enabled(w, e) && n in w.keepers && Outstanding(w.keepers[n])
    ensures
      var s, v := Issued(n, w.keepers[n]), Next(w, e, ttl);
      && (e == Crash(n) || e == Lose(n) || e == AbandonRelease(n) ==> v.late[s] == w.late[s] + 1 && Enabled(v, Land(s)))
      && (e == Land(s) ==> v.late[s] == w.late[s] - 1)
  {
  }

  // ---- late statements that break exclusion ----

  function Last(t: Trace): World
    requires t.worlds != []
  {
    t.worlds[|t.worlds| - 1]
  }

  /** A run with one more event. */
  lemma Extend(t: Trace, ttl: int, e: Event) returns (u: Trace)
    requires IsRun(t, ttl) && Enabled(Last(t), e)
    ensures IsRun(u, ttl) && Last(u) == Next(Last(t), e, ttl)
  {
    u := Trace(t.worlds + [Next(Last(t), e, ttl)], t.events + [e]);
    forall i | 0 <= i < |u.events| ensures StepAt(u, i, ttl) {
      assert i < |t.events| ==> StepAt(t, i, ttl);
    }
  }

  /** A keeper that waits makes one attempt that is answered. */
  lemma Attempt(t: Trace, ttl: int, n: string) returns (u: Trace)
    requires IsRun(t, ttl) && n in Last(t).keepers && Last(t).keepers[n].phase.Waiting?
    requires Granted(Last(t).row, n, Prev(Last(t).keepers[n]), Last(t).clock).Some?
    ensures IsRun(u, ttl) && Last(u).clock == Last(t).clock && Last(u).late == Last(t).late
    ensures
      var w := Last(t);
      var got := Granted(w.row, n, Prev(w.keepers[n]), w.clock).value;
      && Last(u).row == Lease(n, got, w.clock + ttl)
      && Last(u).keepers == w.keepers[n := Keeper(Some(Claim(got, w.clock)), true, Waiting, w.clock)]
  {
    u := Extend(t, ttl, Read(n));
    u := Extend(u, ttl, Execute(n));
    u := Extend(u, ttl, Receive(n));
  }

  /** A keeper that waits makes one attempt that fails, and its statement stays outstanding. */
  lemma FailedAttempt(t: Trace, ttl: int, n: string) returns (u: Trace)
    requires IsRun(t, ttl) && n in Last(t).keepers && Last(t).keepers[n].phase.Waiting?
    requires Last(t).keepers[n].held.Some? ==> Last(t).clock - Last(t).keepers[n].held.value.at < ttl
    ensures
      var w := Last(t);
      && IsRun(u, ttl) && Last(u).clock == w.clock && Last(u).row == w.row
      && Last(u).late == w.late + multiset{Take(n, Prev(w.keepers[n]), w.clock)}
      && Last(u).keepers == w.keepers[n := w.keepers[n].(seen := w.clock)]
  {
    u := Extend(t, ttl, Read(n));
    u := Extend(u, ttl, Lose(n));
    u := Extend(u, ttl, Recover(n));
  }

  lemma TwoStarted(ttl: int) returns (t: Trace)
    ensures IsRun(t, ttl) && Last(t).clock == 1 && Last(t).row == SEED_LEASE && Last(t).late == multiset{}
    ensures Last(t).keepers == map["p" := Keeper(None, false, Waiting, 0), "q" := Keeper(None, false, Waiting, 0)]
  {
    t := Extend(Trace([EMPTY], []), ttl, Start("p"));
    t := Extend(t, ttl, Start("q"));
    t := Extend(t, ttl, Tick(1));
  }

  /** An acquisition that lands after a newer one of the same keeper cuts the lease: two keepers hold it at once,
      for every time to live. */
  lemma LateAcquisitionSplits(ttl: nat) returns (t: Trace)
    ensures IsRun(t, ttl) && HoldsWithinTtl(Last(t), "p", ttl) && HoldsWithinTtl(Last(t), "q", ttl)
  {
    t := TwoStarted(ttl);
    t := FailedAttempt(t, ttl, "p");
    t := Extend(t, ttl, Tick(1));
    t := Attempt(t, ttl, "p");
    t := Extend(t, ttl, Land(Take("p", None, 1)));
    t := Extend(t, ttl, Tick(ttl));
    t := Attempt(t, ttl, "q");
  }

  /** So does a late renewal. */
  lemma LateRenewalSplits(ttl: nat) returns (t: Trace)
    requires ttl >= 2
    ensures IsRun(t, ttl) && HoldsWithinTtl(Last(t), "p", ttl) && HoldsWithinTtl(Last(t), "q", ttl)
  {
    t := TwoStarted(ttl);
    t := Attempt(t, ttl, "p");
    t := Extend(t, ttl, Tick(1));
    t := FailedAttempt(t, ttl, "p");
    t := Extend(t, ttl, Tick(1));
    t := Attempt(t, ttl, "p");
    t := Extend(t, ttl, Land(Take("p", Some(1), 2)));
    t := Extend(t, ttl, Tick(ttl));
    t := Attempt(t, ttl, "q");
  }
}
