/** Where the workers are, and how many there are.

    Until a Reload removes a drained worker, and without the health check, the list of workers is at every
    step the disjoint union of the channel and of what the threads own. The size of the pool then follows
    from what autoScale and Reload decide: the bounds hold along a run exactly when each decision leaves
    room for what is under way, which for autoScale is a matter of what its sample did not see. */
module PoolSize {
  import opened PoolMachine

  /** Start, Exec, replaceWorker, autoScale and Reload up to its first removal, with spawns that may fail. */
  predicate Plain(a: Action) {
    !a.HealthReplace? && !a.DrainTake?
  }

  /** ... and with spawns that succeed. */
  predicate Smooth(a: Action) {
    Plain(a) && !a.SpawnFail?
  }

  // --- conservation ---

  predicate Owns(th: Thread, w: nat) {
    || (th.Sending? && th.w == w)
    || (th.Holding? && th.w == w)
    || (th.ReplaceStop? && th.w == w)
    || (th.ReplaceRemove? && th.w == w)
    || (th.DownStop? && th.w == w)
    || (th.DownRemove? && th.w == w)
  }

  predicate Owned(s: State, t: nat, w: nat) {
    t in s.threads && Owns(s.threads[t], w)
  }

  /** Threads that no run has: only a running worker is given back. */
  predicate Stray(th: Thread) {
    (th.WantSpawn? || th.Spawning?) && th.why.Returning?
  }

  /** Each listed worker is in exactly one place, and nothing else is in any place. */
  ghost predicate Conserved(s: State) {
    && Inv(s)
    && (forall t: nat :: t in s.threads ==> !Stray(s.threads[t]))
    && (forall w: nat :: w in s.available ==> w in s.workers)
    && (forall t: nat, w: nat :: Owned(s, t, w) ==> w in s.workers && w !in s.available)
    && (forall t: nat, u: nat, w: nat :: Owned(s, t, w) && Owned(s, u, w) ==> t == u)
    && (forall w: nat :: w in s.workers ==> w in s.available || exists t: nat :: Owned(s, t, w))
  }

  /** What a thread owns after a step it owned before, or took over in this step. */
  lemma StepOwned(cfg: Config, s: State, a: Action, u: nat, w: nat)
    requires Enabled(cfg, s, a) && !a.HealthReplace? && Owned(Apply(cfg, s, a), u, w)
    ensures
      || Owned(s, u, w)
      || (a.SpawnOk? && u == a.t && w == s.threads[a.t].id)
      || (Takes(cfg, s, a) && w == s.available[0] && Acquires(cfg, s, a, u, w))
      || (a.ExecRetire? && u == a.n && Owned(s, a.t, w))
    ensures a.Send? || a.ExecRetire? || a.RemoveOld? || a.RemoveIdle? ==> u != a.t
  {
  }

  /** What a thread owned before a step it still owns, unless it gave it up in this step. */
  lemma StepDisowned(cfg: Config, s: State, a: Action, u: nat, w: nat)
    requires Enabled(cfg, s, a) && Plain(a) && Owned(s, u, w)
    ensures
      || Owned(Apply(cfg, s, a), u, w)
      || (a.Send? && u == a.t && w == s.threads[a.t].w)
      || ((a.RemoveOld? || a.RemoveIdle?) && u == a.t && w == s.threads[a.t].w)
      || (a.ExecRetire? && u == a.t && Owned(Apply(cfg, s, a), a.n, w))
  {
  }

  lemma StepNotStray(cfg: Config, s: State, a: Action, u: nat)
    requires Enabled(cfg, s, a) && u in Apply(cfg, s, a).threads
    requires forall t: nat :: t in s.threads ==> !Stray(s.threads[t])
    ensures !Stray(Apply(cfg, s, a).threads[u])
  {
    if u in s.threads { assert !Stray(s.threads[u]); }
  }

  lemma StepPlaces(cfg: Config, s: State, a: Action, w: nat)
    requires Conserved(s) && Enabled(cfg, s, a) && Plain(a)
    requires w in Apply(cfg, s, a).workers
    ensures var s' := Apply(cfg, s, a); w in s'.available || exists t: nat :: Owned(s', t, w)
  {
    var s' := Apply(cfg, s, a);
    StepWorkers(cfg, s, a);
    StepChannel(cfg, s, a);
    if a.RemoveOld? || a.RemoveIdle? { RemoveIdWorks(s.workers, s.threads[a.t].w); }
    if w !in s.workers {
      assert Owned(s', a.t, w);
    } else if w in s.available {
      assert s.available == [s.available[0]] + s.available[1..];
      if w !in s'.available {
        assert Owned(s', if a.ExecReceive? then a.t else a.n, w);
      }
    } else {
      var t: nat :| Owned(s, t, w);
      StepDisowned(cfg, s, a, t, w);
    }
  }

  lemma StepKeepsConserved(cfg: Config, s: State, a: Action)
    requires Conserved(s) && Enabled(cfg, s, a) && Plain(a)
    ensures Conserved(Apply(cfg, s, a))
  {
    var s' := Apply(cfg, s, a);
    StepKeepsInv(cfg, s, a);
    StepWorkers(cfg, s, a);
    StepChannel(cfg, s, a);
    NoDupEnds(s.available, 0);
    if a.Send? || a.RemoveOld? || a.RemoveIdle? {
      assert Owned(s, a.t, s.threads[a.t].w);
      RemoveIdWorks(s.workers, s.threads[a.t].w);
    }
    if a.SpawnOk? { assert Has(s, a.t, s.threads[a.t].id); }
    forall t: nat | t in s'.threads ensures !Stray(s'.threads[t]) { StepNotStray(cfg, s, a, t); }
    forall w: nat | w in s'.workers ensures w in s'.available || exists t: nat :: Owned(s', t, w) {
      StepPlaces(cfg, s, a, w);
    }
    forall t: nat, w: nat | Owned(s', t, w)
      ensures w in s'.workers && w !in s'.available
      ensures forall u: nat :: Owned(s', u, w) ==> t == u
    {
      StepOwned(cfg, s, a, t, w);
      forall u: nat | Owned(s', u, w) ensures t == u { StepOwned(cfg, s, a, u, w); }
    }
  }

  ghost predicate AllPlain(run: seq<Action>) {
    forall i :: 0 <= i < |run| ==> Plain(run[i])
  }

  lemma {:induction false} RunKeepsConserved(cfg: Config, s: State, run: seq<Action>)
    requires Conserved(s) && IsRun(cfg, s, run) && AllPlain(run)
    ensures Conserved(After(cfg, s, run))
    decreases |run|
  {
    if run != [] {
      StepKeepsConserved(cfg, s, run[0]);
      RunKeepsConserved(cfg, Apply(cfg, s, run[0]), run[1..]);
    }
  }

  lemma {:induction false} NoDupCount(ws: seq<nat>, w: nat)
    requires NoDup(ws)
    ensures multiset(ws)[w] == if w in ws then 1 else 0
  {
    if ws != [] {
      assert ws == [ws[0]] + ws[1..];
      NoDupEnds(ws, 0);
      NoDupCount(ws[1..], w);
    }
  }

  /** With nothing in flight the channel is a permutation of the list. */
  lemma QuietPoolIsPermutation(cfg: Config, run: seq<Action>)
    requires IsRun(cfg, Init(cfg), run) && AllPlain(run)
    requires forall t: nat, w: nat :: !Owned(After(cfg, Init(cfg), run), t, w)
    ensures var s := After(cfg, Init(cfg), run); multiset(s.available) == multiset(s.workers)
  {
    var s := After(cfg, Init(cfg), run);
    RunKeepsConserved(cfg, Init(cfg), run);
    forall w: nat ensures multiset(s.available)[w] == multiset(s.workers)[w] {
      NoDupCount(s.available, w);
      NoDupCount(s.workers, w);
    }
  }

  // --- how many ---

  datatype Kind = Owed | Up | Down

  /** Owed: removed, not yet respawned. Up: decided, not yet listed. Down: taken, not yet removed. */
  predicate IsKind(th: Thread, k: Kind) {
    match k
    case Owed => (th.WantSpawn? || th.Spawning?) && th.why.Replacing?
    case Up => (th.WantSpawn? || th.Spawning?) && th.why.ScalingUp?
    case Down => th.DownStop? || th.DownRemove?
  }

  ghost function Those(threads: map<nat, Thread>, k: Kind): set<nat> {
    set t | t in threads && IsKind(threads[t], k)
  }

  ghost function Count(s: State, k: Kind): nat {
    |Those(s.threads, k)|
  }

  /** Workers that Start's loop has still to list. */
  function StartsLeft(cfg: Config, s: State): int {
    if 0 !in s.threads then 0
    else match s.threads[0]
      case WantSpawn(Starting(sent)) => cfg.minWorkers - sent
      case Spawning(_, Starting(sent)) => cfg.minWorkers - sent
      case Sending(_, Starting(sent)) => cfg.minWorkers - sent - 1
      case _ => 0
  }

  /** A Reload in its spawn loop. */
  predicate Reloads(th: Thread) {
    (th.WantSpawn? || th.Spawning? || th.Sending?) && th.why.Reloading?
  }

  /** The turns that the spawn loops of Reloads have still to make: thread and number. */
  ghost function Turns(cfg: Config, threads: map<nat, Thread>): set<(nat, nat)> {
    set t, i | t in threads && Reloads(threads[t]) && 0 <= i < cfg.minWorkers && |threads[t].why.spawned| <= i :: (t, i)
  }

  /** Workers that Reloads have still to list. */
  ghost function ReloadsLeft(cfg: Config, s: State): nat {
    |Turns(cfg, s.threads)|
  }

  /** The most workers the list can come to hold with what is under way. */
  ghost function High(cfg: Config, s: State): int {
    |s.workers| + Count(s, Owed) + Count(s, Up) + StartsLeft(cfg, s) + ReloadsLeft(cfg, s)
  }

  /** The fewest workers the pool is heading for with what is under way. */
  ghost function Low(cfg: Config, s: State): int {
    |s.workers| + Count(s, Owed) + StartsLeft(cfg, s) - Count(s, Down)
  }

  predicate DecidesUp(cfg: Config, s: State, a: Action)
    requires Enabled(cfg, s, a)
  {
    a.Decide? && WantsUp(cfg, s.threads[a.t].total, s.threads[a.t].busy)
  }

  predicate DecidesDown(cfg: Config, s: State, a: Action)
    requires Enabled(cfg, s, a)
  {
    a.Decide? && Takes(cfg, s, a)
  }

  predicate IsWatch(th: Thread) {
    || th.Ticking? || th.Sampled? || th.Deciding?
    || ((th.WantSpawn? || th.Spawning? || th.Sending?) && (th.why.Starting? || th.why.ScalingUp?))
  }

  predicate LoopRoom(cfg: Config, th: Thread) {
    && ((th.WantSpawn? || th.Spawning? || th.Sending?) && th.why.Starting? ==> th.why.sent < cfg.minWorkers)
    && ((th.WantSpawn? || th.Spawning?) && th.why.Reloading? ==> |th.why.spawned| < cfg.minWorkers)
  }

  /** Start and then the watchdog are the first thread, and only that one; a spawn loop that is about to
      spawn has not reached MinWorkers. */
  ghost predicate OneWatch(cfg: Config, s: State) {
    && (forall t: nat :: t in s.threads && IsWatch(s.threads[t]) ==> t == 0)
    && (forall t: nat :: t in s.threads ==> LoopRoom(cfg, s.threads[t]))
  }

  lemma StepWatch(cfg: Config, s: State, a: Action, t: nat)
    requires Enabled(cfg, s, a) && Plain(a) && t in Apply(cfg, s, a).threads
    ensures IsWatch(Apply(cfg, s, a).threads[t]) ==> t in s.threads && IsWatch(s.threads[t])
    ensures (t in s.threads ==> LoopRoom(cfg, s.threads[t])) ==> LoopRoom(cfg, Apply(cfg, s, a).threads[t])
  {
  }

  lemma StepKeepsOneWatch(cfg: Config, s: State, a: Action)
    requires OneWatch(cfg, s) && Enabled(cfg, s, a) && Plain(a)
    ensures OneWatch(cfg, Apply(cfg, s, a))
  {
    hide Apply, Enabled, IsWatch, LoopRoom;
    var s' := Apply(cfg, s, a);
    forall t: nat | t in s'.threads ensures (IsWatch(s'.threads[t]) ==> t == 0) && LoopRoom(cfg, s'.threads[t]) {
      StepWatch(cfg, s, a, t);
    }
  }

  /** A step touches the acting thread and the one it starts, and no other. */
  lemma StepThreads(cfg: Config, s: State, a: Action, u: nat)
    requires Enabled(cfg, s, a) && u != Actor(a) && (Forks(a) ==> u != a.n)
    ensures var s' := Apply(cfg, s, a);
      (u in s'.threads <==> u in s.threads) && (u in s.threads ==> s'.threads[u] == s.threads[u])
  {
  }

  function Actor(a: Action): nat {
    if a.ExecArrive? || a.HealthReplace? || a.ReloadArrive? then a.n else a.t
  }

  predicate Forks(a: Action) {
    a.ExecRetire? || a.Decide?
  }

  /** 1 if thread u is of kind k, else 0. */
  function Weight(threads: map<nat, Thread>, u: nat, k: Kind): int {
    if u in threads && IsKind(threads[u], k) then 1 else 0
  }

  /** What one action does to a count. */
  function Delta(cfg: Config, s: State, a: Action, k: Kind): int
    requires Enabled(cfg, s, a)
  {
    match k
    case Owed =>
      if a.RemoveOld? then 1
      else if (a.SpawnOk? || a.SpawnFail?) && s.threads[a.t].why.Replacing? then -1
      else 0
    case Up =>
      if DecidesUp(cfg, s, a) then 1
      else if (a.SpawnOk? || a.SpawnFail?) && s.threads[a.t].why.ScalingUp? then -1
      else 0
    case Down => if DecidesDown(cfg, s, a) then 1 else if a.RemoveIdle? then -1 else 0
  }

  lemma StepWeights(cfg: Config, s: State, a: Action, k: Kind)
    requires Enabled(cfg, s, a) && Plain(a) && (Forks(a) ==> a.t != a.n)
    ensures var (m, m') := (s.threads, Apply(cfg, s, a).threads);
      Delta(cfg, s, a, k) == Weight(m', Actor(a), k) - Weight(m, Actor(a), k)
                             + (if Forks(a) then Weight(m', a.n, k) - Weight(m, a.n, k) else 0)
  {
  }

  lemma ForkIsNew(cfg: Config, s: State, a: Action)
    requires Enabled(cfg, s, a) && Forks(a)
    ensures a.t != a.n && a.t in s.threads && a.n !in s.threads
  {
  }

  lemma StepCounts(cfg: Config, s: State, a: Action, k: Kind)
    requires Enabled(cfg, s, a) && Plain(a)
    ensures Count(Apply(cfg, s, a), k) == Count(s, k) + Delta(cfg, s, a, k)
  {
    hide Apply, Enabled, Delta, IsKind, Those;
    var s' := Apply(cfg, s, a);
    if Forks(a) { ForkIsNew(cfg, s, a); }
    StepWeights(cfg, s, a, k);
    var m := Overwrite(s.threads, s'.threads, Actor(a), k);
    if Forks(a) { m := Overwrite(m, s'.threads, a.n, k); }
    forall u: nat
      ensures u in m <==> u in s'.threads
      ensures u in m ==> m[u] == s'.threads[u]
    {
      if u != Actor(a) && (Forks(a) ==> u != a.n) { StepThreads(cfg, s, a, u); }
    }
    assert m == s'.threads;
  }

  /** Bring entry t of m to what it is in m'. */
  lemma Overwrite(m: map<nat, Thread>, m': map<nat, Thread>, t: nat, k: Kind) returns (r: map<nat, Thread>)
    ensures forall u: nat :: u in r <==> if u == t then u in m' else u in m
    ensures forall u: nat :: u in r ==> r[u] == if u == t then m'[u] else m[u]
    ensures |Those(r, k)| == |Those(m, k)| + Weight(m', t, k) - Weight(m, t, k)
  {
    r := if t in m' then m[t := m'[t]] else m - {t};
    SameElsewhere(m, r, t, k);
    SizeWithout(m, t, k);
    SizeWithout(r, t, k);
  }

  lemma SameElsewhere(m: map<nat, Thread>, r: map<nat, Thread>, t: nat, k: Kind)
    requires forall u: nat :: u != t ==> (u in r <==> u in m) && (u in r ==> r[u] == m[u])
    ensures Those(r, k) - {t} == Those(m, k) - {t}
  {
  }

  lemma SizeWithout(m: map<nat, Thread>, t: nat, k: Kind)
    ensures |Those(m, k)| == |Those(m, k) - {t}| + Weight(m, t, k)
  {
    if t in Those(m, k) {
      assert Those(m, k) == Those(m, k) - {t} + {t};
    } else {
      assert Those(m, k) == Those(m, k) - {t};
    }
  }

  lemma StepStartsLeft(cfg: Config, s: State, a: Action)
    requires OneWatch(cfg, s) && Enabled(cfg, s, a) && Plain(a)
    ensures StartsLeft(cfg, s) >= 0
    ensures StartsLeft(cfg, Apply(cfg, s, a)) ==
      if a.SpawnFail? && s.threads[a.t].why.Starting? then 0
      else StartsLeft(cfg, s) - (if a.SpawnOk? && s.threads[a.t].why.Starting? then 1 else 0)
  {
    if Actor(a) in s.threads { assert IsWatch(s.threads[Actor(a)]) ==> Actor(a) == 0; }
    if 0 in s.threads { assert LoopRoom(cfg, s.threads[0]); }
    if Actor(a) != 0 && (Forks(a) ==> a.n != 0) {
      StepThreads(cfg, s, a, 0);
      hide Apply, OneWatch;
    }
  }

  // --- the turns of Reloads ---

  /** The turns of one thread. */
  ghost function TurnsOf(cfg: Config, threads: map<nat, Thread>, t: nat): set<(nat, nat)> {
    set i | 0 <= i < cfg.minWorkers && t in threads && Reloads(threads[t]) && |threads[t].why.spawned| <= i :: (t, i)
  }

  function TurnCount(cfg: Config, threads: map<nat, Thread>, t: nat): nat {
    if t in threads && Reloads(threads[t]) && |threads[t].why.spawned| < cfg.minWorkers
    then cfg.minWorkers - |threads[t].why.spawned| else 0
  }

  lemma {:induction false} RangeSize(t: nat, lo: nat, hi: nat)
    requires lo <= hi
    ensures |(set i | 0 <= i < hi && lo <= i :: (t, i))| == hi - lo
    decreases hi - lo
  {
    var all := set i | 0 <= i < hi && lo <= i :: (t, i);
    if lo < hi {
      var rest := set i | 0 <= i < hi && lo + 1 <= i :: (t, i);
      RangeSize(t, lo + 1, hi);
      assert all == rest + {(t, lo)};
    } else {
      assert all == {};
    }
  }

  lemma TurnsOfSize(cfg: Config, threads: map<nat, Thread>, t: nat)
    ensures |TurnsOf(cfg, threads, t)| == TurnCount(cfg, threads, t)
  {
    if TurnCount(cfg, threads, t) > 0 {
      var lo := |threads[t].why.spawned|;
      RangeSize(t, lo, cfg.minWorkers);
      assert TurnsOf(cfg, threads, t) == set i | 0 <= i < cfg.minWorkers && lo <= i :: (t, i);
    } else {
      assert TurnsOf(cfg, threads, t) == {};
    }
  }

  predicate SameTurns(m: map<nat, Thread>, m': map<nat, Thread>, u: nat) {
    if u in m && Reloads(m[u]) then u in m' && Reloads(m'[u]) && m'[u].why.spawned == m[u].why.spawned
    else u in m' ==> !Reloads(m'[u])
  }

  /** When only thread t changes, the turns change by its own. */
  lemma TurnsChange(cfg: Config, m: map<nat, Thread>, m': map<nat, Thread>, t: nat)
    requires forall u: nat :: u != t ==> SameTurns(m, m', u)
    ensures |Turns(cfg, m')| - |Turns(cfg, m)| == TurnCount(cfg, m', t) - TurnCount(cfg, m, t)
  {
    var (own, own') := (TurnsOf(cfg, m, t), TurnsOf(cfg, m', t));
    var rest := Turns(cfg, m) - own;
    assert Turns(cfg, m) == rest + own && rest !! own;
    forall u: nat, i: nat ensures (u, i) in Turns(cfg, m') <==> (u, i) in rest || (u, i) in own' {
      assert u != t ==> SameTurns(m, m', u);
    }
    assert Turns(cfg, m') == rest + own' && rest !! own';
    TurnsOfSize(cfg, m, t);
    TurnsOfSize(cfg, m', t);
  }

  /** How one action changes the turns of the threads it touches. */
  lemma StepTurns(cfg: Config, s: State, a: Action)
    requires OneWatch(cfg, s) && Enabled(cfg, s, a) && Plain(a)
    ensures var (m, m') := (s.threads, Apply(cfg, s, a).threads);
      var d := TurnCount(cfg, m', Actor(a)) - TurnCount(cfg, m, Actor(a));
      && (!a.SpawnFail? ==> d == (if a.ReloadArrive? then cfg.minWorkers
                                  else if a.SpawnOk? && s.threads[a.t].why.Reloading? then -1 else 0))
      && (a.SpawnFail? ==> d <= 0)
    ensures Forks(a) && a.n in Apply(cfg, s, a).threads ==> !Reloads(Apply(cfg, s, a).threads[a.n])
  {
    if Actor(a) in s.threads { assert LoopRoom(cfg, s.threads[Actor(a)]); }
  }

  lemma StepReloadsLeft(cfg: Config, s: State, a: Action)
    requires OneWatch(cfg, s) && Enabled(cfg, s, a) && Plain(a)
    ensures !a.SpawnFail? ==>
      ReloadsLeft(cfg, Apply(cfg, s, a)) == ReloadsLeft(cfg, s)
        + (if a.ReloadArrive? then cfg.minWorkers else if a.SpawnOk? && s.threads[a.t].why.Reloading? then -1 else 0)
    ensures a.SpawnFail? ==> ReloadsLeft(cfg, Apply(cfg, s, a)) <= ReloadsLeft(cfg, s)
  {
    hide Apply, Enabled, OneWatch, Turns, TurnCount, Reloads;
    StepTurns(cfg, s, a);
    var s' := Apply(cfg, s, a);
    if Forks(a) { ForkIsNew(cfg, s, a); }
    forall u: nat | u != Actor(a) ensures SameTurns(s.threads, s'.threads, u) {
      if !(Forks(a) && u == a.n) { StepThreads(cfg, s, a, u); }
    }
    TurnsChange(cfg, s.threads, s'.threads, Actor(a));
  }

  // --- the two ends ---

  predicate SpawnsMore(s: State, a: Action) {
    && a.SpawnOk? && a.t in s.threads && s.threads[a.t].Spawning?
    && (s.threads[a.t].why.ScalingUp? || s.threads[a.t].why.Reloading?)
  }

  /** What a decision of autoScale or a Reload adds to what is under way. */
  function Gain(cfg: Config, s: State, a: Action): nat
    requires Enabled(cfg, s, a)
  {
    if DecidesUp(cfg, s, a) then 1 else if a.ReloadArrive? then cfg.minWorkers else 0
  }

  /** What a scale-down, a respawn that failed or a start that failed takes from what the pool is heading
      for. */
  function Loss(cfg: Config, s: State, a: Action): int
    requires Enabled(cfg, s, a)
  {
    if DecidesDown(cfg, s, a) then 1
    else if a.SpawnFail? && s.threads[a.t].why.Replacing? then 1
    else if a.SpawnFail? && s.threads[a.t].why.Starting? then StartsLeft(cfg, s)
    else 0
  }

  /** The list grows by a spawn and shrinks by a removal, by one. */
  lemma StepLength(cfg: Config, s: State, a: Action)
    requires Conserved(s) && Enabled(cfg, s, a) && Plain(a)
    ensures |Apply(cfg, s, a).workers| ==
      |s.workers| + (if a.SpawnOk? then 1 else if a.RemoveOld? || a.RemoveIdle? then -1 else 0)
  {
    StepWorkers(cfg, s, a);
    if a.RemoveOld? || a.RemoveIdle? {
      assert Owned(s, a.t, s.threads[a.t].w);
      RemoveIdWorks(s.workers, s.threads[a.t].w);
    }
  }

  /** The upper end moves up only when autoScale or Reload decides, and down by a finished scale-down or a
      spawn that failed; the lower end moves down only by a loss. */
  lemma StepSizes(cfg: Config, s: State, a: Action)
    requires Conserved(s) && OneWatch(cfg, s) && Enabled(cfg, s, a) && Plain(a)
    ensures !a.SpawnFail? ==>
      High(cfg, Apply(cfg, s, a)) == High(cfg, s) + Gain(cfg, s, a) - (if a.RemoveIdle? then 1 else 0)
    ensures a.SpawnFail? ==> High(cfg, Apply(cfg, s, a)) <= High(cfg, s)
    ensures Low(cfg, Apply(cfg, s, a)) == Low(cfg, s) - Loss(cfg, s, a) + (if SpawnsMore(s, a) then 1 else 0)
  {
    StepCounts(cfg, s, a, Owed);
    StepCounts(cfg, s, a, Up);
    StepCounts(cfg, s, a, Down);
    StepStartsLeft(cfg, s, a);
    StepReloadsLeft(cfg, s, a);
    StepLength(cfg, s, a);
    if a.SpawnOk? { assert !Stray(s.threads[a.t]); }
    hide Apply, Conserved, OneWatch, Those, StartsLeft, ReloadsLeft;
  }

  ghost predicate Bounded(cfg: Config, s: State) {
    cfg.minWorkers <= Low(cfg, s) && High(cfg, s) <= cfg.maxWorkers
  }

  /** A decision or a loss is sound when what is already under way leaves room for it. */
  ghost predicate SoundUp(cfg: Config, s: State, a: Action)
    requires Enabled(cfg, s, a)
  {
    High(cfg, s) <= cfg.maxWorkers ==> High(cfg, s) + Gain(cfg, s, a) <= cfg.maxWorkers
  }

  ghost predicate Sound(cfg: Config, s: State, a: Action)
    requires Enabled(cfg, s, a)
  {
    SoundUp(cfg, s, a) && (cfg.minWorkers <= Low(cfg, s) ==> cfg.minWorkers <= Low(cfg, s) - Loss(cfg, s, a))
  }

  ghost predicate AlwaysBounded(cfg: Config, s: State, run: seq<Action>)
    requires IsRun(cfg, s, run)
    decreases |run|
  {
    Bounded(cfg, s) && (run != [] ==> AlwaysBounded(cfg, Apply(cfg, s, run[0]), run[1..]))
  }

  ghost predicate AlwaysSound(cfg: Config, s: State, run: seq<Action>)
    requires IsRun(cfg, s, run)
    decreases |run|
  {
    run != [] ==> Sound(cfg, s, run[0]) && AlwaysSound(cfg, Apply(cfg, s, run[0]), run[1..])
  }

  ghost predicate AlwaysBelow(cfg: Config, s: State, run: seq<Action>)
    requires IsRun(cfg, s, run)
    decreases |run|
  {
    High(cfg, s) <= cfg.maxWorkers && (run != [] ==> AlwaysBelow(cfg, Apply(cfg, s, run[0]), run[1..]))
  }

  ghost predicate AlwaysSoundUp(cfg: Config, s: State, run: seq<Action>)
    requires IsRun(cfg, s, run)
    decreases |run|
  {
    run != [] ==> SoundUp(cfg, s, run[0]) && AlwaysSoundUp(cfg, Apply(cfg, s, run[0]), run[1..])
  }

  ghost predicate AllSmooth(run: seq<Action>) {
    forall i :: 0 <= i < |run| ==> Smooth(run[i])
  }

  ghost predicate Ready(cfg: Config, s: State) {
    Conserved(s) && OneWatch(cfg, s)
  }

  lemma StepKeepsReady(cfg: Config, s: State, a: Action)
    requires Ready(cfg, s) && Enabled(cfg, s, a) && Plain(a)
    ensures Ready(cfg, Apply(cfg, s, a))
  {
    hide Conserved, OneWatch, Apply, Enabled;
    StepKeepsConserved(cfg, s, a);
    StepKeepsOneWatch(cfg, s, a);
  }

  lemma InitReady(cfg: Config)
    requires cfg.minWorkers <= cfg.maxWorkers
    ensures Ready(cfg, Init(cfg)) && Bounded(cfg, Init(cfg))
  {
    forall k: Kind ensures Count(Init(cfg), k) == 0 {
      assert Those(Init(cfg).threads, k) == {};
    }
    assert Turns(cfg, Init(cfg).threads) == {};
  }

  /** The bounds hold all along a run exactly when every decision of autoScale, every Reload and every spawn
      that fails is sound. */
  lemma {:induction false} BoundedIffSound(cfg: Config, s: State, run: seq<Action>)
    requires Ready(cfg, s) && Bounded(cfg, s) && IsRun(cfg, s, run) && AllPlain(run)
    ensures AlwaysBounded(cfg, s, run) <==> AlwaysSound(cfg, s, run)
    decreases |run|
  {
    hide Conserved, OneWatch, Apply, Enabled, High, Low, Gain, Loss;
    if run != [] {
      var s' := Apply(cfg, s, run[0]);
      StepSizes(cfg, s, run[0]);
      DecisionsAreSmooth(cfg, s, run[0]);
      StepKeepsReady(cfg, s, run[0]);
      if Bounded(cfg, s') { BoundedIffSound(cfg, s', run[1..]); }
    }
  }

  lemma DecisionsAreSmooth(cfg: Config, s: State, a: Action)
    requires Enabled(cfg, s, a)
    ensures Gain(cfg, s, a) > 0 ==> !a.SpawnFail? && !a.RemoveIdle?
    ensures SpawnsMore(s, a) ==> Loss(cfg, s, a) == 0
  {
  }

  /** Also when spawns fail, the upper bound holds all along a run exactly when every scale-up and every
      Reload is sound. */
  lemma {:induction false} BelowIffSoundUp(cfg: Config, s: State, run: seq<Action>)
    requires Ready(cfg, s) && High(cfg, s) <= cfg.maxWorkers && IsRun(cfg, s, run) && AllPlain(run)
    ensures AlwaysBelow(cfg, s, run) <==> AlwaysSoundUp(cfg, s, run)
    decreases |run|
  {
    hide Conserved, OneWatch, Apply, Enabled, High, Gain;
    if run != [] {
      var s' := Apply(cfg, s, run[0]);
      StepSizes(cfg, s, run[0]);
      DecisionsAreSmooth(cfg, s, run[0]);
      StepKeepsReady(cfg, s, run[0]);
      if High(cfg, s') <= cfg.maxWorkers { BelowIffSoundUp(cfg, s', run[1..]); }
    }
  }

  // --- a send never blocks ---

  lemma {:induction false} SetSize(ws: seq<nat>)
    ensures var all := set w: nat | w in ws; |all| <= |ws| && (NoDup(ws) ==> |all| == |ws|)
  {
    if ws != [] {
      var all, rest := set w: nat | w in ws, set w: nat | w in ws[1..];
      assert ws == [ws[0]] + ws[1..];
      assert all == rest + {ws[0]};
      SetSize(ws[1..]);
      if NoDup(ws) { NoDupEnds(ws, 0); assert ws[0] !in rest; }
    }
  }

  lemma SendIsEnabled(cfg: Config, s: State, t: nat)
    requires Ready(cfg, s) && High(cfg, s) <= cfg.maxWorkers
    requires t in s.threads && s.threads[t].Sending?
    ensures Enabled(cfg, s, Send(t))
  {
    var w := s.threads[t].w;
    assert Owned(s, t, w);
    var all, listed := set x: nat | x in s.available + [w], set x: nat | x in s.workers;
    NoDupEnds(s.available, w);
    SetSize(s.available + [w]);
    SetSize(s.workers);
    SetLe(all, listed);
    StartsLeftPositive(cfg, s);
  }

  lemma StartsLeftPositive(cfg: Config, s: State)
    requires OneWatch(cfg, s)
    ensures StartsLeft(cfg, s) >= 0
  {
    if 0 in s.threads { assert LoopRoom(cfg, s.threads[0]); }
  }

  lemma {:induction false} SetLe(a: set<nat>, b: set<nat>)
    requires forall x: nat :: x in a ==> x in b
    ensures |a| <= |b|
  {
    if a != {} {
      var x :| x in a;
      SetLe(a - {x}, b - {x});
    }
  }

  lemma {:induction false} RunStaysBelow(cfg: Config, s: State, run: seq<Action>)
    requires Ready(cfg, s) && IsRun(cfg, s, run) && AllPlain(run) && AlwaysBelow(cfg, s, run)
    ensures Ready(cfg, After(cfg, s, run)) && High(cfg, After(cfg, s, run)) <= cfg.maxWorkers
    decreases |run|
  {
    hide Conserved, OneWatch, Apply, Enabled, High;
    if run != [] {
      StepKeepsReady(cfg, s, run[0]);
      RunStaysBelow(cfg, Apply(cfg, s, run[0]), run[1..]);
    }
  }

  /** No hand-over to the channel waits at any point of a run whose scale-ups and Reloads are sound, until a
      Reload removes a drained worker: in particular the hand-overs of Reload's own spawn loop do not. */
  lemma NoSendWaits(cfg: Config, s: State, run: seq<Action>, t: nat)
    requires Ready(cfg, s) && High(cfg, s) <= cfg.maxWorkers && IsRun(cfg, s, run) && AllPlain(run)
    requires AlwaysSoundUp(cfg, s, run)
    requires t in After(cfg, s, run).threads && After(cfg, s, run).threads[t].Sending?
    ensures Enabled(cfg, After(cfg, s, run), Send(t))
  {
    hide Conserved, OneWatch, Apply, High, AlwaysSoundUp;
    BelowIffSoundUp(cfg, s, run);
    RunStaysBelow(cfg, s, run);
    SendIsEnabled(cfg, After(cfg, s, run), t);
  }

  // --- decisions on a stale sample ---

  /** What the last sample of len(workers) did not see: replacements between removal and respawn, and
      scale-downs that had not removed their worker yet. */
  datatype Unseen = Unseen(owed: nat, down: nat)

  ghost function Noted(s: State, a: Action, note: Unseen): Unseen {
    if a.Sample? then Unseen(Count(s, Owed), Count(s, Down)) else note
  }

  /** Exact: the decision, corrected by what its sample missed, stays within the bounds; scale-downs that
      have finished since are known to be gone. CalmUp: no replacement was under way at the sample.
      CalmDown: no more scale-downs than replacements were. */
  datatype Demand = Exact | CalmUp | CalmDown

  ghost predicate DecidesWell(cfg: Config, s: State, a: Action, note: Unseen, d: Demand)
    requires Enabled(cfg, s, a)
  {
    match d
    case Exact =>
      && (DecidesUp(cfg, s, a) ==> s.threads[a.t].total + note.owed - (note.down - Count(s, Down)) < cfg.maxWorkers)
      && (DecidesDown(cfg, s, a) ==> cfg.minWorkers < s.threads[a.t].total + note.owed - note.down)
    case CalmUp => DecidesUp(cfg, s, a) ==> note.owed == 0
    case CalmDown => DecidesDown(cfg, s, a) ==> note.down <= note.owed
  }

  ghost predicate AlwaysDecidesWell(cfg: Config, s: State, run: seq<Action>, note: Unseen, d: Demand)
    requires IsRun(cfg, s, run)
    decreases |run|
  {
    run != [] ==>
      && DecidesWell(cfg, s, run[0], note, d)
      && AlwaysDecidesWell(cfg, Apply(cfg, s, run[0]), run[1..], Noted(s, run[0], note), d)
  }

  ghost predicate NoReload(run: seq<Action>) {
    forall i :: 0 <= i < |run| ==> !run[i].ReloadArrive?
  }

  /** Between the sample and the decision the watchdog has the sample, and the ends have moved only by
      scale-downs that finished and by spawns that failed. */
  ghost predicate Recent(cfg: Config, s: State, note: Unseen, smooth: bool) {
    && ReloadsLeft(cfg, s) == 0
    && (0 in s.threads && (s.threads[0].Sampled? || s.threads[0].Deciding?) ==>
          var total := s.threads[0].total;
          && Count(s, Down) <= note.down
          && High(cfg, s) <= total + note.owed - (note.down - Count(s, Down))
          && (smooth ==> High(cfg, s) == total + note.owed - (note.down - Count(s, Down))
                         && Low(cfg, s) == total + note.owed - note.down))
  }

  lemma NoUpWhileWatching(cfg: Config, s: State)
    requires OneWatch(cfg, s) && 0 in s.threads
    requires s.threads[0].Ticking? || s.threads[0].Sampled? || s.threads[0].Deciding?
    ensures Count(s, Up) == 0 && StartsLeft(cfg, s) == 0
  {
    assert Those(s.threads, Up) == {} by {
      forall t: nat | t in s.threads ensures !IsKind(s.threads[t], Up) {
        assert IsWatch(s.threads[t]) ==> t == 0;
      }
    }
  }

  /** How the watchdog comes to hold a sample. */
  lemma StepSample(cfg: Config, s: State, a: Action)
    requires OneWatch(cfg, s) && Enabled(cfg, s, a) && Plain(a)
    requires var th := Apply(cfg, s, a).threads; 0 in th && (th[0].Sampled? || th[0].Deciding?)
    ensures var th := Apply(cfg, s, a).threads[0];
      && 0 in s.threads
      && (if a.Sample? then s.threads[0].Ticking? && th == Sampled(|s.workers|)
          else (s.threads[0].Sampled? || s.threads[0].Deciding?) && th.total == s.threads[0].total)
      && !a.Decide? && (a.SpawnOk? || a.SpawnFail? ==> !s.threads[a.t].why.ScalingUp? && !s.threads[a.t].why.Starting?)
  {
    if a.Decide? || a.Sample? || a.ReadBusy? || a.SpawnOk? || a.SpawnFail? {
      assert IsWatch(s.threads[a.t]) ==> a.t == 0;
    }
  }

  lemma StepKeepsRecent(cfg: Config, s: State, a: Action, note: Unseen, smooth: bool)
    requires Ready(cfg, s) && Recent(cfg, s, note, smooth) && Enabled(cfg, s, a) && Plain(a) && !a.ReloadArrive?
    requires smooth ==> Smooth(a)
    ensures Recent(cfg, Apply(cfg, s, a), Noted(s, a, note), smooth)
  {
    StepReloadsLeft(cfg, s, a);
    var s' := Apply(cfg, s, a);
    if 0 in s'.threads && (s'.threads[0].Sampled? || s'.threads[0].Deciding?) {
      StepSample(cfg, s, a);
      hide Apply, Enabled;
      StepSizes(cfg, s, a);
      StepCounts(cfg, s, a, Down);
      NoUpWhileWatching(cfg, s);
      hide Conserved, OneWatch, Those, StartsLeft, ReloadsLeft, Those, Turns;
    }
  }

  /** What a decision does, told by the sample it was made on. */
  lemma DecisionOnSample(cfg: Config, s: State, a: Action, note: Unseen, smooth: bool)
    requires Ready(cfg, s) && Recent(cfg, s, note, smooth) && Enabled(cfg, s, a) && !a.ReloadArrive?
    ensures DecidesWell(cfg, s, a, note, Exact) ==> SoundUp(cfg, s, a)
    ensures DecidesWell(cfg, s, a, note, CalmUp) ==> SoundUp(cfg, s, a)
    ensures smooth && Bounded(cfg, s) && Smooth(a) ==> (DecidesWell(cfg, s, a, note, Exact) <==> Sound(cfg, s, a))
    ensures smooth && Smooth(a) && DecidesWell(cfg, s, a, note, CalmUp) && DecidesWell(cfg, s, a, note, CalmDown) ==>
      Sound(cfg, s, a)
  {
    if a.Decide? { assert IsWatch(s.threads[a.t]) && a.t == 0; }
    hide Conserved, Those, StartsLeft, ReloadsLeft, Apply, High, Low;
  }

  lemma StartsRecent(cfg: Config)
    ensures forall smooth :: Recent(cfg, Init(cfg), Unseen(0, 0), smooth)
  {
    assert Turns(cfg, Init(cfg).threads) == {};
  }

  /** With spawns that succeed and without Reload, the bounds hold all along a run exactly when each decision,
      corrected by what its sample missed, respects them. */
  lemma {:induction false} BoundedIffSamplesAllow(cfg: Config, s: State, run: seq<Action>, note: Unseen)
    requires Ready(cfg, s) && Bounded(cfg, s) && Recent(cfg, s, note, true)
    requires IsRun(cfg, s, run) && AllSmooth(run) && NoReload(run)
    ensures AlwaysBounded(cfg, s, run) <==> AlwaysDecidesWell(cfg, s, run, note, Exact)
    decreases |run|
  {
    hide Conserved, OneWatch, Apply, Enabled, High, Low, Gain, Loss, DecidesDown, DecidesUp, Recent, DecidesWell, Noted;
    if run != [] {
      var a := run[0];
      var s' := Apply(cfg, s, a);
      DecisionOnSample(cfg, s, a, note, true);
      StepSizes(cfg, s, a);
      DecisionsAreSmooth(cfg, s, a);
      StepKeepsReady(cfg, s, a);
      StepKeepsRecent(cfg, s, a, note, true);
      if Bounded(cfg, s') { BoundedIffSamplesAllow(cfg, s', run[1..], Noted(s, a, note)); }
    }
  }

  /** Scale-ups decided on samples without a replacement under way are sound, however stale when made. */
  lemma {:induction false} CalmSamplesAreSound(cfg: Config, s: State, run: seq<Action>, note: Unseen, smooth: bool)
    requires Ready(cfg, s) && Recent(cfg, s, note, smooth)
    requires IsRun(cfg, s, run) && AllPlain(run) && NoReload(run) && (smooth ==> AllSmooth(run))
    requires AlwaysDecidesWell(cfg, s, run, note, CalmUp)
    ensures AlwaysSoundUp(cfg, s, run)
    ensures smooth && AlwaysDecidesWell(cfg, s, run, note, CalmDown) ==> AlwaysSound(cfg, s, run)
    decreases |run|
  {
    hide Conserved, OneWatch, Apply, Enabled, SoundUp, DecidesDown, DecidesUp, Recent, DecidesWell, Noted;
    if run != [] {
      DecisionOnSample(cfg, s, run[0], note, smooth);
      StepKeepsReady(cfg, s, run[0]);
      StepKeepsRecent(cfg, s, run[0], note, smooth);
      CalmSamplesAreSound(cfg, Apply(cfg, s, run[0]), run[1..], Noted(s, run[0], note), smooth);
    }
  }

  /** From Start on and without Reload: if no scale-up is decided on a sample taken while a replacement was
      between removal and respawn, the pool stays at or below MaxWorkers and no hand-over to the channel ever
      waits, spawns failing or not. If spawns succeed and no scale-down is decided on a sample with more
      scale-downs than replacements under way, it also stays at or above MinWorkers. */
  lemma PoolStaysInBounds(cfg: Config, run: seq<Action>)
    requires cfg.minWorkers <= cfg.maxWorkers
    requires IsRun(cfg, Init(cfg), run) && AllPlain(run) && NoReload(run)
    requires AlwaysDecidesWell(cfg, Init(cfg), run, Unseen(0, 0), CalmUp)
    ensures var s := After(cfg, Init(cfg), run);
      && |s.workers| + Count(s, Owed) + Count(s, Up) + StartsLeft(cfg, s) <= cfg.maxWorkers
      && forall t: nat :: t in s.threads && s.threads[t].Sending? ==> Enabled(cfg, s, Send(t))
    ensures var s := After(cfg, Init(cfg), run);
      AllSmooth(run) && AlwaysDecidesWell(cfg, Init(cfg), run, Unseen(0, 0), CalmDown) ==>
        cfg.minWorkers <= |s.workers| + Count(s, Owed) + StartsLeft(cfg, s) - Count(s, Down)
  {
    hide Conserved, OneWatch, Apply, Enabled, Recent, SoundUp, Sound, DecidesWell;
    InitReady(cfg);
    StartsRecent(cfg);
    CalmSamplesAreSound(cfg, Init(cfg), run, Unseen(0, 0), AllSmooth(run));
    BelowIffSoundUp(cfg, Init(cfg), run);
    RunStaysBelow(cfg, Init(cfg), run);
    var s := After(cfg, Init(cfg), run);
    forall t: nat | t in s.threads && s.threads[t].Sending? ensures Enabled(cfg, s, Send(t)) {
      SendIsEnabled(cfg, s, t);
    }
    if AllSmooth(run) && AlwaysDecidesWell(cfg, Init(cfg), run, Unseen(0, 0), CalmDown) {
      BoundedIffSound(cfg, Init(cfg), run);
      EndIsBounded(cfg, Init(cfg), run);
    }
  }

  lemma {:induction false} EndIsBounded(cfg: Config, s: State, run: seq<Action>)
    requires IsRun(cfg, s, run) && AlwaysBounded(cfg, s, run)
    ensures Bounded(cfg, After(cfg, s, run))
    decreases |run|
  {
    hide Apply, Enabled, Bounded;
    if run != [] { EndIsBounded(cfg, Apply(cfg, s, run[0]), run[1..]); }
  }

  /** The lower bound is not kept when a respawn fails: the pool of one loses its worker for good. */
  lemma FailedRespawnShrinks() returns (run: seq<Action>, s: State)
    ensures IsRun(Config(1, 1), Init(Config(1, 1)), run) && After(Config(1, 1), Init(Config(1, 1)), run) == s
    ensures AllPlain(run) && s.workers == [] && s.threads == map[0 := Ticking]
  {
    hide IsRun, After;
    var cfg := Config(1, 1);
    run, s := OneRetired(cfg);
    run, s := Go(cfg, run, s, StopOld(2));
    run, s := Go(cfg, run, s, RemoveOld(2));
    run, s := Go(cfg, run, s, BeginSpawn(2));
    run, s := Go(cfg, run, s, SpawnFail(2));
  }

  lemma OneRetired(cfg: Config) returns (run: seq<Action>, s: State)
    requires cfg == Config(1, 1)
    ensures IsRun(cfg, Init(cfg), run) && After(cfg, Init(cfg), run) == s && AllPlain(run)
    ensures s.workers == [1] && s.nextID == 1 && s.threads == map[0 := Ticking, 2 := ReplaceStop(1)]
  {
    hide IsRun, After;
    run, s := OneStarted(cfg);
    run, s := Go(cfg, run, s, ExecArrive(1));
    run, s := Go(cfg, run, s, ExecReceive(1));
    run, s := Go(cfg, run, s, ExecRetire(1, 2));
  }

  lemma OneStarted(cfg: Config) returns (run: seq<Action>, s: State)
    requires cfg == Config(1, 1)
    ensures IsRun(cfg, Init(cfg), run) && After(cfg, Init(cfg), run) == s && AllPlain(run)
    ensures s.workers == [1] && s.available == [1] && s.nextID == 1 && s.threads == map[0 := Ticking]
  {
    hide IsRun, After;
    run, s := Begin(cfg);
    run, s := Go(cfg, run, s, BeginSpawn(0));
    run, s := Go(cfg, run, s, SpawnOk(0));
    run, s := Go(cfg, run, s, Send(0));
  }

  /** The upper bound is not kept in general: a sample taken between removeWorker and spawnWorker makes
      autoScale add a third worker to a pool of at most two. */
  lemma StaleSampleOverfills() returns (run: seq<Action>, s: State)
    ensures IsRun(Config(2, 2), Init(Config(2, 2)), run) && AllSmooth(run)
    ensures After(Config(2, 2), Init(Config(2, 2)), run) == s && |s.workers| == 3
  {
    hide IsRun, After;
    var cfg := Config(2, 2);
    run, s := ScaledUpOnAStaleSample(cfg);
    run, s := Go(cfg, run, s, BeginSpawn(0));
    run, s := Go(cfg, run, s, SpawnOk(0));
    run, s := Go(cfg, run, s, BeginSpawn(3));
    run, s := Go(cfg, run, s, SpawnOk(3));
  }

  lemma ScaledUpOnAStaleSample(cfg: Config) returns (run: seq<Action>, s: State)
    requires cfg == Config(2, 2)
    ensures IsRun(cfg, Init(cfg), run) && After(cfg, Init(cfg), run) == s && AllSmooth(run)
    ensures |s.workers| == 1 && 0 in s.threads && s.threads[0] == WantSpawn(ScalingUp)
    ensures 3 in s.threads && s.threads[3] == WantSpawn(Replacing)
  {
    hide IsRun, After;
    run, s := OneRecycledOneBusy(cfg);
    run, s := Go(cfg, run, s, Sample(0));
    run, s := Go(cfg, run, s, ReadBusy(0, 0));
    run, s := Go(cfg, run, s, Decide(0, 4));
  }

  lemma OneRecycledOneBusy(cfg: Config) returns (run: seq<Action>, s: State)
    requires cfg == Config(2, 2)
    ensures IsRun(cfg, Init(cfg), run) && After(cfg, Init(cfg), run) == s && AllSmooth(run)
    ensures s.workers == [2] && s.busy == 1
    ensures s.threads == map[0 := Ticking, 2 := Holding(2), 3 := WantSpawn(Replacing)]
  {
    hide IsRun, After;
    run, s := TwoBusy(cfg);
    run, s := Go(cfg, run, s, ExecRetire(1, 3));
    run, s := Go(cfg, run, s, StopOld(3));
    run, s := Go(cfg, run, s, RemoveOld(3));
  }

  lemma TwoBusy(cfg: Config) returns (run: seq<Action>, s: State)
    requires cfg == Config(2, 2)
    ensures IsRun(cfg, Init(cfg), run) && After(cfg, Init(cfg), run) == s && AllSmooth(run)
    ensures s.workers == [1, 2] && s.busy == 2
    ensures s.threads == map[0 := Ticking, 1 := Holding(1), 2 := Holding(2)]
  {
    hide IsRun, After;
    run, s := StartTwo(cfg);
    run, s := Go(cfg, run, s, ExecArrive(1));
    run, s := Go(cfg, run, s, ExecReceive(1));
    run, s := Go(cfg, run, s, ExecArrive(2));
    run, s := Go(cfg, run, s, ExecReceive(2));
  }

  lemma StartTwo(cfg: Config) returns (run: seq<Action>, s: State)
    requires cfg == Config(2, 2)
    ensures IsRun(cfg, Init(cfg), run) && After(cfg, Init(cfg), run) == s && AllSmooth(run)
    ensures s == State(2, [1, 2], 2, [1, 2], 0, map[0 := Ticking], map[])
  {
    hide IsRun, After;
    run, s := Begin(cfg);
    run, s := Go(cfg, run, s, BeginSpawn(0));
    run, s := Go(cfg, run, s, SpawnOk(0));
    run, s := Go(cfg, run, s, Send(0));
    run, s := Go(cfg, run, s, BeginSpawn(0));
    run, s := Go(cfg, run, s, SpawnOk(0));
    run, s := Go(cfg, run, s, Send(0));
  }
}
