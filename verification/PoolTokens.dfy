/** Reload and the channel: which tokens its drain leaves behind, under any interleaving, and when its own
    hand-overs find no room. */
module PoolTokens {
  import opened PoolMachine
  import opened PoolSize
  import opened PoolReload

  // --- stale tokens ---

  ghost predicate WasDrained(s: State, w: nat) {
    w in s.gone && s.gone[w].Drained?
  }

  ghost predicate Lives(s: State, w: nat) {
    w in s.workers || WasDrained(s, w)
  }

  /** Each token is in one place, and its worker is listed unless a Reload drained it. */
  ghost predicate Tokens(s: State) {
    && Inv(s) && Historic(s)
    && (forall t: nat :: t in s.threads ==> !Stray(s.threads[t]))
    && (forall w: nat :: w in s.available ==> Lives(s, w))
    && (forall t: nat, w: nat :: Owned(s, t, w) ==> Lives(s, w) && w !in s.available)
    && (forall t: nat, u: nat, w: nat :: Owned(s, t, w) && Owned(s, u, w) ==> t == u)
  }

  /** A worker stops being listed or drained only by the goroutine that replaces it or scales it down. */
  lemma StepLives(cfg: Config, s: State, a: Action, w: nat)
    requires Inv(s) && Historic(s) && Enabled(cfg, s, a) && Lives(s, w)
    ensures Lives(Apply(cfg, s, a), w) || ((a.RemoveOld? || a.RemoveIdle?) && Owned(s, a.t, w))
  {
    hide Inv;
    StepListed(cfg, s, a, w);
    StepGone(cfg, s, a);
    if WasDrained(s, w) { assert Departed(s, w); }
  }

  lemma StepKeepsTokens(cfg: Config, s: State, a: Action)
    requires Tokens(s) && Enabled(cfg, s, a) && !a.HealthReplace?
    ensures Tokens(Apply(cfg, s, a))
  {
    var s' := Apply(cfg, s, a);
    StepKeepsInv(cfg, s, a);
    StepKeepsHistoric(cfg, s, a);
    StepWorkers(cfg, s, a);
    StepChannel(cfg, s, a);
    NoDupEnds(s.available, 0);
    if a.Send? || a.RemoveOld? || a.RemoveIdle? { assert Owned(s, a.t, s.threads[a.t].w); }
    if a.SpawnOk? { assert Has(s, a.t, s.threads[a.t].id); }
    forall t: nat | t in s'.threads ensures !Stray(s'.threads[t]) { StepNotStray(cfg, s, a, t); }
    hide Inv, Historic, Lives, Apply;
    forall w: nat | w in s'.available ensures Lives(s', w) { StepLives(cfg, s, a, w); }
    forall t: nat, w: nat | Owned(s', t, w)
      ensures Lives(s', w) && w !in s'.available
      ensures forall u: nat :: Owned(s', u, w) ==> t == u
    {
      StepOwned(cfg, s, a, t, w);
      StepTokenLives(cfg, s, a, t, w);
      forall u: nat | Owned(s', u, w) ensures t == u { StepOwned(cfg, s, a, u, w); }
    }
  }

  lemma StepTokenLives(cfg: Config, s: State, a: Action, t: nat, w: nat)
    requires Tokens(s) && Enabled(cfg, s, a) && !a.HealthReplace? && Owned(Apply(cfg, s, a), t, w)
    ensures Lives(Apply(cfg, s, a), w)
    ensures a.SpawnOk? && w == s.threads[a.t].id ==> w !in s.available
  {
    StepOwned(cfg, s, a, t, w);
    if a.SpawnOk? { assert Has(s, a.t, s.threads[a.t].id); }
    if a.SpawnOk? && w == s.threads[a.t].id {
      StepWorkers(cfg, s, a);
    } else {
      StepLives(cfg, s, a, w);
    }
  }

  ghost predicate NoHealthCheck(run: seq<Action>) {
    forall i :: 0 <= i < |run| ==> !run[i].HealthReplace?
  }

  lemma {:induction false} RunKeepsTokens(cfg: Config, s: State, run: seq<Action>)
    requires Tokens(s) && IsRun(cfg, s, run) && NoHealthCheck(run)
    ensures Tokens(After(cfg, s, run))
    decreases |run|
  {
    hide Tokens, Apply, Enabled;
    if run != [] {
      StepKeepsTokens(cfg, s, run[0]);
      RunKeepsTokens(cfg, Apply(cfg, s, run[0]), run[1..]);
    }
  }

  /** In every run without health checks, with any number of Reloads in any interleaving: a token in the
      channel is stale, its worker no longer listed, exactly when a Reload drained the worker. */
  lemma StaleIffDrained(cfg: Config, run: seq<Action>, w: nat)
    requires IsRun(cfg, Init(cfg), run) && NoHealthCheck(run)
    requires w in After(cfg, Init(cfg), run).available
    ensures var s := After(cfg, Init(cfg), run); w !in s.workers <==> w in s.gone && s.gone[w].Drained?
  {
    RunKeepsTokens(cfg, Init(cfg), run);
    var s := After(cfg, Init(cfg), run);
    assert w in s.gone ==> Departed(s, w);
  }

  // --- one drain loop ---

  predicate DrainStep(a: Action, t: nat) {
    a == DrainStop(t) || a == DrainTake(t)
  }

  ghost predicate AllDrain(run: seq<Action>, t: nat) {
    forall i :: 0 <= i < |run| ==> DrainStep(run[i], t)
  }

  /** What a drain loop has taken out so far. */
  ghost predicate DrainedSince(before: State, s: State, t: nat) {
    && t in before.threads && t in s.threads
    && (s.threads[t].Draining? || s.threads[t].DrainRemove?)
    && before.threads[t].Draining? && before.threads[t].next == 0
    && before.threads[t].snapshot == s.threads[t].snapshot
    && s.available == before.available && s.threads[t].next <= |s.threads[t].snapshot|
    && (forall w: nat :: w in s.workers <==> w in before.workers && w !in s.threads[t].snapshot[..s.threads[t].next])
  }

  /** What one drain step does to the loop's own thread and to the channel. */
  lemma DrainStepMoves(cfg: Config, s: State, t: nat, a: Action)
    requires Enabled(cfg, s, a) && DrainStep(a, t)
    ensures var (th, s') := (s.threads[t], Apply(cfg, s, a));
      && t in s'.threads && s'.available == s.available && th.next < |th.snapshot|
      && s'.threads[t] == (if a.DrainTake? then Draining(th.snapshot, th.next + 1, th.spawned)
                           else DrainRemove(th.snapshot, th.next, th.spawned))
      && s'.workers == (if a.DrainTake? then RemoveId(s.workers, th.snapshot[th.next]) else s.workers)
  {
    StepWorkers(cfg, s, a);
  }

  lemma DrainStepTakes(cfg: Config, before: State, s: State, t: nat, a: Action)
    requires Inv(s) && DrainedSince(before, s, t) && Enabled(cfg, s, a) && DrainStep(a, t)
    ensures DrainedSince(before, Apply(cfg, s, a), t)
  {
    DrainStepMoves(cfg, s, t, a);
    assert NoDup(s.workers);
    hide Apply, Enabled, Inv, RemoveId, NoDup;
    OneMoreTaken(s.workers, s.threads[t].snapshot, s.threads[t].next);
  }

  lemma OneMoreTaken(ws: seq<nat>, xs: seq<nat>, k: nat)
    requires NoDup(ws) && k < |xs|
    ensures forall w: nat :: w in RemoveId(ws, xs[k]) <==> w in ws && w != xs[k]
    ensures forall w: nat :: w in xs[..k + 1] <==> w in xs[..k] || w == xs[k]
  {
    RemoveIdWorks(ws, xs[k]);
    assert xs[..k + 1] == xs[..k] + [xs[k]];
  }

  lemma {:induction false} DrainRunTakes(cfg: Config, before: State, s: State, t: nat, run: seq<Action>)
    requires Inv(s) && DrainedSince(before, s, t) && IsRun(cfg, s, run) && AllDrain(run, t)
    ensures DrainedSince(before, After(cfg, s, run), t)
    decreases |run|
  {
    hide Inv, DrainedSince, Apply, Enabled;
    if run != [] {
      DrainStepTakes(cfg, before, s, t, run[0]);
      StepKeepsInv(cfg, s, run[0]);
      DrainRunTakes(cfg, before, Apply(cfg, s, run[0]), t, run[1..]);
    }
  }

  /** A whole drain loop with nobody else at work: the channel keeps every token, and all of them still stand
      for listed workers exactly when none of the drained workers was waiting there. */
  lemma DrainLoopLeavesTokens(cfg: Config, s: State, t: nat, run: seq<Action>)
    requires Inv(s) && t in s.threads && s.threads[t].Draining? && s.threads[t].next == 0
    requires forall w: nat :: w in s.available ==> w in s.workers
    requires IsRun(cfg, s, run) && AllDrain(run, t)
    requires var th := After(cfg, s, run).threads; t in th && th[t].Draining? && th[t].next == |th[t].snapshot|
    ensures var s' := After(cfg, s, run);
      && s'.available == s.available
      && (forall w: nat :: w in s'.workers <==> w in s.workers && w !in s.threads[t].snapshot)
      && ((forall w: nat :: w in s'.available ==> w in s'.workers)
            <==> forall w: nat :: w in s.threads[t].snapshot ==> w !in s.available)
  {
    hide IsRun, After;
    DrainRunTakes(cfg, s, s, t, run);
    var th := After(cfg, s, run).threads[t];
    assert th.snapshot[..th.next] == th.snapshot;
  }

  // --- Reload's own hand-overs ---

  /** A step of Reload's goroutines, t. */
  predicate OwnStep(a: Action, t: nat) {
    (a.BeginSpawn? || a.SpawnOk? || a.SpawnFail? || a.Send? || a.DrainStop? || a.DrainTake? || a.DrainEnd?) && a.t == t
  }

  // --- what the health check leaves behind ---

  /** Removing a replaced worker leaves its token in the channel exactly when the worker was waiting there. */
  lemma ReplaceLeavesItsToken(cfg: Config, s: State, a: Action)
    requires Inv(s) && a.RemoveOld? && Enabled(cfg, s, a)
    requires forall w: nat :: w in s.available ==> w in s.workers
    ensures var s' := Apply(cfg, s, a);
      (forall w: nat :: w in s'.available ==> w in s'.workers) <==> s.threads[a.t].w !in s.available
  {
    var s' := Apply(cfg, s, a);
    StepChannel(cfg, s, a);
    RemoveIdWorks(s.workers, s.threads[a.t].w);
    forall w: nat { StepListed(cfg, s, a, w); }
  }

  /** A worker that is being replaced is dead and still listed between its Stop and its removal. A health check
      that comes then replaces it once more: a pool of one ends with two workers. */
  lemma DeadWorkerIsReplacedTwice() returns (run: seq<Action>, s: State)
    ensures IsRun(Config(1, 1), Init(Config(1, 1)), run) && After(Config(1, 1), Init(Config(1, 1)), run) == s
    ensures s.workers == [2, 3]
  {
    hide IsRun, After;
    var cfg := Config(1, 1);
    run, s := OneRetired(cfg);
    run, s := Go(cfg, run, s, StopOld(2));
    assert s.workers == [1] && s.threads == map[0 := Ticking, 2 := ReplaceRemove(1)];
    run, s := Go(cfg, run, s, HealthReplace(3, 1));
    assert RemoveId([1], 1) == [] && RemoveId([2], 1) == [2] && [] + [2] == [2] && [2] + [3] == [2, 3];
    run, s := Respawns(cfg, run, s, 2);
    run, s := Go(cfg, run, s, StopOld(3));
    run, s := Respawns(cfg, run, s, 3);
  }

  /** replaceWorker from the removal to the new worker's listing. It replaces one for one exactly when the worker
      is still listed, and otherwise adds one. */
  lemma Respawns(cfg: Config, run: seq<Action>, s: State, n: nat) returns (run': seq<Action>, s': State)
    requires IsRun(cfg, Init(cfg), run) && After(cfg, Init(cfg), run) == s
    requires n in s.threads && s.threads[n].ReplaceRemove?
    ensures IsRun(cfg, Init(cfg), run') && After(cfg, Init(cfg), run') == s'
    ensures s'.nextID == s.nextID + 1 && s'.workers == RemoveId(s.workers, s.threads[n].w) + [s.nextID + 1]
    ensures s'.threads == s.threads[n := Sending(s.nextID + 1, Replacing)]
    ensures |s'.workers| == |s.workers| + (if s.threads[n].w in s.workers then 0 else 1)
  {
    hide IsRun, After;
    RemoveIdWorks(s.workers, s.threads[n].w);
    run', s' := Go(cfg, run, s, RemoveOld(n));
    run', s' := Go(cfg, run', s', BeginSpawn(n));
    run', s' := Go(cfg, run', s', SpawnOk(n));
  }

  /** A Reload as thread t with nobody else at work. */
  ghost predicate Alone(run: seq<Action>, t: nat) {
    run != [] && run[0] == ReloadArrive(t) && forall i :: 1 <= i < |run| ==> OwnStep(run[i], t)
  }

  predicate Waits(cfg: Config, s: State, t: nat) {
    t in s.threads && s.threads[t].Sending? && !Enabled(cfg, s, Send(t))
  }

  /** How full the channel is while Reload's spawn loop runs, n tokens having been there before. */
  predicate Filling(cfg: Config, s: State, t: nat, n: nat) {
    t in s.threads ==>
      var th := s.threads[t];
      || th.Draining? || th.DrainRemove?
      || ((th.WantSpawn? || th.Spawning?) && th.why.Reloading?
          && |s.available| == n + |th.why.spawned| && |th.why.spawned| < cfg.minWorkers)
      || (th.Sending? && th.why.Reloading?
          && |s.available| == n + |th.why.spawned| - 1 && |th.why.spawned| <= cfg.minWorkers)
  }

  lemma OwnStepFills(cfg: Config, s: State, t: nat, n: nat, a: Action)
    requires Filling(cfg, s, t, n) && Enabled(cfg, s, a) && OwnStep(a, t)
    ensures Filling(cfg, Apply(cfg, s, a), t, n)
  {
  }

  lemma {:induction false} OwnRunFills(cfg: Config, s: State, t: nat, n: nat, run: seq<Action>)
    requires Filling(cfg, s, t, n) && IsRun(cfg, s, run) && forall i :: 0 <= i < |run| ==> OwnStep(run[i], t)
    ensures Filling(cfg, After(cfg, s, run), t, n)
    decreases |run|
  {
    hide Filling, Apply, Enabled, OwnStep;
    if run != [] {
      OwnStepFills(cfg, s, t, n, run[0]);
      OwnRunFills(cfg, Apply(cfg, s, run[0]), t, n, run[1..]);
    }
  }

  lemma ConsRun(cfg: Config, s: State, a: Action, rest: seq<Action>)
    requires Enabled(cfg, s, a) && IsRun(cfg, Apply(cfg, s, a), rest)
    ensures IsRun(cfg, s, [a] + rest) && After(cfg, s, [a] + rest) == After(cfg, Apply(cfg, s, a), rest)
  {
    assert ([a] + rest)[1..] == rest;
  }

  /** With more to spawn than there is room for, the spawn loop gets to a hand-over that waits. */
  lemma {:induction false} FillsUp(cfg: Config, s: State, t: nat, n: nat) returns (run: seq<Action>)
    requires t in s.threads && s.threads[t].WantSpawn? && Filling(cfg, s, t, n)
    requires |s.available| <= cfg.maxWorkers < n + cfg.minWorkers
    ensures IsRun(cfg, s, run) && Waits(cfg, After(cfg, s, run), t)
    ensures forall i :: 0 <= i < |run| ==> OwnStep(run[i], t)
    decreases cfg.minWorkers - |s.threads[t].why.spawned|
  {
    var s1 := Apply(cfg, s, BeginSpawn(t));
    var s2 := Apply(cfg, s1, SpawnOk(t));
    var rest: seq<Action> := [];
    if Enabled(cfg, s2, Send(t)) {
      rest := FillsUp(cfg, Apply(cfg, s2, Send(t)), t, n);
      ConsRun(cfg, s2, Send(t), rest);
      rest := [Send(t)] + rest;
    } else {
      assert IsRun(cfg, s2, rest) && After(cfg, s2, rest) == s2;
    }
    assert Waits(cfg, After(cfg, s2, rest), t);
    ConsRun(cfg, s1, SpawnOk(t), rest);
    ConsRun(cfg, s, BeginSpawn(t), [SpawnOk(t)] + rest);
    run := [BeginSpawn(t)] + ([SpawnOk(t)] + rest);
  }

  lemma ArrivalFills(cfg: Config, s: State, t: nat)
    requires t !in s.threads
    ensures Enabled(cfg, s, ReloadArrive(t))
    ensures var s' := Apply(cfg, s, ReloadArrive(t));
      Filling(cfg, s', t, |s.available|) && s'.available == s.available
      && t in s'.threads && (cfg.minWorkers > 0 ==> s'.threads[t].WantSpawn?)
  {
  }

  /** A Reload of a quiet pool, with nobody else at work, comes to a hand-over that has to wait exactly when
      the pool and MinWorkers new workers together are more than MaxWorkers. */
  lemma ReloadAloneWaitsIff(cfg: Config, s: State, t: nat)
    requires Conserved(s) && |s.available| <= cfg.maxWorkers && t !in s.threads
    requires forall u: nat, w: nat :: !Owned(s, u, w)
    ensures (exists run :: Alone(run, t) && IsRun(cfg, s, run) && Waits(cfg, After(cfg, s, run), t))
      <==> |s.workers| + cfg.minWorkers > cfg.maxWorkers
  {
    QuietLengths(s);
    hide Conserved, Apply, Enabled;
    var a, n := ReloadArrive(t), |s.available|;
    ArrivalFills(cfg, s, t);
    var s1 := Apply(cfg, s, a);
    if |s.workers| + cfg.minWorkers > cfg.maxWorkers {
      var rest := FillsUp(cfg, s1, t, n);
      ConsRun(cfg, s, a, rest);
      assert Alone([a] + rest, t);
    }
    forall run | Alone(run, t) && IsRun(cfg, s, run) && Waits(cfg, After(cfg, s, run), t)
      ensures |s.workers| + cfg.minWorkers > cfg.maxWorkers
    {
      OwnRunFills(cfg, s1, t, n, run[1..]);
      WaitsWhenFull(cfg, After(cfg, s, run), t, n);
    }
  }

  lemma WaitsWhenFull(cfg: Config, s: State, t: nat, n: nat)
    requires Filling(cfg, s, t, n) && Waits(cfg, s, t)
    ensures n + cfg.minWorkers > cfg.maxWorkers
  {
  }

  lemma QuietLengths(s: State)
    requires Conserved(s) && forall u: nat, w: nat :: !Owned(s, u, w)
    ensures |s.available| == |s.workers|
  {
    forall w: nat ensures multiset(s.available)[w] == multiset(s.workers)[w] {
      NoDupCount(s.available, w);
      NoDupCount(s.workers, w);
    }
    assert multiset(s.available) == multiset(s.workers);
    assert |multiset(s.available)| == |s.available| && |multiset(s.workers)| == |s.workers|;
  }
}
