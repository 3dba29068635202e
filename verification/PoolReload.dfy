/** Reload: what its drain loop has achieved when it ends, under any interleaving, and what it leaves
    behind in the channel. */
module PoolReload {
  import opened PoolMachine

  /** A Reload that has taken its snapshot, in its spawn loop or in its drain loop. */
  predicate IsJob(th: Thread) {
    || th.Draining? || th.DrainRemove?
    || ((th.WantSpawn? || th.Spawning? || th.Sending?) && th.why.Reloading?)
  }

  function Snapshot(th: Thread): seq<nat>
    requires IsJob(th)
  {
    if th.Draining? || th.DrainRemove? then th.snapshot else th.why.snapshot
  }

  function Drains(th: Thread): nat
    requires IsJob(th)
  {
    if th.Draining? || th.DrainRemove? then th.next else 0
  }

  function Spawned(th: Thread): seq<nat>
    requires IsJob(th)
  {
    if th.Draining? || th.DrainRemove? then th.spawned else th.why.spawned
  }

  predicate Starts(s: State, t: nat, w: nat) {
    t in s.threads && s.threads[t].Spawning? && s.threads[t].id == w
  }

  /** An id that has been issued and is neither listed nor starting: it cannot come back. */
  ghost predicate Departed(s: State, w: nat) {
    w <= s.nextID && w !in s.workers && forall t: nat :: !Starts(s, t, w)
  }

  /** The history names exactly ids that departed. */
  ghost predicate Historic(s: State) {
    forall w: nat :: w in s.gone ==> Departed(s, w)
  }

  predicate PhaseOk(cfg: Config, th: Thread)
    requires IsJob(th)
  {
    && Drains(th) <= |Snapshot(th)|
    && (th.WantSpawn? || th.Spawning? ==> |Spawned(th)| < cfg.minWorkers)
    && (th.Sending? ==> |Spawned(th)| <= cfg.minWorkers)
    && (th.Draining? || th.DrainRemove? ==> |Spawned(th)| == cfg.minWorkers)
  }

  /** What a Reload can count on while it runs as thread t. */
  ghost predicate JobOk(cfg: Config, s: State, t: nat)
    requires t in s.threads && IsJob(s.threads[t])
  {
    var th := s.threads[t];
    && PhaseOk(cfg, th)
    && (forall w: nat :: w in Snapshot(th) ==> w <= s.nextID && forall u: nat :: !Starts(s, u, w))
    && (forall i :: 0 <= i < Drains(th) ==> Departed(s, Snapshot(th)[i]))
    && (forall w: nat :: w in Spawned(th) ==> w !in Snapshot(th))
    && (forall w: nat :: w in Spawned(th) ==> w in s.workers || (w in s.gone && s.gone[w] != Drained(t)))
  }

  predicate HasJob(s: State, t: nat) {
    t in s.threads && IsJob(s.threads[t])
  }

  ghost predicate JobsOk(cfg: Config, s: State) {
    forall t: nat :: HasJob(s, t) ==> JobOk(cfg, s, t)
  }

  ghost predicate ReloadInv(cfg: Config, s: State) {
    Inv(s) && Historic(s) && JobsOk(cfg, s)
  }

  lemma StepStarts(cfg: Config, s: State, a: Action, t: nat, w: nat)
    requires Enabled(cfg, s, a) && Starts(Apply(cfg, s, a), t, w)
    ensures Starts(s, t, w) || (a.BeginSpawn? && w == s.nextID + 1)
    ensures !(a.SpawnOk? && t == a.t)
  {
  }

  predicate IsRemoval(a: Action) {
    a.RemoveOld? || a.RemoveIdle? || a.DrainTake?
  }

  /** Which id a step removes, and the cause it records. */
  function Removed(cfg: Config, s: State, a: Action): nat
    requires IsRemoval(a) && Enabled(cfg, s, a)
  {
    if a.DrainTake? then s.threads[a.t].snapshot[s.threads[a.t].next] else s.threads[a.t].w
  }

  function CauseOf(a: Action): Cause
    requires IsRemoval(a)
  {
    match a
    case RemoveOld(_) => Recycled
    case RemoveIdle(_) => ScaledDown
    case DrainTake(t) => Drained(t)
  }

  lemma StepGone(cfg: Config, s: State, a: Action)
    requires Enabled(cfg, s, a)
    ensures Apply(cfg, s, a).gone ==
            if IsRemoval(a) && Removed(cfg, s, a) in s.workers
            then s.gone[Removed(cfg, s, a) := CauseOf(a)] else s.gone
  {
  }

  lemma StepListed(cfg: Config, s: State, a: Action, w: nat)
    requires Inv(s) && Enabled(cfg, s, a)
    ensures var s' := Apply(cfg, s, a);
      && (w in s'.workers ==> w in s.workers || (a.SpawnOk? && Starts(s, a.t, w)))
      && (w in s.workers && w !in s'.workers ==> IsRemoval(a) && Removed(cfg, s, a) == w)
      && (IsRemoval(a) && Removed(cfg, s, a) == w ==> w !in s'.workers)
  {
    StepWorkers(cfg, s, a);
    if IsRemoval(a) { RemoveIdWorks(s.workers, Removed(cfg, s, a)); }
  }

  /** What has left does not come back. */
  lemma StepKeepsDeparted(cfg: Config, s: State, a: Action, w: nat)
    requires Inv(s) && Enabled(cfg, s, a) && Departed(s, w)
    ensures Departed(Apply(cfg, s, a), w)
  {
    StepListed(cfg, s, a, w);
    forall t: nat ensures !Starts(Apply(cfg, s, a), t, w) {
      if Starts(Apply(cfg, s, a), t, w) { StepStarts(cfg, s, a, t, w); }
    }
  }

  lemma LeavingDeparts(cfg: Config, s: State, a: Action, w: nat)
    requires Inv(s) && Enabled(cfg, s, a) && w <= s.nextID && w !in Apply(cfg, s, a).workers
    requires forall t: nat :: !Starts(s, t, w)
    ensures Departed(Apply(cfg, s, a), w)
  {
    forall t: nat ensures !Starts(Apply(cfg, s, a), t, w) {
      if Starts(Apply(cfg, s, a), t, w) { StepStarts(cfg, s, a, t, w); }
    }
  }

  lemma StepKeepsHistoric(cfg: Config, s: State, a: Action)
    requires Inv(s) && Historic(s) && Enabled(cfg, s, a)
    ensures Historic(Apply(cfg, s, a))
  {
    var s' := Apply(cfg, s, a);
    forall w: nat | w in s'.gone ensures Departed(s', w) {
      StepListed(cfg, s, a, w);
      StepGone(cfg, s, a);
      if w in s.gone {
        StepKeepsDeparted(cfg, s, a, w);
      } else {
        LeavingDeparts(cfg, s, a, w);
      }
    }
  }

  /** How a Reload's own notes move: it starts, it lists a worker, it drains one, or nothing. */
  lemma StepJob(cfg: Config, s: State, a: Action, t: nat)
    requires Enabled(cfg, s, a) && HasJob(Apply(cfg, s, a), t)
    ensures var th' := Apply(cfg, s, a).threads[t];
      || (a == ReloadArrive(t) && Snapshot(th') == s.workers && Spawned(th') == [] && Drains(th') == 0)
      || (HasJob(s, t) && Snapshot(th') == Snapshot(s.threads[t]) &&
            if a == SpawnOk(t) then Spawned(th') == Spawned(s.threads[t]) + [s.threads[t].id] && Drains(th') == 0
            else if a == DrainTake(t)
            then Spawned(th') == Spawned(s.threads[t]) && Drains(th') == Drains(s.threads[t]) + 1
            else Spawned(th') == Spawned(s.threads[t]) && Drains(th') == Drains(s.threads[t]))
  {
    if t in s.threads && Apply(cfg, s, a).threads[t] == s.threads[t] {
      assert a != SpawnOk(t) && a != DrainTake(t);
      hide Apply, Enabled;
    }
  }

  lemma StepDrainPhase(cfg: Config, s: State, a: Action, t: nat)
    requires Enabled(cfg, s, a) && HasJob(Apply(cfg, s, a), t)
    requires HasJob(s, t) ==> PhaseOk(cfg, s.threads[t])
    ensures var th := Apply(cfg, s, a).threads[t];
      th.Draining? || th.DrainRemove? ==> th.next <= |th.snapshot| && |th.spawned| == cfg.minWorkers
  {
    if t in s.threads && Apply(cfg, s, a).threads[t] == s.threads[t] { hide Apply, Enabled; }
  }

  lemma StepSpawnPhase(cfg: Config, s: State, a: Action, t: nat)
    requires Enabled(cfg, s, a) && HasJob(Apply(cfg, s, a), t)
    requires HasJob(s, t) ==> PhaseOk(cfg, s.threads[t])
    ensures var th := Apply(cfg, s, a).threads[t];
      && (th.WantSpawn? || th.Spawning? ==> |th.why.spawned| < cfg.minWorkers)
      && (th.Sending? ==> |th.why.spawned| <= cfg.minWorkers)
  {
    if t in s.threads && Apply(cfg, s, a).threads[t] == s.threads[t] { hide Apply, Enabled; }
  }

  lemma StepKeepsSnapshot(cfg: Config, s: State, a: Action, t: nat, w: nat, u: nat)
    requires ReloadInv(cfg, s) && Enabled(cfg, s, a) && HasJob(Apply(cfg, s, a), t)
    requires w in Snapshot(Apply(cfg, s, a).threads[t])
    ensures w <= Apply(cfg, s, a).nextID && !Starts(Apply(cfg, s, a), u, w)
  {
    StepJob(cfg, s, a, t);
    if a == ReloadArrive(t) { assert w in s.workers; } else { assert JobOk(cfg, s, t) && w in Snapshot(s.threads[t]); }
    if Starts(Apply(cfg, s, a), u, w) { StepStarts(cfg, s, a, u, w); }
  }

  lemma StepKeepsDrained(cfg: Config, s: State, a: Action, t: nat, i: nat)
    requires ReloadInv(cfg, s) && Enabled(cfg, s, a) && HasJob(Apply(cfg, s, a), t)
    requires i < Drains(Apply(cfg, s, a).threads[t]) <= |Snapshot(Apply(cfg, s, a).threads[t])|
    ensures Departed(Apply(cfg, s, a), Snapshot(Apply(cfg, s, a).threads[t])[i])
  {
    StepJob(cfg, s, a, t);
    assert JobOk(cfg, s, t);
    var w := Snapshot(s.threads[t])[i];
    if a == DrainTake(t) && i == Drains(s.threads[t]) {
      assert w in Snapshot(s.threads[t]);
      StepListed(cfg, s, a, w);
      LeavingDeparts(cfg, s, a, w);
    } else {
      StepKeepsDeparted(cfg, s, a, w);
    }
  }

  lemma StepKeepsSpawned(cfg: Config, s: State, a: Action, t: nat, w: nat)
    requires ReloadInv(cfg, s) && Enabled(cfg, s, a) && HasJob(Apply(cfg, s, a), t)
    requires w in Spawned(Apply(cfg, s, a).threads[t])
    ensures var s' := Apply(cfg, s, a);
      w !in Snapshot(s'.threads[t]) && (w in s'.workers || (w in s'.gone && s'.gone[w] != Drained(t)))
  {
    hide Apply, PhaseOk, Departed;
    StepJob(cfg, s, a, t);
    assert HasJob(s, t) && JobOk(cfg, s, t);
    StepListed(cfg, s, a, w);
    StepGone(cfg, s, a);
    StepWorkers(cfg, s, a);
    if w in Spawned(s.threads[t]) {
      SpawnedBefore(cfg, s, t, w);
      hide Enabled, Inv, Historic;
      SpawnedStays(cfg, s, a, t, w);
    } else {
      assert a == SpawnOk(t) && w == s.threads[t].id && Starts(s, t, w);
    }
  }

  lemma SpawnedBefore(cfg: Config, s: State, t: nat, w: nat)
    requires HasJob(s, t) && JobOk(cfg, s, t) && w in Spawned(s.threads[t])
    ensures PhaseOk(cfg, s.threads[t]) && w !in Snapshot(s.threads[t])
    ensures w in s.workers || (w in s.gone && s.gone[w] != Drained(t))
  {
  }

  /** A spawned worker stays listed, or leaves for a cause that is not this Reload's own. */
  lemma SpawnedStays(cfg: Config, s: State, a: Action, t: nat, w: nat)
    requires Inv(s) && Historic(s) && Enabled(cfg, s, a) && HasJob(s, t) && PhaseOk(cfg, s.threads[t])
    requires w !in Snapshot(s.threads[t]) && (w in s.workers || (w in s.gone && s.gone[w] != Drained(t)))
    ensures var s' := Apply(cfg, s, a); w in s'.workers || (w in s'.gone && s'.gone[w] != Drained(t))
  {
    hide Apply, Inv;
    StepListed(cfg, s, a, w);
    StepGone(cfg, s, a);
    if w in s.gone { assert Departed(s, w); }
  }

  lemma StepKeepsJob(cfg: Config, s: State, a: Action, t: nat)
    requires ReloadInv(cfg, s) && Enabled(cfg, s, a) && HasJob(Apply(cfg, s, a), t)
    ensures JobOk(cfg, Apply(cfg, s, a), t)
  {
    hide Apply, Enabled;
    var s' := Apply(cfg, s, a);
    var th := s'.threads[t];
    assert HasJob(s, t) ==> JobOk(cfg, s, t);
    StepDrainPhase(cfg, s, a, t);
    StepSpawnPhase(cfg, s, a, t);
    forall w: nat | w in Snapshot(th) ensures w <= s'.nextID && forall u: nat :: !Starts(s', u, w) {
      StepKeepsSnapshot(cfg, s, a, t, w, 0);
      forall u: nat ensures !Starts(s', u, w) { StepKeepsSnapshot(cfg, s, a, t, w, u); }
    }
    forall i | 0 <= i < Drains(th) ensures Departed(s', Snapshot(th)[i]) { StepKeepsDrained(cfg, s, a, t, i); }
    forall w: nat | w in Spawned(th)
      ensures w !in Snapshot(th) && (w in s'.workers || (w in s'.gone && s'.gone[w] != Drained(t)))
    {
      StepKeepsSpawned(cfg, s, a, t, w);
    }
  }

  lemma {:induction false} RunKeepsReloadInv(cfg: Config, s: State, run: seq<Action>)
    requires ReloadInv(cfg, s) && IsRun(cfg, s, run)
    ensures ReloadInv(cfg, After(cfg, s, run))
    decreases |run|
  {
    hide Apply, Enabled;
    if run != [] {
      var s' := Apply(cfg, s, run[0]);
      StepKeepsInv(cfg, s, run[0]);
      StepKeepsHistoric(cfg, s, run[0]);
      forall t: nat | HasJob(s', t) ensures JobOk(cfg, s', t) { StepKeepsJob(cfg, s, run[0], t); }
      RunKeepsReloadInv(cfg, s', run[1..]);
    }
  }

  lemma {:induction false} RunKeepsDeparted(cfg: Config, s: State, run: seq<Action>, w: nat)
    requires Inv(s) && Departed(s, w) && IsRun(cfg, s, run)
    ensures w !in After(cfg, s, run).workers
    decreases |run|
  {
    if run != [] {
      StepKeepsInv(cfg, s, run[0]);
      StepKeepsDeparted(cfg, s, run[0], w);
      RunKeepsDeparted(cfg, Apply(cfg, s, run[0]), run[1..], w);
    }
  }

  /** When a drain loop ends, its snapshot is gone for good, and of the workers it spawned each is still
      listed unless someone else recycled it, scaled it down or reloaded it away. */
  lemma ReloadCompletes(cfg: Config, run: seq<Action>, t: nat, later: seq<Action>)
    requires IsRun(cfg, Init(cfg), run)
    requires var s := After(cfg, Init(cfg), run);
      && t in s.threads && s.threads[t].Draining? && s.threads[t].next == |s.threads[t].snapshot|
      && IsRun(cfg, s, later)
    ensures var s := After(cfg, Init(cfg), run); var th := s.threads[t];
      && (forall w: nat :: w in th.snapshot ==> w !in s.workers && w !in After(cfg, s, later).workers)
      && |th.spawned| == cfg.minWorkers
      && (forall w: nat :: w in th.spawned ==> w in s.workers || (w in s.gone && s.gone[w] != Drained(t)))
      && s.active == |s.workers| && NoDup(s.workers)
  {
    var s := After(cfg, Init(cfg), run);
    RunKeepsReloadInv(cfg, Init(cfg), run);
    assert HasJob(s, t);
    var th := s.threads[t];
    forall w: nat | w in th.snapshot
      ensures w !in s.workers && w !in After(cfg, s, later).workers
    {
      var i :| 0 <= i < |th.snapshot| && th.snapshot[i] == w;
      assert Departed(s, Snapshot(th)[i]);
      RunKeepsDeparted(cfg, s, later, w);
    }
  }

  /** While one Reload runs as thread t, its snapshot is the list it found. */
  lemma {:induction false} SnapshotStays(cfg: Config, s: State, run: seq<Action>, t: nat)
    requires IsRun(cfg, s, run) && HasJob(After(cfg, s, run), t)
    requires forall i :: 0 <= i < |run| ==> run[i] != ReloadArrive(t)
    ensures HasJob(s, t) && Snapshot(After(cfg, s, run).threads[t]) == Snapshot(s.threads[t])
    decreases |run|
  {
    hide Apply, Enabled, HasJob, Snapshot;
    if run != [] {
      SnapshotStays(cfg, Apply(cfg, s, run[0]), run[1..], t);
      StepJob(cfg, s, run[0], t);
    }
  }

  /** A Reload that comes to the end of its drain loop has replaced the pool it found: none of the workers that
      were listed when it began is listed then or ever after, and it has listed MinWorkers new ones, of which
      each is still there unless someone else removed it. */
  lemma ReloadReplacesAll(cfg: Config, before: seq<Action>, t: nat, meanwhile: seq<Action>, later: seq<Action>)
    requires IsRun(cfg, Init(cfg), before) && Enabled(cfg, After(cfg, Init(cfg), before), ReloadArrive(t))
    requires var s1 := Apply(cfg, After(cfg, Init(cfg), before), ReloadArrive(t));
      && IsRun(cfg, s1, meanwhile) && (forall i :: 0 <= i < |meanwhile| ==> meanwhile[i] != ReloadArrive(t))
      && var s := After(cfg, s1, meanwhile);
        && t in s.threads && s.threads[t].Draining? && s.threads[t].next == |s.threads[t].snapshot|
        && IsRun(cfg, s, later)
    ensures var (was, s1) := (After(cfg, Init(cfg), before).workers,
                              Apply(cfg, After(cfg, Init(cfg), before), ReloadArrive(t)));
      var s := After(cfg, s1, meanwhile);
      && (forall w: nat :: w in was ==> w !in s.workers && w !in After(cfg, s, later).workers)
      && |s.threads[t].spawned| == cfg.minWorkers
      && forall w: nat :: w in s.threads[t].spawned ==>
           w !in was && (w in s.workers || (w in s.gone && s.gone[w] != Drained(t)))
  {
    hide Apply, Enabled, Init;
    var a := ReloadArrive(t);
    var s0 := After(cfg, Init(cfg), before);
    var s1 := Apply(cfg, s0, a);
    var s := After(cfg, s1, meanwhile);
    Arrives(cfg, s0, t);
    assert ([a] + meanwhile)[1..] == meanwhile;
    RunSplit(cfg, Init(cfg), before, [a] + meanwhile);
    SnapshotStays(cfg, s1, meanwhile, t);
    hide IsRun, After;
    SpawnedIsNew(cfg, before + ([a] + meanwhile), t);
    ReloadCompletes(cfg, before + ([a] + meanwhile), t, later);
  }

  lemma Arrives(cfg: Config, s: State, t: nat)
    requires Enabled(cfg, s, ReloadArrive(t))
    ensures var s' := Apply(cfg, s, ReloadArrive(t)); HasJob(s', t) && Snapshot(s'.threads[t]) == s.workers
  {
  }

  lemma SpawnedIsNew(cfg: Config, run: seq<Action>, t: nat)
    requires IsRun(cfg, Init(cfg), run) && HasJob(After(cfg, Init(cfg), run), t)
    ensures var th := After(cfg, Init(cfg), run).threads[t]; forall w: nat :: w in Spawned(th) ==> w !in Snapshot(th)
  {
    RunKeepsReloadInv(cfg, Init(cfg), run);
    assert JobOk(cfg, After(cfg, Init(cfg), run), t);
  }

  lemma {:induction false} RunSplit(cfg: Config, s: State, xs: seq<Action>, ys: seq<Action>)
    requires IsRun(cfg, s, xs) && IsRun(cfg, After(cfg, s, xs), ys)
    ensures IsRun(cfg, s, xs + ys) && After(cfg, s, xs + ys) == After(cfg, After(cfg, s, xs), ys)
    decreases |xs|
  {
    hide Apply, Enabled;
    if xs == [] {
      assert xs + ys == ys;
    } else {
      assert (xs + ys)[1..] == xs[1..] + ys;
      RunSplit(cfg, Apply(cfg, s, xs[0]), xs[1..], ys);
    }
  }

  // --- what Reload leaves behind ---

  /** Removing a drained worker leaves a token of an unlisted worker in the channel exactly when the
      worker was waiting there. */
  lemma DrainLeavesItsToken(cfg: Config, s: State, a: Action)
    requires Inv(s) && a.DrainTake? && Enabled(cfg, s, a)
    requires forall w: nat :: w in s.available ==> w in s.workers
    ensures var s' := Apply(cfg, s, a);
      (forall w: nat :: w in s'.available ==> w in s'.workers) <==> Removed(cfg, s, a) !in s.available
  {
    var s' := Apply(cfg, s, a);
    StepChannel(cfg, s, a);
    RemoveIdWorks(s.workers, Removed(cfg, s, a));
    forall w: nat { StepListed(cfg, s, a, w); }
  }

  /** With one idle worker and room for two, a completed Reload leaves the old token in the channel. */
  lemma ReloadBreaksConservation() returns (run: seq<Action>, s: State)
    ensures IsRun(Config(1, 2), Init(Config(1, 2)), run) && After(Config(1, 2), Init(Config(1, 2)), run) == s
    ensures s.threads == map[0 := Ticking] && s.available == [1, 2] && s.workers == [2]
  {
    hide IsRun, After;
    var cfg := Config(1, 2);
    run, s := ReloadSpawnsOne(cfg);
    run, s := Go(cfg, run, s, Send(1));
    assert s.threads[1] == Draining([1], 0, [2]) && s.available == [1, 2];
    assert s.threads - {1} == map[0 := Ticking] && RemoveId(s.workers, 1) == [2];
    var s1, s2, s3 := DrainsOne(cfg, s, 1, 1);
    hide *;
    run, s := Go(cfg, run, s, DrainStop(1));
    run, s := Go(cfg, run, s, DrainTake(1));
    run, s := Go(cfg, run, s, DrainEnd(1));
  }

  /** The three steps with which a Reload with one worker to drain ends. */
  lemma DrainsOne(cfg: Config, s: State, t: nat, w: nat) returns (s1: State, s2: State, s3: State)
    requires t in s.threads && s.threads[t].Draining? && s.threads[t].snapshot == [w] && s.threads[t].next == 0
    ensures Enabled(cfg, s, DrainStop(t)) && s1 == Apply(cfg, s, DrainStop(t))
    ensures Enabled(cfg, s1, DrainTake(t)) && s2 == Apply(cfg, s1, DrainTake(t))
    ensures Enabled(cfg, s2, DrainEnd(t)) && s3 == Apply(cfg, s2, DrainEnd(t))
    ensures s3.threads == s.threads - {t} && s3.available == s.available && s3.workers == RemoveId(s.workers, w)
  {
    if w !in s.workers { RemoveIdWorks(s.workers, w); }
    s1 := Apply(cfg, s, DrainStop(t));
    s2 := Apply(cfg, s1, DrainTake(t));
    s3 := Apply(cfg, s2, DrainEnd(t));
  }

  /** With the pool at its maximum and idle, Reload's first hand-over has no room and waits. */
  lemma ReloadCanBlock() returns (run: seq<Action>, s: State)
    ensures IsRun(Config(1, 1), Init(Config(1, 1)), run) && After(Config(1, 1), Init(Config(1, 1)), run) == s
    ensures 1 in s.threads && s.threads[1] == Sending(2, Reloading([1], [2])) && !Enabled(Config(1, 1), s, Send(1))
  {
    run, s := ReloadSpawnsOne(Config(1, 1));
  }

  lemma ReloadSpawnsOne(cfg: Config) returns (run: seq<Action>, s: State)
    requires cfg.minWorkers == 1 && cfg.maxWorkers >= 1
    ensures IsRun(cfg, Init(cfg), run) && After(cfg, Init(cfg), run) == s
    ensures s.workers == [1, 2] && s.available == [1] && s.gone == map[]
    ensures s.threads == map[0 := Ticking, 1 := Sending(2, Reloading([1], [2]))]
  {
    hide IsRun, After;
    run, s := Begin(cfg);
    run, s := Go(cfg, run, s, BeginSpawn(0));
    run, s := Go(cfg, run, s, SpawnOk(0));
    run, s := Go(cfg, run, s, Send(0));
    run, s := Go(cfg, run, s, ReloadArrive(1));
    run, s := Go(cfg, run, s, BeginSpawn(1));
    assert s.workers == [1] && s.threads[1] == Spawning(2, Reloading(s.workers, []));
    assert [] + [2] == [2];
    run, s := Go(cfg, run, s, SpawnOk(1));
  }
}
