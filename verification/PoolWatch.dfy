/** The watchdog: autoScale's thread lives through everything but a failed start, decides as the thresholds
    say, and always comes round to its next tick. And the busy counter it reads is the number of Execs that
    have a worker. */
module PoolWatch {
  import opened PoolMachine
  import opened PoolSize

  // --- the watchdog lives ---

  /** A spawn of Start's loop fails: Start returns the error and no watchdog is started. */
  predicate FailsStart(s: State, a: Action) {
    a.SpawnFail? && At(s, a.t) && s.threads[a.t].Spawning? && s.threads[a.t].why.Starting?
  }

  ghost predicate StartFails(cfg: Config, s: State, run: seq<Action>)
    requires IsRun(cfg, s, run)
    decreases |run|
  {
    run != [] && (FailsStart(s, run[0]) || StartFails(cfg, Apply(cfg, s, run[0]), run[1..]))
  }

  /** The first thread is in Start's loop or is the watchdog. */
  predicate Watched(s: State) {
    0 in s.threads && IsWatch(s.threads[0])
  }

  ghost predicate OneOnly(s: State) {
    forall t: nat :: t in s.threads && IsWatch(s.threads[t]) ==> t == 0
  }

  lemma StepWatcher(cfg: Config, s: State, a: Action, t: nat)
    requires Enabled(cfg, s, a)
    ensures t in Apply(cfg, s, a).threads && IsWatch(Apply(cfg, s, a).threads[t]) <==>
            t in s.threads && IsWatch(s.threads[t]) && !(FailsStart(s, a) && a.t == t)
  {
    if t != Actor(a) && (Forks(a) ==> t != a.n) {
      StepThreads(cfg, s, a, t);
      hide Apply, Enabled;
    }
  }

  lemma {:induction false} WatchedFrom(cfg: Config, s: State, run: seq<Action>)
    requires OneOnly(s) && IsRun(cfg, s, run)
    ensures Watched(After(cfg, s, run)) <==> Watched(s) && !StartFails(cfg, s, run)
    decreases |run|
  {
    hide Apply, Enabled, IsWatch;
    if run != [] {
      var (a, s') := (run[0], Apply(cfg, s, run[0]));
      StepWatcher(cfg, s, a, 0);
      FailerWatches(s, a);
      forall t: nat | t in s'.threads && IsWatch(s'.threads[t]) ensures t == 0 { StepWatcher(cfg, s, a, t); }
      WatchedFrom(cfg, s', run[1..]);
    }
  }

  lemma FailerWatches(s: State, a: Action)
    requires OneOnly(s)
    ensures FailsStart(s, a) ==> a.t == 0
  {
    if FailsStart(s, a) { assert IsWatch(s.threads[a.t]); }
  }

  /** In every run, whatever else happens: autoScale's thread is there, in Start's loop or as the watchdog,
      exactly as long as no spawn of Start has failed. */
  lemma WatchdogLivesIff(cfg: Config, run: seq<Action>)
    requires IsRun(cfg, Init(cfg), run)
    ensures Watched(After(cfg, Init(cfg), run)) <==> !StartFails(cfg, Init(cfg), run)
  {
    WatchedFrom(cfg, Init(cfg), run);
  }

  // --- what it decides ---

  /** One decision, in percent of the sampled list. At 80 and more below the maximum it goes on to spawn a
      worker; at 20 and less above the minimum an idle worker, if one waits, goes to a goroutine that stops
      it; and unless it spawns, the watchdog ticks again. Nothing else changes. */
  lemma DecisionInPercent(cfg: Config, s: State, a: Action, busyPct: real)
    requires Enabled(cfg, s, a) && a.Decide?
    requires var th := s.threads[a.t]; th.total > 0 ==> busyPct * th.total as real == 100.0 * th.busy as real
    ensures var (s', total) := (Apply(cfg, s, a), s.threads[a.t].total);
      var up := total > 0 && busyPct >= 80.0 && total < cfg.maxWorkers;
      var down := total > 0 && busyPct <= 20.0 && total > cfg.minWorkers && |s.available| > 0;
      && !(up && down)
      && a.t in s'.threads && s'.threads[a.t] == (if up then WantSpawn(ScalingUp) else Ticking)
      && (down ==> s.available == [s.available[0]] + s'.available)
      && (down ==> a.n in s'.threads && s'.threads[a.n] == DownStop(s.available[0]))
      && (!down ==> s'.available == s.available && a.n !in s'.threads)
      && s'.threads - {a.t, a.n} == s.threads - {a.t, a.n}
      && s'.workers == s.workers && s'.active == s.active && s'.busy == s.busy && s'.nextID == s.nextID
  {
    var th := s.threads[a.t];
    if th.total > 0 { ScalingThresholds(cfg, th.total, th.busy, busyPct); }
  }

  // --- it comes round ---

  /** How many steps of its own the thread is away from its next tick. */
  function Rank(cfg: Config, th: Thread): int {
    match th
    case Sampled(_) => 5
    case Deciding(_, _) => 4
    case WantSpawn(ScalingUp) => 3
    case Spawning(_, ScalingUp) => 2
    case Sending(_, ScalingUp) => 1
    case WantSpawn(Starting(sent)) => 3 * (cfg.minWorkers - sent)
    case Spawning(_, Starting(sent)) => 3 * (cfg.minWorkers - sent) - 1
    case Sending(_, Starting(sent)) => 3 * (cfg.minWorkers - sent) - 2
    case _ => 0
  }

  ghost predicate InLoop(cfg: Config, s: State) {
    OneOnly(s) && forall t: nat :: t in s.threads ==> LoopRoom(cfg, s.threads[t])
  }

  /** A tick takes a fresh look at the list; any other step of the thread's own brings the next tick nearer,
      whether a spawn succeeds or fails. */
  lemma StepRank(cfg: Config, s: State, a: Action)
    requires InLoop(cfg, s) && Watched(s) && Enabled(cfg, s, a) && !FailsStart(s, a)
    ensures var (th, th') := (s.threads[0], Apply(cfg, s, a).threads[0]);
      && 0 <= Rank(cfg, th)
      && (if Actor(a) != 0 then th' == th
          else if a.Sample? then th == Ticking && th' == Sampled(|s.workers|)
          else Rank(cfg, th') < Rank(cfg, th))
  {
    StepWatcher(cfg, s, a, 0);
    assert LoopRoom(cfg, s.threads[0]);
    if Actor(a) != 0 {
      StepThreads(cfg, s, a, 0);
      hide Apply, Enabled;
    }
  }

  lemma StepKeepsInLoop(cfg: Config, s: State, a: Action)
    requires InLoop(cfg, s) && Enabled(cfg, s, a)
    ensures InLoop(cfg, Apply(cfg, s, a))
  {
    hide Apply, Enabled, LoopRoom, IsWatch, FailsStart;
    var s' := Apply(cfg, s, a);
    forall t: nat | t in s'.threads ensures LoopRoom(cfg, s'.threads[t]) { StepLoopRoom(cfg, s, a, t); }
    forall t: nat | t in s'.threads && IsWatch(s'.threads[t]) ensures t == 0 { StepWatcher(cfg, s, a, t); }
  }

  lemma StepLoopRoom(cfg: Config, s: State, a: Action, t: nat)
    requires Enabled(cfg, s, a) && t in Apply(cfg, s, a).threads && (t in s.threads ==> LoopRoom(cfg, s.threads[t]))
    ensures LoopRoom(cfg, Apply(cfg, s, a).threads[t])
  {
  }

  /** The thread's own steps in a run, and its ticks. */
  function OwnSteps(run: seq<Action>): nat {
    if run == [] then 0 else (if Actor(run[0]) == 0 then 1 else 0) + OwnSteps(run[1..])
  }

  function Ticks(run: seq<Action>): nat {
    if run == [] then 0 else (if run[0] == Sample(0) then 1 else 0) + Ticks(run[1..])
  }

  lemma {:induction false} RoundFrom(cfg: Config, s: State, run: seq<Action>)
    requires InLoop(cfg, s) && Watched(s) && IsRun(cfg, s, run) && !StartFails(cfg, s, run)
    ensures OwnSteps(run) <= Rank(cfg, s.threads[0]) + 6 * Ticks(run)
    decreases |run|
  {
    hide Apply, Enabled, InLoop, IsWatch, Rank, FailsStart;
    if run == [] {
      RankNotNegative(cfg, s);
    } else {
      var (a, s') := (run[0], Apply(cfg, s, run[0]));
      StepRank(cfg, s, a);
      StepWatcher(cfg, s, a, 0);
      StepKeepsInLoop(cfg, s, a);
      SampleRank(cfg, |s.workers|);
      RoundFrom(cfg, s', run[1..]);
    }
  }

  lemma SampleRank(cfg: Config, total: nat)
    ensures Rank(cfg, Ticking) == 0 && Rank(cfg, Sampled(total)) == 5
  {
  }

  lemma RankNotNegative(cfg: Config, s: State)
    requires InLoop(cfg, s) && Watched(s)
    ensures Rank(cfg, s.threads[0]) >= 0
  {
    assert LoopRoom(cfg, s.threads[0]);
  }

  /** After the 3 * MinWorkers steps of Start the watchdog does not take more than six steps of its own
      without a tick: no decision, and no scale-up that succeeds or fails, is its last. */
  lemma WatchdogComesRound(cfg: Config, run: seq<Action>)
    requires IsRun(cfg, Init(cfg), run) && !StartFails(cfg, Init(cfg), run)
    ensures OwnSteps(run) <= 3 * cfg.minWorkers + 6 * Ticks(run)
  {
    RoundFrom(cfg, Init(cfg), run);
  }

  // --- the busy counter ---

  /** An Exec has a worker, or is giving it back. */
  predicate HasWorker(th: Thread) {
    th.Holding? || (th.Sending? && th.why.Returning?)
  }

  ghost function Holders(threads: map<nat, Thread>): set<nat> {
    set t | t in threads && HasWorker(threads[t])
  }

  ghost predicate BusyInv(s: State) {
    && s.busy == |Holders(s.threads)|
    && (forall t: nat :: t in s.threads ==> !Stray(s.threads[t]))
  }

  /** Which threads come to have a worker in a step and which cease to. */
  lemma StepHolders(cfg: Config, s: State, a: Action)
    requires Enabled(cfg, s, a) && forall t: nat :: t in s.threads ==> !Stray(s.threads[t])
    ensures var (was, now) := (Holders(s.threads), Holders(Apply(cfg, s, a).threads));
      && (a.ExecReceive? ==> a.t !in was && now == was + {a.t})
      && (a.ExecRetire? || (a.Send? && s.threads[a.t].why.Returning?) ==> a.t in was && now == was - {a.t})
      && (!a.ExecReceive? && !a.ExecRetire? && !(a.Send? && s.threads[a.t].why.Returning?) ==> now == was)
  {
    forall u: nat ensures u != Actor(a) && (Forks(a) ==> u != a.n) ==>
      (u in Holders(s.threads) <==> u in Holders(Apply(cfg, s, a).threads))
    {
      if u != Actor(a) && (Forks(a) ==> u != a.n) { StepThreads(cfg, s, a, u); }
    }
    HoldersAt(cfg, s, a);
  }

  lemma HoldersAt(cfg: Config, s: State, a: Action)
    requires Enabled(cfg, s, a) && forall t: nat :: t in s.threads ==> !Stray(s.threads[t])
    ensures var (was, now) := (Holders(s.threads), Holders(Apply(cfg, s, a).threads)); var u := Actor(a);
      && (a.ExecReceive? ==> u !in was && u in now)
      && (a.ExecRetire? || (a.Send? && s.threads[a.t].why.Returning?) ==> u in was && u !in now)
      && (!a.ExecReceive? && !a.ExecRetire? && !(a.Send? && s.threads[a.t].why.Returning?) ==> (u in now <==> u in was))
      && (Forks(a) ==> a.n !in was && a.n !in now)
  {
    if Actor(a) in s.threads { assert !Stray(s.threads[Actor(a)]); }
  }

  lemma StepBusy(cfg: Config, s: State, a: Action)
    requires Enabled(cfg, s, a)
    ensures Apply(cfg, s, a).busy == s.busy + (if a.ExecReceive? then 1 else 0)
      - (if a.ExecRetire? || (a.Send? && s.threads[a.t].why.Returning?) then 1 else 0)
  {
  }

  lemma StepKeepsBusy(cfg: Config, s: State, a: Action)
    requires BusyInv(s) && Enabled(cfg, s, a)
    ensures BusyInv(Apply(cfg, s, a))
  {
    hide Apply, Enabled, Stray, Holders;
    StepHolders(cfg, s, a);
    StepBusy(cfg, s, a);
    forall t: nat | t in Apply(cfg, s, a).threads ensures !Stray(Apply(cfg, s, a).threads[t]) {
      StepNotStray(cfg, s, a, t);
    }
  }

  lemma {:induction false} BusyFrom(cfg: Config, s: State, run: seq<Action>)
    requires BusyInv(s) && IsRun(cfg, s, run)
    ensures BusyInv(After(cfg, s, run))
    decreases |run|
  {
    hide BusyInv, Apply, Enabled;
    if run != [] {
      StepKeepsBusy(cfg, s, run[0]);
      BusyFrom(cfg, Apply(cfg, s, run[0]), run[1..]);
    }
  }

  /** In every run: the busy counter is the number of Execs that have a worker, hence never negative and 0
      when none is left. */
  lemma BusyCountsHolders(cfg: Config, run: seq<Action>)
    requires IsRun(cfg, Init(cfg), run)
    ensures var s := After(cfg, Init(cfg), run); s.busy == |Holders(s.threads)|
  {
    assert Holders(Init(cfg).threads) == {};
    BusyFrom(cfg, Init(cfg), run);
  }
}
