/** The embedded pool: Exec runs the script in process, counts the jobs that succeeded and retires the
    worker when it has reached MaxJobs. Whether the engine succeeds is an oracle. */
module EmbeddedPool {
  import opened Common
  import opened PoolMachine

  datatype EState = EState(pool: State, jobs: map<nat, nat>)

  /** A pool action; `ok` says, for the end of an Exec, whether the engine's Execute succeeded. */
  datatype EAction = EAction(act: Action, ok: bool)

  /** The job count of the worker held by t once its Exec is over. */
  function Counted(s: EState, t: nat, ok: bool): nat
    requires t in s.pool.threads && s.pool.threads[t].Holding? && s.pool.threads[t].w in s.jobs
  {
    s.jobs[s.pool.threads[t].w] + if ok then 1 else 0
  }

  predicate EEnabled(cfg: Config, maxJobs: nat, s: EState, e: EAction) {
    && Enabled(cfg, s.pool, e.act)
    && match e.act
       case ExecKeep(t) => s.pool.threads[t].w in s.jobs && !NeedsRecycle(maxJobs, Counted(s, t, e.ok))
       case ExecRetire(t, _) => s.pool.threads[t].w in s.jobs && NeedsRecycle(maxJobs, Counted(s, t, e.ok))
       case HealthReplace(_, _) => false
       case _ => true
  }

  function EApply(cfg: Config, maxJobs: nat, s: EState, e: EAction): EState
    requires EEnabled(cfg, maxJobs, s, e)
  {
    EState(Apply(cfg, s.pool, e.act),
      match e.act
      case SpawnOk(t) => s.jobs[s.pool.threads[t].id := 0]
      case ExecKeep(t) => s.jobs[s.pool.threads[t].w := Counted(s, t, e.ok)]
      case ExecRetire(t, _) => s.jobs[s.pool.threads[t].w := Counted(s, t, e.ok)]
      case _ => s.jobs)
  }

  ghost predicate IsERun(cfg: Config, maxJobs: nat, s: EState, run: seq<EAction>)
    decreases |run|
  {
    run == [] || (EEnabled(cfg, maxJobs, s, run[0])
                  && IsERun(cfg, maxJobs, EApply(cfg, maxJobs, s, run[0]), run[1..]))
  }

  ghost function EAfter(cfg: Config, maxJobs: nat, s: EState, run: seq<EAction>): EState
    requires IsERun(cfg, maxJobs, s, run)
    decreases |run|
  {
    if run == [] then s else EAfter(cfg, maxJobs, EApply(cfg, maxJobs, s, run[0]), run[1..])
  }

  function Acts(run: seq<EAction>): (acts: seq<Action>)
    ensures |acts| == |run| && forall i :: 0 <= i < |run| ==> acts[i] == run[i].act
  {
    if run == [] then [] else [run[0].act] + Acts(run[1..])
  }

  /** The embedded pool only does what the pool machine does, so every property of its runs carries over. */
  lemma {:induction false} RefinesPoolMachine(cfg: Config, maxJobs: nat, s: EState, run: seq<EAction>)
    requires IsERun(cfg, maxJobs, s, run)
    ensures IsRun(cfg, s.pool, Acts(run)) && After(cfg, s.pool, Acts(run)) == EAfter(cfg, maxJobs, s, run).pool
    decreases |run|
  {
    if run != [] {
      RefinesPoolMachine(cfg, maxJobs, EApply(cfg, maxJobs, s, run[0]), run[1..]);
      assert Acts(run)[1..] == Acts(run[1..]);
    }
  }

  /** Held by an Exec or on the way to the channel. */
  predicate Handles(s: State, t: nat, w: nat) {
    t in s.threads && ((s.threads[t].Holding? && s.threads[t].w == w) || (s.threads[t].Sending? && s.threads[t].w == w))
  }

  predicate Under(maxJobs: nat, jobs: map<nat, nat>, w: nat) {
    w in jobs && (maxJobs > 0 ==> jobs[w] < maxJobs)
  }

  ghost predicate Capped(maxJobs: nat, s: EState) {
    && Inv(s.pool)
    && (forall w: nat :: w in s.pool.available ==> Under(maxJobs, s.jobs, w))
    && (forall t: nat, w: nat :: Handles(s.pool, t, w) ==> Under(maxJobs, s.jobs, w))
    && (forall w: nat :: w in s.jobs && maxJobs > 0 ==> s.jobs[w] <= maxJobs)
  }

  /** Which workers a thread handles after a step: those it did, one it started, one from the channel. */
  lemma StepHandles(cfg: Config, s: State, a: Action, t: nat, w: nat)
    requires Enabled(cfg, s, a) && Handles(Apply(cfg, s, a), t, w)
    ensures || Handles(s, t, w)
            || (a.SpawnOk? && t == a.t && w == s.threads[a.t].id)
            || (a.ExecReceive? && t == a.t && w == s.available[0])
    ensures a.ExecRetire? ==> t != a.t
  {
  }

  lemma StepKeepsCapped(cfg: Config, maxJobs: nat, s: EState, e: EAction)
    requires Capped(maxJobs, s) && EEnabled(cfg, maxJobs, s, e)
    ensures Capped(maxJobs, EApply(cfg, maxJobs, s, e))
  {
    var s' := EApply(cfg, maxJobs, s, e);
    var a := e.act;
    StepKeepsInv(cfg, s.pool, a);
    StepChannel(cfg, s.pool, a);
    NoDupEnds(s.pool.available, 0);
    if a.ExecKeep? || a.ExecRetire? || a.Send? {
      assert Handles(s.pool, a.t, s.pool.threads[a.t].w) && Has(s.pool, a.t, s.pool.threads[a.t].w);
    }
    if a.SpawnOk? { assert Has(s.pool, a.t, s.pool.threads[a.t].id); }
    forall t: nat, w: nat | Handles(s'.pool, t, w) ensures Under(maxJobs, s'.jobs, w) {
      StepHandles(cfg, s.pool, a, t, w);
      if Handles(s.pool, t, w) { assert Has(s.pool, t, w); }
    }
  }

  lemma {:induction false} RunKeepsCapped(cfg: Config, maxJobs: nat, s: EState, run: seq<EAction>)
    requires Capped(maxJobs, s) && IsERun(cfg, maxJobs, s, run)
    ensures Capped(maxJobs, EAfter(cfg, maxJobs, s, run))
    decreases |run|
  {
    if run != [] {
      StepKeepsCapped(cfg, maxJobs, s, run[0]);
      RunKeepsCapped(cfg, maxJobs, EApply(cfg, maxJobs, s, run[0]), run[1..]);
    }
  }

  /** In every run, also under Reload: no worker ever counts more than MaxJobs jobs, and each one that
      waits in the channel, is held or is being handed over may still do another. */
  lemma JobCap(cfg: Config, maxJobs: nat, run: seq<EAction>)
    requires IsERun(cfg, maxJobs, EState(Init(cfg), map[]), run)
    ensures var s := EAfter(cfg, maxJobs, EState(Init(cfg), map[]), run);
      && (forall w: nat :: w in s.jobs && maxJobs > 0 ==> s.jobs[w] <= maxJobs)
      && (forall w: nat :: w in s.pool.available ==> Under(maxJobs, s.jobs, w))
      && (forall t: nat, w: nat :: Handles(s.pool, t, w) ==> Under(maxJobs, s.jobs, w))
  {
    InitInv(cfg);
    RunKeepsCapped(cfg, maxJobs, EState(Init(cfg), map[]), run);
  }
}
