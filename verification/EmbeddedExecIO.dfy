/** The embedded pool's Exec as it runs: the worker with its job counter and state, the channel as a
    queue of workers, and every branch of Exec. Each call is proved to be a run of the
    embedded pool machine, so what is proved about its runs holds of it. */
module EmbeddedExecIO {
  import opened Common
  import opened PoolMachine
  import E = EmbeddedPool

  datatype WorkerState = StateIdle | StateBusy | StateStopped

  /** The embedded worker; whether the engine succeeds is up to the caller. */
  class EmbeddedWorker {
    const id: nat
    const maxJobs: nat
    var state: WorkerState
    var jobs: nat

    constructor (id: nat, maxJobs: nat)
      ensures this.id == id && this.maxJobs == maxJobs && jobs == 0
    {
      this.id, this.maxJobs, state, jobs := id, maxJobs, StateIdle, 0;
    }

    /** A failed script is not counted. The worker ends idle, also when it was stopped meanwhile. */
    method Exec(engineOk: bool) returns (ok: bool)
      modifies this
      ensures ok == engineOk && jobs == old(jobs) + (if ok then 1 else 0) && state == StateIdle
    {
      state := StateBusy;
      ok := engineOk;
      if ok { jobs := jobs + 1; }
      state := StateIdle;
    }

    method Stop()
      modifies this`state
      ensures state == StateStopped
    {
      state := StateStopped;
    }

    method NeedsRecycle() returns (r: bool)
      ensures r == Common.NeedsRecycle(maxJobs, jobs)
    {
      r := maxJobs > 0 && jobs >= maxJobs;
    }
  }

  class EmbeddedExec {
    const cfg: Config
    const maxJobs: nat
    var available: seq<EmbeddedWorker>
    var busy: int
    var retired: seq<EmbeddedWorker>   // handed to replaceWorker
    ghost var s: E.EState

    constructor (cfg: Config, maxJobs: nat)
      ensures this.cfg == cfg && this.maxJobs == maxJobs && s == E.EState(Init(cfg), map[]) && Valid()
    {
      this.cfg, this.maxJobs := cfg, maxJobs;
      available, busy, retired, s := [], 0, [], E.EState(Init(cfg), map[]);
    }

    /** The objects show the machine's state. */
    ghost predicate Valid()
      reads this, available
    {
      && Inv(s.pool)
      && busy == s.pool.busy
      && |available| == |s.pool.available| <= cfg.maxWorkers
      && (forall i :: 0 <= i < |available| ==> Shows(available[i], i))
    }

    ghost predicate Shows(w: EmbeddedWorker, i: nat)
      requires i < |s.pool.available|
      reads this, w
    {
      w.id == s.pool.available[i] && w.maxJobs == maxJobs && w.id in s.jobs && s.jobs[w.id] == w.jobs
    }

    /** Pool.Exec with a worker allocated: it goes back behind the others or, at its limit, to
        replaceWorker. */
    method Serve(engineOk: bool) returns (ok: bool)
      requires available != [] && available[0].maxJobs == maxJobs
      modifies this`available, this`busy, this`retired, available[0]
      ensures ok == engineOk && busy == old(busy)
      ensures var (w, rest) := (old(available)[0], old(available)[1..]);
        && w.jobs == old(available[0].jobs) + (if engineOk then 1 else 0)
        && (if maxJobs > 0 && w.jobs >= maxJobs then available == rest && retired == old(retired) + [w]
            else available == rest + [w] && retired == old(retired))
    {
      var w := available[0];
      available := available[1..];
      busy := busy + 1;
      ok := w.Exec(engineOk);
      var recycle := w.NeedsRecycle();
      if recycle {
        retired := retired + [w];
      } else {
        available := available + [w];
      }
      busy := busy - 1;
    }

    /** Pool.Exec as thread t, with n for the goroutine of replaceWorker, and nobody else at work meanwhile:
        the allocation times out exactly when the channel is empty. */
    method Exec(t: nat, n: nat, engineOk: bool) returns (executed: bool, ok: bool, ghost trace: seq<E.EAction>)
      requires Valid() && t !in s.pool.threads && n !in s.pool.threads && t != n
      modifies this`available, this`busy, this`retired, this`s, available
      ensures Valid() && E.IsERun(cfg, maxJobs, old(s), trace) && s == E.EAfter(cfg, maxJobs, old(s), trace)
      ensures executed == (old(available) != []) && ok == (executed && engineOk) && busy == old(busy)
      ensures !executed ==> available == old(available) && retired == old(retired)
      ensures executed ==>
        var (w, rest) := (old(available)[0], old(available)[1..]);
        && w.jobs == old(available[0].jobs) + (if engineOk then 1 else 0)
        && (if maxJobs > 0 && w.jobs >= maxJobs then available == rest && retired == old(retired) + [w]
            else available == rest + [w] && retired == old(retired))
    {
      if available == [] {
        trace, s := NoWorker(cfg, maxJobs, s, t);
        return false, false, trace;
      }
      assert Shows(available[0], 0);
      assert forall i :: 0 < i < |s.pool.available| ==> s.pool.available[i] != s.pool.available[0];
      hide Inv, E.IsERun, E.EAfter, NeedsRecycle;
      assert forall i :: 0 < i < |available| ==> Shows(available[i], i) && available[i] != available[0];
      trace, s := OneExec(cfg, maxJobs, s, t, n, engineOk);
      ok := Serve(engineOk);
      executed := true;
    }
  }

  /** The machine's side of an Exec that finds no worker ... */
  lemma NoWorker(cfg: Config, maxJobs: nat, s: E.EState, t: nat) returns (trace: seq<E.EAction>, s': E.EState)
    requires Inv(s.pool) && t !in s.pool.threads && s.pool.available == []
    ensures E.IsERun(cfg, maxJobs, s, trace) && s' == E.EAfter(cfg, maxJobs, s, trace)
    ensures Inv(s'.pool) && s'.pool.available == s.pool.available && s'.pool.busy == s.pool.busy && s'.jobs == s.jobs
  {
    trace, s' := Step(cfg, maxJobs, s, [], s, E.EAction(ExecArrive(t), true));
    trace, s' := Step(cfg, maxJobs, s, trace, s', E.EAction(ExecGiveUp(t), true));
  }

  /** ... and of one that takes the first worker and gives it back or retires it. */
  lemma OneExec(cfg: Config, maxJobs: nat, s: E.EState, t: nat, n: nat, engineOk: bool)
      returns (trace: seq<E.EAction>, s': E.EState)
    requires Inv(s.pool) && t !in s.pool.threads && n !in s.pool.threads && t != n
    requires s.pool.available != [] && |s.pool.available| <= cfg.maxWorkers && s.pool.available[0] in s.jobs
    ensures E.IsERun(cfg, maxJobs, s, trace) && s' == E.EAfter(cfg, maxJobs, s, trace)
    ensures var (w, rest) := (s.pool.available[0], s.pool.available[1..]);
      var jobs := s.jobs[w] + if engineOk then 1 else 0;
      && Inv(s'.pool) && s'.pool.busy == s.pool.busy && s'.jobs == s.jobs[w := jobs]
      && s'.pool.available == if NeedsRecycle(maxJobs, jobs) then rest else rest + [w]
  {
    trace, s' := Taken(cfg, maxJobs, s, t);
    hide Inv, E.IsERun, E.EAfter;
    if NeedsRecycle(maxJobs, E.Counted(s', t, engineOk)) {
      trace, s' := Step(cfg, maxJobs, s, trace, s', E.EAction(ExecRetire(t, n), engineOk));
    } else {
      trace, s' := GivenBack(cfg, maxJobs, s, trace, s', t, engineOk);
    }
  }

  /** Below its limit the worker goes behind the others. */
  lemma GivenBack(cfg: Config, maxJobs: nat, start: E.EState, trace: seq<E.EAction>, s: E.EState, t: nat,
      engineOk: bool)
      returns (trace': seq<E.EAction>, s': E.EState)
    requires E.IsERun(cfg, maxJobs, start, trace) && E.EAfter(cfg, maxJobs, start, trace) == s && Inv(s.pool)
    requires t in s.pool.threads && s.pool.threads[t].Holding? && s.pool.threads[t].w in s.jobs
    requires |s.pool.available| < cfg.maxWorkers && !NeedsRecycle(maxJobs, E.Counted(s, t, engineOk))
    ensures E.IsERun(cfg, maxJobs, start, trace') && E.EAfter(cfg, maxJobs, start, trace') == s' && Inv(s'.pool)
    ensures var w := s.pool.threads[t].w;
      && s'.pool.available == s.pool.available + [w] && s'.pool.busy == s.pool.busy - 1
      && s'.jobs == s.jobs[w := E.Counted(s, t, engineOk)]
  {
    hide Inv, E.IsERun, E.EAfter;
    trace', s' := Step(cfg, maxJobs, start, trace, s, E.EAction(ExecKeep(t), engineOk));
    trace', s' := Step(cfg, maxJobs, start, trace', s', E.EAction(Send(t), true));
  }

  lemma Taken(cfg: Config, maxJobs: nat, s: E.EState, t: nat) returns (trace: seq<E.EAction>, s': E.EState)
    requires Inv(s.pool) && t !in s.pool.threads && s.pool.available != []
    ensures E.IsERun(cfg, maxJobs, s, trace) && s' == E.EAfter(cfg, maxJobs, s, trace)
    ensures Inv(s'.pool) && s'.pool.available == s.pool.available[1..] && s'.pool.busy == s.pool.busy + 1
    ensures s'.jobs == s.jobs && s'.pool.threads == s.pool.threads[t := Holding(s.pool.available[0])]
  {
    hide Inv;
    trace, s' := Step(cfg, maxJobs, s, [], s, E.EAction(ExecArrive(t), true));
    trace, s' := Step(cfg, maxJobs, s, trace, s', E.EAction(ExecReceive(t), true));
  }

  /** One more action behind those that led here. */
  lemma Step(cfg: Config, maxJobs: nat, start: E.EState, trace: seq<E.EAction>, s: E.EState, e: E.EAction)
      returns (trace': seq<E.EAction>, s': E.EState)
    requires E.IsERun(cfg, maxJobs, start, trace) && E.EAfter(cfg, maxJobs, start, trace) == s
    requires Inv(s.pool) && E.EEnabled(cfg, maxJobs, s, e)
    ensures trace' == trace + [e] && s' == E.EApply(cfg, maxJobs, s, e) && Inv(s'.pool)
    ensures E.IsERun(cfg, maxJobs, start, trace') && E.EAfter(cfg, maxJobs, start, trace') == s'
  {
    hide *;
    ExtendRun(cfg, maxJobs, start, trace, e);
    StepPool(cfg, maxJobs, s, e);
    trace', s' := trace + [e], E.EApply(cfg, maxJobs, s, e);
  }

  lemma StepPool(cfg: Config, maxJobs: nat, s: E.EState, e: E.EAction)
    requires Inv(s.pool) && E.EEnabled(cfg, maxJobs, s, e)
    ensures Inv(E.EApply(cfg, maxJobs, s, e).pool)
  {
    StepKeepsInv(cfg, s.pool, e.act);
  }

  lemma {:induction false} ExtendRun(cfg: Config, maxJobs: nat, s: E.EState, run: seq<E.EAction>, e: E.EAction)
    requires E.IsERun(cfg, maxJobs, s, run) && E.EEnabled(cfg, maxJobs, E.EAfter(cfg, maxJobs, s, run), e)
    ensures E.IsERun(cfg, maxJobs, s, run + [e])
    ensures E.EAfter(cfg, maxJobs, s, run + [e]) == E.EApply(cfg, maxJobs, E.EAfter(cfg, maxJobs, s, run), e)
    decreases |run|
  {
    hide E.EEnabled, E.EApply;
    if run == [] {
      assert run + [e] == [e];
      assert E.IsERun(cfg, maxJobs, E.EApply(cfg, maxJobs, s, e), []);
    } else {
      assert (run + [e])[1..] == run[1..] + [e];
      ExtendRun(cfg, maxJobs, E.EApply(cfg, maxJobs, s, run[0]), run[1..], e);
    }
  }
}
