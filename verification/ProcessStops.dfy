/** No worker leaves the list before it was stopped, whoever takes it out. */
module ProcessStops {
  import opened Common
  import opened PoolMachine
  import opened Wire
  import opened ProcessPool
  import opened ProcessPoolInv

  /** The thread is about to take w out of the list. */
  predicate Removes(th: Thread, w: nat) {
    || (th.ReplaceRemove? && th.w == w)
    || (th.DownRemove? && th.w == w)
    || (th.DrainRemove? && th.next < |th.snapshot| && th.snapshot[th.next] == w)
  }

  predicate RemovesIn(s: State, t: nat, w: nat) {
    t in s.threads && Removes(s.threads[t], w)
  }

  ghost predicate StopsInv(s: XState) {
    && (forall w: nat :: w in s.links ==> w <= s.pool.nextID)
    && (forall t: nat, w: nat :: RemovesIn(s.pool, t, w) ==> StopDone(s, w))
  }

  /** The worker whose Stop has returned with this step. */
  predicate StopsNow(s: State, a: Action, t: nat, w: nat) {
    && t in s.threads
    && ((a == StopOld(t) && s.threads[t].ReplaceStop? && s.threads[t].w == w)
        || (a == StopIdle(t) && s.threads[t].DownStop? && s.threads[t].w == w)
        || (a == DrainStop(t) && s.threads[t].Draining? && s.threads[t].next < |s.threads[t].snapshot|
            && s.threads[t].snapshot[s.threads[t].next] == w))
  }

  lemma StepRemoves(cfg: Config, s: State, a: Action, t: nat, w: nat)
    requires Enabled(cfg, s, a) && RemovesIn(Apply(cfg, s, a), t, w)
    ensures RemovesIn(s, t, w) || StopsNow(s, a, t, w)
  {
  }

  /** The pool's part of a joint step. */
  lemma StepPool(cfg: Config, maxJobs: nat, s: XState, x: XAction, t: nat, w: nat)
    requires XEnabled(cfg, maxJobs, s, x) && RemovesIn(XApply(cfg, maxJobs, s, x).pool, t, w)
    ensures RemovesIn(s.pool, t, w) || StopDone(s, w)
  {
    hide Apply, Enabled, Happen, CanHappen, StopDone;
    match x
    case Pool(a) => StepRemoves(cfg, s.pool, a, t, w);
    case Receive(u, _) => StepRemoves(cfg, s.pool, ExecReceive(u), t, w);
    case Timeout(u, n) => StepRemoves(cfg, s.pool, ExecRetire(u, n), t, w);
    case Collect(u, n) => if Retires(maxJobs, s, u) { StepRemoves(cfg, s.pool, ExecRetire(u, n), t, w); }
    case ReadyFrame(u, n) =>
      StepRemoves(cfg, s.pool, if s.links[s.calls[u].w].stdout[0].kind == TYPE_WORKER_READY then ExecKeep(u)
                               else ExecRetire(u, n), t, w);
    case ReadyFail(u, n) => StepRemoves(cfg, s.pool, ExecRetire(u, n), t, w);
    case _ =>
  }

  /** What was stopped stays stopped: no step starts a worker under an id that was used. */
  lemma StepStopped(cfg: Config, maxJobs: nat, s: XState, x: XAction, w: nat)
    requires XEnabled(cfg, maxJobs, s, x) && StopDone(s, w) && w <= s.pool.nextID
    ensures StopDone(XApply(cfg, maxJobs, s, x), w)
  {
    hide Apply, Enabled, NeedsRecycle;
  }

  lemma StepLinks(cfg: Config, maxJobs: nat, s: XState, x: XAction, w: nat)
    requires XEnabled(cfg, maxJobs, s, x) && w in XApply(cfg, maxJobs, s, x).links
    ensures w in s.links || w == s.pool.nextID + 1 == XApply(cfg, maxJobs, s, x).pool.nextID
    ensures XApply(cfg, maxJobs, s, x).pool.nextID >= s.pool.nextID
  {
    hide Apply, Enabled, NeedsRecycle, Happen, CanHappen;
    match x
    case Pool(a) => StepNextID(cfg, s.pool, a);
    case Receive(u, _) => StepNextID(cfg, s.pool, ExecReceive(u));
    case Timeout(u, n) => StepNextID(cfg, s.pool, ExecRetire(u, n));
    case Collect(u, n) => if Retires(maxJobs, s, u) { StepNextID(cfg, s.pool, ExecRetire(u, n)); }
    case ReadyFrame(u, n) =>
      StepNextID(cfg, s.pool, if s.links[s.calls[u].w].stdout[0].kind == TYPE_WORKER_READY then ExecKeep(u)
                              else ExecRetire(u, n));
    case ReadyFail(u, n) => StepNextID(cfg, s.pool, ExecRetire(u, n));
    case _ =>
  }

  lemma StepKeepsStops(cfg: Config, maxJobs: nat, s: XState, x: XAction)
    requires StopsInv(s) && XEnabled(cfg, maxJobs, s, x)
    ensures StopsInv(XApply(cfg, maxJobs, s, x))
  {
    hide XApply, XEnabled, Removes;
    var s' := XApply(cfg, maxJobs, s, x);
    forall w: nat | w in s'.links ensures w <= s'.pool.nextID { StepLinks(cfg, maxJobs, s, x, w); }
    forall t: nat, w: nat | RemovesIn(s'.pool, t, w) ensures StopDone(s', w) {
      StepPool(cfg, maxJobs, s, x, t, w);
      StepStopped(cfg, maxJobs, s, x, w);
    }
  }

  lemma {:induction false} StopsFrom(cfg: Config, maxJobs: nat, s: XState, run: seq<XAction>)
    requires StopsInv(s) && IsXRun(cfg, maxJobs, s, run)
    ensures StopsInv(XAfter(cfg, maxJobs, s, run))
    decreases |run|
  {
    hide StopsInv, XApply, XEnabled;
    if run != [] {
      StepKeepsStops(cfg, maxJobs, s, run[0]);
      StopsFrom(cfg, maxJobs, XApply(cfg, maxJobs, s, run[0]), run[1..]);
    }
  }

  /** In every run: a worker that replaceWorker, a scale-down or a Reload is about to take out of the list has
      been stopped, and its input is closed. */
  lemma RemovedWorkersAreStopped(cfg: Config, maxJobs: nat, run: seq<XAction>, t: nat, w: nat)
    requires IsXRun(cfg, maxJobs, XInit(cfg), run)
    requires RemovesIn(XAfter(cfg, maxJobs, XInit(cfg), run).pool, t, w)
    ensures var s := XAfter(cfg, maxJobs, XInit(cfg), run);
      w in s.links && s.links[w].stopped && !s.links[w].open
  {
    StopsFrom(cfg, maxJobs, XInit(cfg), run);
    assert StopDone(XAfter(cfg, maxJobs, XInit(cfg), run), w);
  }
}
