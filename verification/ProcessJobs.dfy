/** The job cap of the process pool, for every frame type: what is counted is who holds a worker, not what
    is said to it. */
module ProcessJobs {
  import opened Common
  import opened PoolMachine
  import opened Wire
  import opened ProcessPool
  import opened ProcessPoolInv

  /** Another job may still be counted for w. */
  predicate Under(maxJobs: nat, links: map<nat, Link>, w: nat) {
    w in links && !NeedsRecycle(maxJobs, links[w].jobs)
  }

  /** A worker that is starting has no jobs, one on its way to the channel may do one more, and a thread
      that holds one has an unfinished call for it. */
  ghost predicate ThreadFits(maxJobs: nat, s: XState, u: nat)
    requires u in s.pool.threads
  {
    match s.pool.threads[u]
    case Spawning(id, _) => id in s.links && s.links[id].jobs == 0
    case Sending(w, _) => Under(maxJobs, s.links, w)
    case Holding(w) => u in s.calls && s.calls[u].w == w && !s.calls[u].outer.Gone?
    case Allocating => u !in s.calls
    case _ => true
  }

  /** A call whose runner has not counted its job, or that waits for READY, deals with a worker under the
      limit. */
  ghost predicate CallFits(maxJobs: nat, s: XState, t: nat)
    requires t in s.calls
  {
    var c := s.calls[t];
    && c.w in s.links && CallPlace(s, t)
    && (c.runner.ToWrite? || c.runner.ToRead? || c.outer.ReadingReady? ==> Under(maxJobs, s.links, c.w))
    && (c.outer.ReadingReady? ==> c.runner.Got?)
  }

  /** No id passes the counter, no job count the limit, and whoever waits in the channel may do one more. */
  ghost predicate CapOutside(maxJobs: nat, s: XState) {
    && (forall w: nat :: w in s.pool.available ==> Under(maxJobs, s.links, w))
    && (forall w: nat :: w in s.links ==> w <= s.pool.nextID && (maxJobs > 0 ==> s.links[w].jobs <= maxJobs))
  }

  ghost predicate CapInv(maxJobs: nat, s: XState) {
    && Inv(s.pool) && Apart(s) && CapOutside(maxJobs, s)
    && (forall u: nat :: u in s.pool.threads ==> ThreadFits(maxJobs, s, u))
    && (forall t: nat :: t in s.calls ==> CallFits(maxJobs, s, t))
  }

  /** A worker with a busy call is in no other hand. */
  lemma SoleHand(maxJobs: nat, s: XState, t: nat, u: nat)
    requires CapInv(maxJobs, s) && Busy(s, t)
    ensures s.calls[t].w !in s.pool.available
    ensures Occupies(s.pool, u, s.calls[t].w) ==> u == t && s.pool.threads[t] == Holding(s.calls[t].w)
  {
    assert CallFits(maxJobs, s, t);
    var w := s.calls[t].w;
    if !s.calls[t].outer.Gone? {
      assert Has(s.pool, t, w);
      if Occupies(s.pool, u, w) { assert Has(s.pool, u, w); }
    }
  }

  // --- steps that leave the pool alone ---

  /** Worker events and a runner's steps: the link of one worker moves, its job count only where a busy call
      that was under the limit counts its one job. */
  ghost predicate LinkMoves(s: XState, s': XState, w: nat, t: nat) {
    && s'.pool == s.pool && w in s.links && s'.links.Keys == s.links.Keys
    && (forall v: nat :: v in s.links && v != w ==> s'.links[v] == s.links[v])
    && s'.calls.Keys == s.calls.Keys
    && (forall u: nat :: u in s.calls && u != t ==> s'.calls[u] == s.calls[u])
    && (t in s.calls ==> s'.calls[t].w == s.calls[t].w && s'.calls[t].outer == s.calls[t].outer)
  }

  /** A step in which nothing but the link and the runner of t moved, and nothing was counted. */
  ghost predicate NothingCounted(s: XState, s': XState, w: nat, t: nat) {
    && LinkMoves(s, s', w, t) && s'.links[w].jobs == s.links[w].jobs
    && (t in s.calls ==> s'.calls[t] == s.calls[t] || (s.calls[t].runner.ToWrite? && s'.calls[t].runner.ToRead?))
  }

  lemma QuietStepFits(maxJobs: nat, s: XState, s': XState, w: nat, t: nat, u: nat)
    requires CapInv(maxJobs, s) && NothingCounted(s, s', w, t)
    ensures Busy(s', u) == Busy(s, u)
    ensures u in s'.calls ==> CallFits(maxJobs, s', u)
    ensures u in s'.pool.threads ==> ThreadFits(maxJobs, s', u)
  {
    hide Inv, NeedsRecycle, Apart;
    assert u in s.calls ==> CallFits(maxJobs, s, u);
    assert u in s.pool.threads ==> ThreadFits(maxJobs, s, u);
  }

  lemma SameJobsKeepCap(maxJobs: nat, s: XState, s': XState, w: nat, t: nat)
    requires CapInv(maxJobs, s) && NothingCounted(s, s', w, t)
    ensures CapInv(maxJobs, s')
  {
    hide Inv, NeedsRecycle, CallFits, ThreadFits;
    forall u: nat
      ensures Busy(s', u) == Busy(s, u)
      ensures u in s'.calls ==> CallFits(maxJobs, s', u)
      ensures u in s'.pool.threads ==> ThreadFits(maxJobs, s', u)
    {
      QuietStepFits(maxJobs, s, s', w, t, u);
    }
  }

  /** The runner of t ends: its job is counted. */
  ghost predicate Counts(s: XState, s': XState, t: nat) {
    && t in s.calls && LinkMoves(s, s', s.calls[t].w, t)
    && (s.calls[t].runner.ToWrite? || s.calls[t].runner.ToRead?)
    && s'.links[s.calls[t].w].jobs == s.links[s.calls[t].w].jobs + 1
    && (s'.calls[t].runner.Got? || s'.calls[t].runner.Failed?)
  }

  lemma CountFits(maxJobs: nat, s: XState, s': XState, t: nat, u: nat)
    requires CapInv(maxJobs, s) && Counts(s, s', t)
    ensures Busy(s', u) ==> Busy(s, u)
    ensures u in s'.calls ==> CallFits(maxJobs, s', u)
    ensures u in s'.pool.threads ==> ThreadFits(maxJobs, s', u)
  {
    SoleHand(maxJobs, s, t, u);
    hide Inv;
    assert Busy(s, t) && CallFits(maxJobs, s, t);
    assert u in s.calls ==> CallFits(maxJobs, s, u);
    assert u in s.pool.threads ==> ThreadFits(maxJobs, s, u);
  }

  lemma CountKeepsCap(maxJobs: nat, s: XState, s': XState, t: nat)
    requires CapInv(maxJobs, s) && Counts(s, s', t)
    ensures CapInv(maxJobs, s')
  {
    SoleHand(maxJobs, s, t, t);
    assert CallFits(maxJobs, s, t);
    hide Inv, CallFits, ThreadFits, Busy;
    forall u: nat
      ensures Busy(s', u) ==> Busy(s, u)
      ensures u in s'.calls ==> CallFits(maxJobs, s', u)
      ensures u in s'.pool.threads ==> ThreadFits(maxJobs, s', u)
    {
      CountFits(maxJobs, s, s', t, u);
    }
  }

  // --- pool actions ---

  lemma RetiredStaysOut(cfg: Config, maxJobs: nat, s: XState, a: Action, t: nat)
    requires CapInv(maxJobs, s) && Enabled(cfg, s.pool, a)
    requires Busy(s, t) && s.calls[t].outer.Gone?
    ensures var p := Apply(cfg, s.pool, a);
      s.calls[t].w !in p.available && forall u: nat :: !Occupies(p, u, s.calls[t].w)
  {
    hide Apply, Inv;
    assert CallFits(maxJobs, s, t) && CallPlace(s, t);
    var w := s.calls[t].w;
    StepChannel(cfg, s.pool, a);
    if a.Send? { assert Occupies(s.pool, a.t, s.pool.threads[a.t].w); }
    forall u: nat ensures !Occupies(Apply(cfg, s.pool, a), u, w) {
      if Occupies(Apply(cfg, s.pool, a), u, w) { StepOccupies(cfg, s.pool, a, u, w); }
    }
  }

  lemma PoolKeepsFit(cfg: Config, maxJobs: nat, s: XState, a: Action, u: nat)
    requires CapInv(maxJobs, s) && Enabled(cfg, s.pool, a) && PoolGuard(s, a)
    requires u in Apply(cfg, s.pool, a).threads
    ensures ThreadFits(maxJobs, PoolStep(cfg, s, a), u)
  {
    hide Apply, Enabled, Apart, CallFits;
    StepRole(cfg, s.pool, a, u);
    if u in s.pool.threads { assert ThreadFits(maxJobs, s, u); }
    if a.SpawnOk? { assert ThreadFits(maxJobs, s, a.t); }
    if a.BeginSpawn? { assert u in s.pool.threads ==> !Knows(s.pool, u, s.pool.nextID + 1); }
  }

  lemma PoolKeepsCallFit(cfg: Config, maxJobs: nat, s: XState, a: Action, t: nat)
    requires CapInv(maxJobs, s) && Enabled(cfg, s.pool, a) && PoolGuard(s, a) && t in s.calls
    ensures CallFits(maxJobs, PoolStep(cfg, s, a), t)
  {
    hide Apply, Inv, Apart, CapOutside, ThreadFits, NeedsRecycle;
    assert CallFits(maxJobs, s, t);
    StepNextID(cfg, s.pool, a);
    if Busy(s, t) {
      if s.calls[t].outer.Gone? { RetiredStaysOut(cfg, maxJobs, s, a, t); } else { StepHolding(cfg, s.pool, a, t); }
    }
    assert CallPlace(PoolStep(cfg, s, a), t);
  }

  lemma PoolKeepsCap(cfg: Config, maxJobs: nat, s: XState, a: Action)
    requires CapInv(maxJobs, s) && Enabled(cfg, s.pool, a) && PoolGuard(s, a)
    ensures CapInv(maxJobs, PoolStep(cfg, s, a))
  {
    hide Apply, CallFits;
    var s' := PoolStep(cfg, s, a);
    NoDupEnds(s.pool.available, 0);
    if a.Send? || a.SpawnOk? { assert ThreadFits(maxJobs, s, a.t); }
    hide Inv;
    StepKeepsInv(cfg, s.pool, a);
    StepNextID(cfg, s.pool, a);
    StepChannel(cfg, s.pool, a);
    forall u: nat | u in s'.pool.threads ensures ThreadFits(maxJobs, s', u) { PoolKeepsFit(cfg, maxJobs, s, a, u); }
    forall t: nat | t in s'.calls ensures CallFits(maxJobs, s', t) { PoolKeepsCallFit(cfg, maxJobs, s, a, t); }
    assert forall t: nat :: Busy(s', t) <==> Busy(s, t);
  }

  lemma ReceiveFits(cfg: Config, maxJobs: nat, s: XState, t: nat, req: Frame, u: nat)
    requires CapInv(maxJobs, s) && XEnabled(cfg, maxJobs, s, Receive(t, req))
    ensures var s' := XApply(cfg, maxJobs, s, Receive(t, req));
      (u in s'.pool.threads ==> ThreadFits(maxJobs, s', u)) && (u in s'.calls ==> CallFits(maxJobs, s', u))
  {
    hide Apply, NeedsRecycle;
    var a := ExecReceive(t);
    assert ThreadFits(maxJobs, s, t);
    AvailableIsKnown(s.pool, s.pool.available[0]);
    StepNextID(cfg, s.pool, a);
    ReceiveHolds(cfg, s.pool, t);
    hide Inv, Apart;
    if u in Apply(cfg, s.pool, a).threads { StepRole(cfg, s.pool, a, u); }
    if u in s.pool.threads { assert ThreadFits(maxJobs, s, u); }
    if u != t && u in s.calls {
      assert CallFits(maxJobs, s, u);
      if Busy(s, u) {
        if s.calls[u].outer.Gone? { RetiredStaysOut(cfg, maxJobs, s, a, u); } else { StepHolding(cfg, s.pool, a, u); }
      }
    }
  }

  lemma ReceiveKeepsCap(cfg: Config, maxJobs: nat, s: XState, t: nat, req: Frame)
    requires CapInv(maxJobs, s) && XEnabled(cfg, maxJobs, s, Receive(t, req))
    ensures CapInv(maxJobs, XApply(cfg, maxJobs, s, Receive(t, req)))
  {
    assert ThreadFits(maxJobs, s, t) && t !in s.calls;
    hide Apply, Inv, ThreadFits, CallFits, NeedsRecycle;
    var a := ExecReceive(t);
    var s' := XApply(cfg, maxJobs, s, Receive(t, req));
    StepKeepsInv(cfg, s.pool, a);
    StepNextID(cfg, s.pool, a);
    StepChannel(cfg, s.pool, a);
    forall u: nat
      ensures u in s'.pool.threads ==> ThreadFits(maxJobs, s', u)
      ensures u in s'.calls ==> CallFits(maxJobs, s', u)
    {
      ReceiveFits(cfg, maxJobs, s, t, req, u);
    }
    forall u: nat | Busy(s', u) && u != t ensures s.calls[u].w != s.pool.available[0] { SoleHand(maxJobs, s, u, u); }
    assert forall u: nat :: Busy(s', u) ==> u == t || Busy(s, u);
  }

  lemma AvailableIsKnown(s: State, w: nat)
    requires Inv(s) && w in s.available
    ensures w <= s.nextID
  {
  }

  // --- an Exec gives its worker up ---

  lemma LeaveKeepsThreadFit(cfg: Config, maxJobs: nat, s: XState, t: nat, a: Action, l: Link, u: nat)
    requires CapInv(maxJobs, s) && IsCall(s, t) && !s.calls[t].outer.Gone? && Leaves(a, t) && Enabled(cfg, s.pool, a)
    requires l.jobs == s.links[s.calls[t].w].jobs && (a.ExecKeep? ==> s.calls[t].outer.ReadingReady?)
    requires u in Apply(cfg, s.pool, a).threads
    ensures ThreadFits(maxJobs, Left(cfg, s, t, a, l), u)
  {
    LeftMoves(cfg, s, t, a, l);
    assert CallFits(maxJobs, s, t);
    SoleHand(maxJobs, s, t, u);
    if u in s.pool.threads { assert ThreadFits(maxJobs, s, u); }
    hide Apply, Enabled, CapInv, NeedsRecycle, CallFits, Left;
    if u == t {
      if a.ExecRetire? { RetireEndsThread(cfg, s.pool, a); } else { KeepSends(cfg, s.pool, a); }
    } else {
      StepRole(cfg, s.pool, a, u);
    }
  }

  /** What Left changes. */
  lemma LeftMoves(cfg: Config, s: XState, t: nat, a: Action, l: Link)
    requires IsCall(s, t) && !s.calls[t].outer.Gone? && Enabled(cfg, s.pool, a)
    ensures var s' := Left(cfg, s, t, a, l);
      && s'.pool == Apply(cfg, s.pool, a) && s'.links == s.links[s.calls[t].w := l]
      && s'.calls == s.calls[t := s.calls[t].(outer := Gone)]
      && forall u: nat :: Busy(s', u) ==> Busy(s, u)
  {
  }

  lemma LeaveKeepsOutside(cfg: Config, maxJobs: nat, s: XState, t: nat, a: Action, l: Link)
    requires CapInv(maxJobs, s) && IsCall(s, t) && !s.calls[t].outer.Gone? && Leaves(a, t) && Enabled(cfg, s.pool, a)
    requires l.jobs == s.links[s.calls[t].w].jobs
    ensures CapOutside(maxJobs, Left(cfg, s, t, a, l))
  {
    LeftMoves(cfg, s, t, a, l);
    hide Apply, Enabled, Inv, ThreadFits, CallFits, NeedsRecycle, Left, Apart;
    StepNextID(cfg, s.pool, a);
    StepChannel(cfg, s.pool, a);
  }

  lemma LeaveKeepsCap(cfg: Config, maxJobs: nat, s: XState, t: nat, a: Action, l: Link)
    requires CapInv(maxJobs, s) && IsCall(s, t) && !s.calls[t].outer.Gone? && Leaves(a, t) && Enabled(cfg, s.pool, a)
    requires l.jobs == s.links[s.calls[t].w].jobs && (a.ExecKeep? ==> s.calls[t].outer.ReadingReady?)
    ensures CapInv(maxJobs, Left(cfg, s, t, a, l))
  {
    var s' := Left(cfg, s, t, a, l);
    LeftMoves(cfg, s, t, a, l);
    StepKeepsInv(cfg, s.pool, a);
    LeaveKeepsOutside(cfg, maxJobs, s, t, a, l);
    hide Apply, Enabled, Inv, CapOutside, ThreadFits, CallFits, NeedsRecycle, Left, Busy, Leaves;
    forall u: nat | u in s'.pool.threads ensures ThreadFits(maxJobs, s', u) {
      LeaveKeepsThreadFit(cfg, maxJobs, s, t, a, l, u);
    }
    forall u: nat | u in s'.calls ensures CallFits(maxJobs, s', u) { LeaveKeepsFit(cfg, maxJobs, s, t, a, l, u); }
  }

  lemma LeaveKeepsFit(cfg: Config, maxJobs: nat, s: XState, t: nat, a: Action, l: Link, u: nat)
    requires CapInv(maxJobs, s) && IsCall(s, t) && !s.calls[t].outer.Gone? && Leaves(a, t) && Enabled(cfg, s.pool, a)
    requires l.jobs == s.links[s.calls[t].w].jobs && (a.ExecKeep? ==> s.calls[t].outer.ReadingReady?)
    requires u in s.calls
    ensures CallFits(maxJobs, Left(cfg, s, t, a, l), u)
  {
    hide Apply, Inv;
    var s' := Left(cfg, s, t, a, l);
    var w := s.calls[t].w;
    assert CallFits(maxJobs, s, u) && CallFits(maxJobs, s, t) && Busy(s, t);
    StepNextID(cfg, s.pool, a);
    StepChannel(cfg, s.pool, a);
    if u != t && Busy(s, u) {
      assert s.calls[u].w != w;
      if s.calls[u].outer.Gone? { RetiredStaysOut(cfg, maxJobs, s, a, u); } else { StepHolding(cfg, s.pool, a, u); }
    } else if u == t && a.ExecRetire? {
      RetireEndsThread(cfg, s.pool, a);
      forall v: nat ensures !Occupies(s'.pool, v, w) {
        if Occupies(s'.pool, v, w) { StepOccupies(cfg, s.pool, a, v, w); SoleHand(maxJobs, s, t, v); }
      }
      SoleHand(maxJobs, s, t, t);
    }
    assert CallPlace(s', u);
  }

  lemma RetireKeepsCap(cfg: Config, maxJobs: nat, s: XState, t: nat, n: nat)
    requires CapInv(maxJobs, s) && IsCall(s, t) && !s.calls[t].outer.Gone? && Enabled(cfg, s.pool, ExecRetire(t, n))
    ensures CapInv(maxJobs, Retire(cfg, s, t, n))
  {
    hide Apply, Enabled, CapInv;
    var l := s.links[s.calls[t].w];
    LeaveKeepsCap(cfg, maxJobs, s, t, ExecRetire(t, n), l);
    assert s.links[s.calls[t].w := l] == s.links;
  }

  lemma ReplyKeepsCap(maxJobs: nat, s: XState, t: nat, f: Frame)
    requires CapInv(maxJobs, s)
    ensures CapInv(maxJobs, Reply(s, t, f))
  {
    hide Inv, NeedsRecycle;
    var s' := Reply(s, t, f);
    forall u: nat | u in s'.calls ensures CallFits(maxJobs, s', u) { assert CallFits(maxJobs, s, u); }
    forall u: nat | u in s'.pool.threads ensures ThreadFits(maxJobs, s', u) { assert ThreadFits(maxJobs, s, u); }
    assert forall u: nat :: Busy(s', u) <==> Busy(s, u);
  }

  lemma WaitKeepsCap(maxJobs: nat, s: XState, t: nat)
    requires CapInv(maxJobs, s) && IsCall(s, t) && s.calls[t].outer.Await? && s.calls[t].runner.Got?
    requires !NeedsRecycle(maxJobs, s.links[s.calls[t].w].jobs)
    ensures CapInv(maxJobs, SetCall(s, t, s.calls[t].(outer := ReadingReady)))
  {
    hide Inv, NeedsRecycle;
    var s' := SetCall(s, t, s.calls[t].(outer := ReadingReady));
    forall u: nat | u in s'.calls ensures CallFits(maxJobs, s', u) { assert CallFits(maxJobs, s, u); }
    forall u: nat | u in s'.pool.threads ensures ThreadFits(maxJobs, s', u) { assert ThreadFits(maxJobs, s, u); }
    assert forall u: nat :: Busy(s', u) <==> Busy(s, u);
  }

  lemma ReadyFrameKeepsCap(cfg: Config, maxJobs: nat, s: XState, t: nat, n: nat)
    requires CapInv(maxJobs, s) && XEnabled(cfg, maxJobs, s, ReadyFrame(t, n))
    ensures CapInv(maxJobs, XApply(cfg, maxJobs, s, ReadyFrame(t, n)))
  {
    hide Apply, Enabled, CapInv;
    var c := s.calls[t];
    var l := s.links[c.w];
    var a := if l.stdout[0].kind == TYPE_WORKER_READY then ExecKeep(t) else ExecRetire(t, n);
    LeaveKeepsCap(cfg, maxJobs, s, t, a, DropFirst(l));
    ReplyKeepsCap(maxJobs, Left(cfg, s, t, a, DropFirst(l)), t, c.runner.frame);
    assert XApply(cfg, maxJobs, s, ReadyFrame(t, n)) == Reply(Left(cfg, s, t, a, DropFirst(l)), t, c.runner.frame);
  }

  lemma CollectKeepsCap(cfg: Config, maxJobs: nat, s: XState, t: nat, n: nat)
    requires CapInv(maxJobs, s) && XEnabled(cfg, maxJobs, s, Collect(t, n))
    ensures CapInv(maxJobs, XApply(cfg, maxJobs, s, Collect(t, n)))
  {
    hide Apply, Enabled, CapInv;
    if Retires(maxJobs, s, t) {
      RetireKeepsCap(cfg, maxJobs, s, t, n);
      if s.calls[t].runner.Got? { ReplyKeepsCap(maxJobs, Retire(cfg, s, t, n), t, s.calls[t].runner.frame); }
    } else {
      WaitKeepsCap(maxJobs, s, t);
    }
  }

  // --- every step, every run ---

  lemma EventMoves(cfg: Config, maxJobs: nat, s: XState, w: nat, e: Event)
    requires XEnabled(cfg, maxJobs, s, Worker(w, e))
    ensures NothingCounted(s, XApply(cfg, maxJobs, s, Worker(w, e)), w, 0)
  {
  }

  lemma RunnerMovesLink(cfg: Config, maxJobs: nat, s: XState, x: XAction)
    requires XEnabled(cfg, maxJobs, s, x) && (x.RunWrite? || x.RunWriteFail? || x.RunRead? || x.RunReadFail?)
    ensures var s' := XApply(cfg, maxJobs, s, x);
      if x.RunWrite? then NothingCounted(s, s', s.calls[x.t].w, x.t) else Counts(s, s', x.t)
  {
  }

  lemma StepKeepsCap(cfg: Config, maxJobs: nat, s: XState, x: XAction)
    requires CapInv(maxJobs, s) && XEnabled(cfg, maxJobs, s, x)
    ensures CapInv(maxJobs, XApply(cfg, maxJobs, s, x))
  {
    hide CapInv, Apply, Enabled, NothingCounted, Counts, NeedsRecycle;
    var s' := XApply(cfg, maxJobs, s, x);
    match x
    case Pool(a) => PoolKeepsCap(cfg, maxJobs, s, a);
    case Receive(t, req) => ReceiveKeepsCap(cfg, maxJobs, s, t, req);
    case RunWrite(t) => RunnerMovesLink(cfg, maxJobs, s, x); SameJobsKeepCap(maxJobs, s, s', s.calls[t].w, t);
    case RunRead(t) => RunnerMovesLink(cfg, maxJobs, s, x); CountKeepsCap(maxJobs, s, s', t);
    case RunWriteFail(t) => RunnerMovesLink(cfg, maxJobs, s, x); CountKeepsCap(maxJobs, s, s', t);
    case RunReadFail(t) => RunnerMovesLink(cfg, maxJobs, s, x); CountKeepsCap(maxJobs, s, s', t);
    case Timeout(t, n) => RetireKeepsCap(cfg, maxJobs, s, t, n);
    case Collect(t, n) => CollectKeepsCap(cfg, maxJobs, s, t, n);
    case ReadyFrame(t, n) => ReadyFrameKeepsCap(cfg, maxJobs, s, t, n);
    case ReadyFail(t, n) =>
      RetireKeepsCap(cfg, maxJobs, s, t, n);
      ReplyKeepsCap(maxJobs, Retire(cfg, s, t, n), t, s.calls[t].runner.frame);
    case Worker(w, e) => EventMoves(cfg, maxJobs, s, w, e); SameJobsKeepCap(maxJobs, s, s', w, 0);
  }

  lemma {:induction false} RunKeepsCap(cfg: Config, maxJobs: nat, s: XState, run: seq<XAction>)
    requires CapInv(maxJobs, s) && IsXRun(cfg, maxJobs, s, run)
    ensures CapInv(maxJobs, XAfter(cfg, maxJobs, s, run))
    decreases |run|
  {
    hide CapInv, XEnabled, XApply;
    if run != [] {
      StepKeepsCap(cfg, maxJobs, s, run[0]);
      RunKeepsCap(cfg, maxJobs, XApply(cfg, maxJobs, s, run[0]), run[1..]);
    }
  }

  /** In every run, whatever frames Exec is given: no worker ever counts more than MaxJobs jobs, and each
      one that waits in the channel, or is on its way there, may still do another. */
  lemma ProcessJobCap(cfg: Config, maxJobs: nat, run: seq<XAction>, w: nat)
    requires IsXRun(cfg, maxJobs, XInit(cfg), run) && maxJobs > 0
    ensures var s := XAfter(cfg, maxJobs, XInit(cfg), run);
      && (w in s.links ==> s.links[w].jobs <= maxJobs)
      && (w in s.pool.available ==> w in s.links && s.links[w].jobs < maxJobs)
      && forall u: nat :: u in s.pool.threads && s.pool.threads[u].Sending? && s.pool.threads[u].w == w ==>
           w in s.links && s.links[w].jobs < maxJobs
  {
    InitInv(cfg);
    RunKeepsCap(cfg, maxJobs, XInit(cfg), run);
    var s := XAfter(cfg, maxJobs, XInit(cfg), run);
    forall u: nat | u in s.pool.threads && s.pool.threads[u].Sending? && s.pool.threads[u].w == w
      ensures w in s.links && s.links[w].jobs < maxJobs
    {
      assert ThreadFits(maxJobs, s, u);
    }
  }
}
