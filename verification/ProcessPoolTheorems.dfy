/** What the handshake between the Go pool and its PHP workers guarantees over whole runs. */
module ProcessPoolTheorems {
  import opened Common
  import opened Bytes
  import opened PoolMachine
  import opened Wire
  import opened ProcessPool
  import opened ProcessPoolInv

  lemma {:induction false} RunKeepsXInv(cfg: Config, maxJobs: nat, s: XState, run: seq<XAction>)
    requires XInv(maxJobs, s) && IsXRun(cfg, maxJobs, s, run)
    ensures XInv(maxJobs, XAfter(cfg, maxJobs, s, run))
    decreases |run|
  {
    hide XInv, XEnabled, XApply;
    if run != [] {
      StepKeepsXInv(cfg, maxJobs, s, run[0]);
      RunKeepsXInv(cfg, maxJobs, XApply(cfg, maxJobs, s, run[0]), run[1..]);
    }
  }

  lemma Reached(cfg: Config, maxJobs: nat, run: seq<XAction>) returns (s: XState)
    requires IsXRun(cfg, maxJobs, XInit(cfg), run)
    ensures s == XAfter(cfg, maxJobs, XInit(cfg), run) && XInv(maxJobs, s)
  {
    XInitInv(cfg, maxJobs);
    RunKeepsXInv(cfg, maxJobs, XInit(cfg), run);
    s := XAfter(cfg, maxJobs, XInit(cfg), run);
  }

  /** t is an Exec that was given a frame of this type. */
  predicate Asks(s: XState, t: nat, kind: int) {
    t in s.calls && s.calls[t].req.kind == kind
  }

  /** The recorded reply of t is the first frame PHP wrote while handling the request of t. */
  predicate OwnAnswer(s: XState, t: nat)
    requires t in s.replies
  {
    t in s.log && s.log[t] != [] && s.replies[t] == s.log[t][0] && s.replies[t].kind == TYPE_RESPONSE
  }

  /** In every run: an Exec of a request that succeeds returns the first frame PHP wrote while handling that
      Exec's own request, whatever the other Execs, their frames, timeouts, extra answers, stops and crashes
      do. */
  lemma ResponseBelongsToRequest(cfg: Config, maxJobs: nat, run: seq<XAction>, t: nat)
    requires IsXRun(cfg, maxJobs, XInit(cfg), run)
    requires t in XAfter(cfg, maxJobs, XInit(cfg), run).replies
    ensures var s := XAfter(cfg, maxJobs, XInit(cfg), run);
      t in s.calls && (GoodKind(s.calls[t].req.kind) ==> OwnAnswer(s, t))
  {
    var s := Reached(cfg, maxJobs, run);
    assert ReplyOk(s, t);
    assert CallOk(maxJobs, s, t);
  }

  /** In every run: a worker in the channel has no answer left in its pipe and equal request counters on both
      sides; if nobody stopped it and it did not crash, PHP waits at the loop head with nothing to read. */
  lemma WaitingWorkersAreClean(cfg: Config, maxJobs: nat, run: seq<XAction>, w: nat)
    requires IsXRun(cfg, maxJobs, XInit(cfg), run)
    requires w in XAfter(cfg, maxJobs, XInit(cfg), run).pool.available
    ensures var s := XAfter(cfg, maxJobs, XInit(cfg), run);
      && w in s.links
      && s.links[w].stdout == [] && s.links[w].count == s.links[w].jobs
      && (maxJobs > 0 ==> s.links[w].jobs < maxJobs)
      && (!Disturbed(s.links[w]) ==> s.links[w].php == Head && s.links[w].stdin == [] && s.links[w].open)
  {
    var s := Reached(cfg, maxJobs, run);
    assert Rested(maxJobs, s, w) && LinkOk(maxJobs, s.links[w]);
    FrontIsQuiet(s.links[w].stdin);
  }

  lemma FrontIsQuiet(stdin: seq<Inbound>)
    requires Quiet(stdin)
    ensures stdin != [] ==> stdin[0].call.None?
  {
  }

  /** When PHP checks its request limit during an Exec, the count it checks is the count Go has, or will have
      once it reads the answer, so PHP leaves exactly on the requests after which Go retires the worker
      without waiting for READY. A frame of another type is counted by Go alone, later, and PHP stays. */
  lemma LimitExitIffRecycle(cfg: Config, maxJobs: nat, run: seq<XAction>, t: nat)
    requires IsXRun(cfg, maxJobs, XInit(cfg), run)
    requires var s := XAfter(cfg, maxJobs, XInit(cfg), run);
      IsCall(s, t) && !s.calls[t].outer.Gone? && s.links[s.calls[t].w].php == Checks
    ensures var s := XAfter(cfg, maxJobs, XInit(cfg), run);
      var (c, l) := (s.calls[t], s.links[s.calls[t].w]);
      && (c.runner.ToRead? || c.runner.Got? ==>
            if GoodKind(c.req.kind) then l.count == l.jobs + (if c.runner.ToRead? then 1 else 0)
            else l.count == l.jobs && c.runner.ToRead? && !NeedsRecycle(maxJobs, l.count))
      && (c.runner.Got? ==> (NeedsRecycle(maxJobs, l.count) <==> Retires(maxJobs, s, t)))
      && (c.outer.ReadingReady? ==> !NeedsRecycle(maxJobs, l.count))
  {
    var s := Reached(cfg, maxJobs, run);
    assert CallOk(maxJobs, s, t);
  }

  // --- deadlock ---

  /** PHP waits for a frame that nobody has written, and has nothing left to say. */
  predicate PhpWaits(l: Link) {
    l.php == Head && l.stdin == [] && l.open && l.stdout == []
  }

  /** Exec t or its runner reads the stdout of a worker that waits for input. */
  predicate Stuck(s: XState, t: nat) {
    IsCall(s, t) && PhpWaits(s.links[s.calls[t].w]) && (s.calls[t].runner.ToRead? || s.calls[t].outer.ReadingReady?)
  }

  /** spawnWorker of thread u reads the stdout of a worker that waits for input. */
  predicate StuckSpawn(s: XState, u: nat) {
    && u in s.pool.threads && s.pool.threads[u].Spawning? && s.pool.threads[u].id in s.links
    && PhpWaits(s.links[s.pool.threads[u].id])
  }

  lemma InvIsNotStuck(maxJobs: nat, s: XState, t: nat)
    requires XInv(maxJobs, s)
    ensures t in s.calls && GoodKind(s.calls[t].req.kind) ==> !Stuck(s, t)
    ensures !StuckSpawn(s, t)
  {
    hide Inv, Apart, RepliesInv, CallPlace, TagsOk, LinkOk, Idle;
    if t in s.calls { assert CallOk(maxJobs, s, t) && CallPipes(maxJobs, s, t); }
    if t in s.pool.threads { assert ThreadOk(maxJobs, s, t); }
  }

  /** In every run: a starting worker and the spawn that reads its READY never wait for each other. */
  lemma SpawnNeverStuck(cfg: Config, maxJobs: nat, run: seq<XAction>, u: nat)
    requires IsXRun(cfg, maxJobs, XInit(cfg), run)
    ensures !StuckSpawn(XAfter(cfg, maxJobs, XInit(cfg), run), u)
  {
    var s := Reached(cfg, maxJobs, run);
    InvIsNotStuck(maxJobs, s, u);
  }

  /** No Exec of a frame of this type is ever stuck, whatever is given to the others. */
  ghost predicate NeverStuck(kind: int) {
    forall cfg: Config, maxJobs: nat, run: seq<XAction>, t: nat ::
      IsXRun(cfg, maxJobs, XInit(cfg), run) && Asks(XAfter(cfg, maxJobs, XInit(cfg), run), t, kind) ==>
        !Stuck(XAfter(cfg, maxJobs, XInit(cfg), run), t)
  }

  /** An Exec and the worker it talks to never wait for each other exactly when it was given a request or a
      WORKER_STOP. */
  lemma NeverStuckIff(kind: Byte)
    ensures NeverStuck(kind) <==> kind == TYPE_REQUEST || kind == TYPE_WORKER_STOP
  {
    if GoodKind(kind) {
      forall cfg: Config, maxJobs: nat, run: seq<XAction>, t: nat
        | IsXRun(cfg, maxJobs, XInit(cfg), run) && Asks(XAfter(cfg, maxJobs, XInit(cfg), run), t, kind)
        ensures !Stuck(XAfter(cfg, maxJobs, XInit(cfg), run), t)
      {
        var s := Reached(cfg, maxJobs, run);
        InvIsNotStuck(maxJobs, s, t);
      }
    } else {
      var run, s := GetStuck(Frame(kind, 0, 0, [], []));
    }
  }

  /** Every Exec of a frame of this type that succeeds returns its own answer, whatever is given to the
      others. */
  ghost predicate Correlates(kind: int) {
    forall cfg: Config, maxJobs: nat, run: seq<XAction>, t: nat ::
      IsXRun(cfg, maxJobs, XInit(cfg), run) && Asks(XAfter(cfg, maxJobs, XInit(cfg), run), t, kind)
        && t in XAfter(cfg, maxJobs, XInit(cfg), run).replies ==>
        OwnAnswer(XAfter(cfg, maxJobs, XInit(cfg), run), t)
  }

  /** Exec returns the answer to its own frame for exactly the same types: with any other it can take a pong or
      a READY for the answer. */
  lemma CorrelatesIff(kind: Byte)
    ensures Correlates(kind) <==> kind == TYPE_REQUEST || kind == TYPE_WORKER_STOP
  {
    if GoodKind(kind) {
      forall cfg: Config, maxJobs: nat, run: seq<XAction>, t: nat
        | IsXRun(cfg, maxJobs, XInit(cfg), run) && Asks(XAfter(cfg, maxJobs, XInit(cfg), run), t, kind)
          && t in XAfter(cfg, maxJobs, XInit(cfg), run).replies
        ensures OwnAnswer(XAfter(cfg, maxJobs, XInit(cfg), run), t)
      {
        ResponseBelongsToRequest(cfg, maxJobs, run, t);
      }
    } else {
      var run, s := GetWrongAnswer(Frame(kind, 0, 0, [], []));
    }
  }

  lemma {:induction false} XExtend(cfg: Config, maxJobs: nat, s: XState, run: seq<XAction>, x: XAction)
    requires IsXRun(cfg, maxJobs, s, run) && XEnabled(cfg, maxJobs, XAfter(cfg, maxJobs, s, run), x)
    ensures IsXRun(cfg, maxJobs, s, run + [x])
    ensures XAfter(cfg, maxJobs, s, run + [x]) == XApply(cfg, maxJobs, XAfter(cfg, maxJobs, s, run), x)
    decreases |run|
  {
    hide XEnabled, XApply;
    if run == [] {
      assert run + [x] == [x];
      assert IsXRun(cfg, maxJobs, XApply(cfg, maxJobs, s, x), []);
    } else {
      assert (run + [x])[1..] == run[1..] + [x];
      XExtend(cfg, maxJobs, XApply(cfg, maxJobs, s, run[0]), run[1..], x);
    }
  }

  const ONE := Config(1, 1)

  /** s is reached by run in a pool of one worker without a job limit. */
  ghost predicate Reaches(run: seq<XAction>, s: XState) {
    IsXRun(ONE, 0, XInit(ONE), run) && XAfter(ONE, 0, XInit(ONE), run) == s
  }

  lemma XGo(run: seq<XAction>, s: XState, x: XAction) returns (run': seq<XAction>, s': XState)
    requires Reaches(run, s) && XEnabled(ONE, 0, s, x)
    ensures s' == XApply(ONE, 0, s, x) && Reaches(run', s')
  {
    hide XEnabled, XApply;
    XExtend(ONE, 0, XInit(ONE), run, x);
    run', s' := run + [x], XApply(ONE, 0, s, x);
  }

  lemma OneWaits() returns (run: seq<XAction>, s: XState)
    ensures Reaches(run, s)
    ensures s.pool.available == [1] && s.pool.threads == map[0 := Ticking] && s.calls == map[]
    ensures s.links == map[1 := Link([], true, [], Head, 0, 0, false, false)] && s.log == map[] && s.replies == map[]
  {
    run, s := [], XInit(ONE);
    assert Reaches(run, s);
    hide Reaches;
    run, s := XGo(run, s, Pool(BeginSpawn(0)));
    run, s := XGo(run, s, Worker(1, PhpBoot));
    assert s.links[1].stdout == [READY];
    run, s := XGo(run, s, Pool(SpawnOk(0)));
    assert s.links[1].stdout == [];
    run, s := XGo(run, s, Pool(Send(0)));
  }

  lemma OneHeld(req: Frame) returns (run: seq<XAction>, s: XState)
    ensures Reaches(run, s)
    ensures s.pool.threads == map[0 := Ticking, 1 := Holding(1)] && s.calls == map[1 := Call(1, req, ToWrite, Await)]
    ensures s.links == map[1 := Link([], true, [], Head, 0, 0, false, false)]
    ensures s.log == map[1 := []] && s.replies == map[]
  {
    hide Reaches;
    run, s := OneWaits();
    run, s := XGo(run, s, Pool(ExecArrive(1)));
    assert s.pool.threads == map[0 := Ticking, 1 := Allocating] && s.pool.available == [1];
    run, s := XGo(run, s, Receive(1, req));
  }

  lemma OneAsked(req: Frame) returns (run: seq<XAction>, s: XState)
    ensures Reaches(run, s)
    ensures s.pool.threads == map[0 := Ticking, 1 := Holding(1)] && s.calls == map[1 := Call(1, req, ToRead, Await)]
    ensures s.links == map[1 := Link([Inbound(req, Some(1))], true, [], Head, 0, 0, false, false)]
    ensures s.log == map[1 := []] && s.replies == map[]
  {
    hide Reaches, Apply, Enabled;
    run, s := OneHeld(req);
    run, s := XGo(run, s, RunWrite(1));
    assert s.links[1].stdin == [Inbound(req, Some(1))];
  }

  /** PHP answers PING with a pong and anything unknown with READY alone ... */
  lemma OneReplied(req: Frame) returns (run: seq<XAction>, s: XState)
    requires !GoodKind(req.kind)
    ensures Reaches(run, s) && s.calls == map[1 := Call(1, req, ToRead, Await)]
    ensures s.pool.threads == map[0 := Ticking, 1 := Holding(1)]
    ensures s.links == map[1 := Link([], true, [OddReply(req.kind)], Head, 0, 0, false, false)]
  {
    hide Reaches, Apply;
    run, s := OneAsked(req);
    run, s := XGo(run, s, Worker(1, PhpTake));
    assert s.links[1].stdin == [];
    if req.kind != TYPE_PING { run, s := XGo(run, s, Worker(1, PhpCheck(false))); }
    assert s.links[1].stdout == [OddReply(req.kind)];
  }

  /** ... and Go takes either for the response and then waits for a READY that does not come. */
  lemma GetStuck(req: Frame) returns (run: seq<XAction>, s: XState)
    requires !GoodKind(req.kind) && 0 <= req.kind < 256
    ensures Reaches(run, s) && Asks(s, 1, req.kind) && Stuck(s, 1)
  {
    hide Reaches, Apply;
    run, s := OneReplied(req);
    run, s := XGo(run, s, RunRead(1));
    run, s := XGo(run, s, Collect(1, 2));
  }

  /** If PHP then goes away, Exec returns that frame as the response. */
  lemma GetWrongAnswer(req: Frame) returns (run: seq<XAction>, s: XState)
    requires !GoodKind(req.kind) && 0 <= req.kind < 256
    ensures Reaches(run, s) && Asks(s, 1, req.kind) && 1 in s.replies && !OwnAnswer(s, 1)
    ensures s.replies[1] == OddReply(req.kind)
  {
    hide Reaches, Apply;
    run, s := OneReplied(req);
    run, s := XGo(run, s, RunRead(1));
    run, s := XGo(run, s, Collect(1, 2));
    run, s := XGo(run, s, Worker(1, PhpCrash));
    run, s := XGo(run, s, ReadyFail(1, 2));
  }

  /** An answer can be lost: PHP has answered in full when a Stop, whose Wait closes the pipe once PHP has
      gone, comes before the read. Exec then fails. */
  lemma StopLosesAnswer(req: Frame, f: Frame) returns (run: seq<XAction>, s: XState)
    requires req.kind == TYPE_REQUEST && f.kind == TYPE_RESPONSE
    ensures Reaches(run, s) && Asks(s, 1, TYPE_REQUEST) && 1 in s.log && s.log[1] == [f]
    ensures s.calls[1].outer == Gone && s.calls[1].runner == Failed && 1 !in s.replies
  {
    hide Reaches, Apply;
    run, s := OneAnswered(req, f);
    run, s := XGo(run, s, Worker(1, StopMark));
    run, s := XGo(run, s, Worker(1, StopWrite));
    run, s := XGo(run, s, Worker(1, PhpTake));
    assert s.links[1].php == Exited && s.links[1].stopped;
    run, s := XGo(run, s, RunReadFail(1));
    run, s := XGo(run, s, Collect(1, 2));
  }

  lemma OneAnswered(req: Frame, f: Frame) returns (run: seq<XAction>, s: XState)
    requires req.kind == TYPE_REQUEST && f.kind == TYPE_RESPONSE
    ensures Reaches(run, s) && s.calls == map[1 := Call(1, req, ToRead, Await)] && s.replies == map[]
    ensures s.pool.threads == map[0 := Ticking, 1 := Holding(1)] && s.log == map[1 := [f]]
    ensures s.links == map[1 := Link([], true, [f, READY], Head, 1, 0, false, false)]
  {
    hide Reaches, Apply, Enabled;
    run, s := OneAsked(req);
    run, s := XGo(run, s, Worker(1, PhpTake));
    assert s.links[1] == Link([], true, [], Handling(Some(1), 0), 0, 0, false, false);
    run, s := XGo(run, s, Worker(1, PhpEmit(f)));
    assert [] + [f] == [f];
    run, s := XGo(run, s, Worker(1, PhpFinish));
    run, s := XGo(run, s, Worker(1, PhpCheck(false)));
    assert [f] + [READY] == [f, READY];
  }

  // --- the pool machine underneath ---

  /** Every joint run is, on the Go side, a run of the pool machine: exclusive possession, the reload
      results and the rest carry over. */
  lemma {:induction false} RefinesPoolMachine(cfg: Config, maxJobs: nat, s: XState, run: seq<XAction>)
      returns (acts: seq<Action>)
    requires IsXRun(cfg, maxJobs, s, run)
    ensures IsRun(cfg, s.pool, acts) && After(cfg, s.pool, acts) == XAfter(cfg, maxJobs, s, run).pool
    decreases |run|
  {
    hide XApply, XEnabled, Apply, Enabled;
    if run == [] {
      acts := [];
    } else {
      var s' := XApply(cfg, maxJobs, s, run[0]);
      var first := PoolPart(cfg, maxJobs, s, run[0]);
      var rest := RefinesPoolMachine(cfg, maxJobs, s', run[1..]);
      acts := first + rest;
      if first == [] { assert acts == rest; } else { assert acts[0] == first[0] && acts[1..] == rest; }
    }
  }

  /** One joint step is one pool action or none. */
  lemma PoolPart(cfg: Config, maxJobs: nat, s: XState, x: XAction) returns (acts: seq<Action>)
    requires XEnabled(cfg, maxJobs, s, x)
    ensures |acts| <= 1
    ensures acts == [] ==> XApply(cfg, maxJobs, s, x).pool == s.pool
    ensures acts != [] ==>
      Enabled(cfg, s.pool, acts[0]) && XApply(cfg, maxJobs, s, x).pool == Apply(cfg, s.pool, acts[0])
  {
    hide Apply, Enabled;
    match x
    case Pool(a) => acts := [a];
    case Receive(t, _) => acts := [ExecReceive(t)];
    case Timeout(t, n) => acts := [ExecRetire(t, n)];
    case Collect(t, n) => acts := if Retires(maxJobs, s, t) then [ExecRetire(t, n)] else [];
    case ReadyFrame(t, n) =>
      acts := if s.links[s.calls[t].w].stdout[0].kind == TYPE_WORKER_READY then [ExecKeep(t)] else [ExecRetire(t, n)];
    case ReadyFail(t, n) => acts := [ExecRetire(t, n)];
    case _ => acts := [];
  }
}
