/** The external pool and its PHP workers as one system.

    The Go half is the pool machine plus, for each Exec, the goroutine that writes the request and reads
    the answer (the runner). The PHP half is the loop of Worker::run. They share two FIFO pipes of whole
    frames per worker. Stopping a worker may happen to any worker at any time, in the order the code
    has: mark, WORKER_STOP frame, close. A PHP process may also die at any point.

    `call` tags and the `log` of what PHP wrote for each request are history; no decision reads them. */
module ProcessPool {
  import opened Common
  import opened PoolMachine
  import opened Wire

  /** A frame on stdin; `call` names the Exec that wrote it, if one did. */
  datatype Inbound = Inbound(frame: Frame, call: Option<nat>)

  /** Where Worker::run is: before its first READY, at the loop head, in the handler, after a frame that
      is not PING or WORKER_STOP was dealt with, or gone. */
  datatype Php = Boot | Head | Handling(call: Option<nat>, emitted: nat) | Checks | Exited

  datatype Link = Link(
    stdin: seq<Inbound>,
    open: bool,          // the Go side has not closed stdin
    stdout: seq<Frame>,
    php: Php,
    count: nat,          // PHP's requestCount
    jobs: nat,           // Go's jobs
    stopped: bool,       // Worker.Stop has begun
    crashed: bool)       // the process died on its own or was killed

  datatype Runner = ToWrite | ToRead | Got(frame: Frame) | Failed
  datatype Outer = Await | ReadingReady | Gone

  /** One Exec that received a worker: its runner goroutine and its own progress. */
  datatype Call = Call(w: nat, req: Frame, runner: Runner, outer: Outer)

  datatype XState = XState(
    pool: State,
    links: map<nat, Link>,
    calls: map<nat, Call>,
    log: map<nat, seq<Frame>>,
    replies: map<nat, Frame>)

  /** What happens to one worker's pipes and process: the PHP loop's steps and the parts of Stop. */
  datatype Event =
    | PhpBoot
    | PhpTake
    | PhpEof
    | PhpEmit(f: Frame)
    | PhpFinish
    | PhpCheck(memoryOver: bool)
    | PhpCrash
    | StopMark
    | StopWrite
    | StopClose

  datatype XAction =
    | Pool(act: Action)
    | Receive(t: nat, req: Frame)
    | RunWrite(t: nat)
    | RunWriteFail(t: nat)
    | RunRead(t: nat)
    | RunReadFail(t: nat)
    | Timeout(t: nat, n: nat)
    | Collect(t: nat, n: nat)
    | ReadyFrame(t: nat, n: nat)
    | ReadyFail(t: nat, n: nat)
    | Worker(w: nat, e: Event)

  const READY := Frame(TYPE_WORKER_READY, 0, 0, [], [])
  const STOP := Frame(TYPE_WORKER_STOP, 0, 0, [], [])
  const PONG := Frame(TYPE_PING, 0, 0, [], [0x70, 0x6F, 0x6E, 0x67])

  const NEW_LINK := Link([], true, [], Boot, 0, 0, false, false)

  // --- the PHP loop, one step at a time ---

  /** readFrame returned a frame: the branches at the top of the loop. */
  function TakeFrame(l: Link): Link
    requires l.php == Head && l.stdin != []
  {
    var m := l.stdin[0];
    var l' := l.(stdin := l.stdin[1..]);
    if m.frame.kind == TYPE_WORKER_STOP then l'.(php := Exited)
    else if m.frame.kind == TYPE_PING then l'.(stdout := l.stdout + [PONG])
    else if m.frame.kind == TYPE_REQUEST then l'.(php := Handling(m.call, 0))
    else l'.(php := Checks)
  }

  /** The limits at the bottom of the loop, then WORKER_READY. MAX_REQUESTS is Go's MaxJobs. */
  function CheckLimits(maxJobs: nat, l: Link, memoryOver: bool): Link {
    if NeedsRecycle(maxJobs, l.count) || memoryOver then l.(php := Exited)
    else l.(php := Head, stdout := l.stdout + [READY])
  }

  predicate CanHappen(l: Link, e: Event) {
    match e
    case PhpBoot => l.php == Boot
    case PhpTake => l.php == Head && l.stdin != []
    case PhpEof => l.php == Head && l.stdin == [] && !l.open
    case PhpEmit(f) => l.php.Handling? && f.kind == TYPE_RESPONSE
    case PhpFinish => l.php.Handling? && l.php.emitted > 0
    case PhpCheck(_) => l.php == Checks
    case PhpCrash => true
    case StopMark => true
    case StopWrite => l.stopped && l.open
    case StopClose => l.stopped
  }

  function Happen(maxJobs: nat, l: Link, e: Event): Link
    requires CanHappen(l, e)
  {
    match e
    case PhpBoot => l.(php := Head, stdout := l.stdout + [READY])
    case PhpTake => TakeFrame(l)
    case PhpEof => l.(php := Exited)
    case PhpEmit(f) => l.(stdout := l.stdout + [f], php := Handling(l.php.call, l.php.emitted + 1))
    case PhpFinish => l.(count := l.count + 1, php := Checks)
    case PhpCheck(memoryOver) => CheckLimits(maxJobs, l, memoryOver)
    case PhpCrash => l.(php := Exited, crashed := true)
    case StopMark => l.(stopped := true)
    case StopWrite => if l.php.Exited? then l else l.(stdin := l.stdin + [Inbound(STOP, None)])
    case StopClose => l.(open := false)
  }

  /** The history: a frame written while a request is handled is an answer to that request. */
  function Logged(log: map<nat, seq<Frame>>, l: Link, e: Event): map<nat, seq<Frame>> {
    if e.PhpEmit? && l.php.Handling? && l.php.call.Some? && l.php.call.value in log
    then log[l.php.call.value := log[l.php.call.value] + [e.f]]
    else log
  }

  // --- the Go side ---

  /** Reads of a dead process's pipe: nothing left, or Stop's Wait has closed it under the reader. */
  predicate ReadFails(l: Link) {
    l.php.Exited? && (l.stdout == [] || l.stopped)
  }

  predicate IsCall(s: XState, t: nat) {
    t in s.calls && s.calls[t].w in s.links
  }

  /** Stop has returned for the worker that thread t is stopping. */
  predicate StopDone(s: XState, w: nat) {
    w in s.links && s.links[w].stopped && !s.links[w].open
  }

  predicate PoolGuard(s: XState, a: Action)
  {
    match a
    case ExecArrive(n) => n !in s.calls
    case SpawnOk(t) =>
      t in s.pool.threads && s.pool.threads[t].Spawning? && s.pool.threads[t].id in s.links
      && var l := s.links[s.pool.threads[t].id]; l.stdout != [] && l.stdout[0].kind == TYPE_WORKER_READY
    case StopOld(t) => t in s.pool.threads && s.pool.threads[t].ReplaceStop? && StopDone(s, s.pool.threads[t].w)
    case StopIdle(t) => t in s.pool.threads && s.pool.threads[t].DownStop? && StopDone(s, s.pool.threads[t].w)
    case DrainStop(t) =>
      t in s.pool.threads && s.pool.threads[t].Draining?
      && s.pool.threads[t].next < |s.pool.threads[t].snapshot|
      && StopDone(s, s.pool.threads[t].snapshot[s.pool.threads[t].next])
    case ExecReceive(_) => false
    case ExecKeep(_) => false
    case ExecRetire(_, _) => false
    case _ => true
  }

  /** What a call decides when its runner is done and it does not wait for READY. */
  predicate Retires(maxJobs: nat, s: XState, t: nat)
    requires IsCall(s, t)
  {
    s.calls[t].runner.Failed? || NeedsRecycle(maxJobs, s.links[s.calls[t].w].jobs)
  }

  predicate XEnabled(cfg: Config, maxJobs: nat, s: XState, x: XAction) {
    match x
    case Pool(a) => Enabled(cfg, s.pool, a) && PoolGuard(s, a)
    case Receive(t, req) => Enabled(cfg, s.pool, ExecReceive(t))
    case RunWrite(t) => IsCall(s, t) && s.calls[t].runner.ToWrite? &&
      var l := s.links[s.calls[t].w]; l.open && !l.php.Exited?
    case RunWriteFail(t) => IsCall(s, t) && s.calls[t].runner.ToWrite? &&
      var l := s.links[s.calls[t].w]; !l.open || l.php.Exited?
    case RunRead(t) => IsCall(s, t) && s.calls[t].runner.ToRead? && s.links[s.calls[t].w].stdout != []
    case RunReadFail(t) => IsCall(s, t) && s.calls[t].runner.ToRead? && ReadFails(s.links[s.calls[t].w])
    case Timeout(t, n) => IsCall(s, t) && s.calls[t].outer.Await? && Enabled(cfg, s.pool, ExecRetire(t, n))
    case Collect(t, n) => IsCall(s, t) && s.calls[t].outer.Await?
      && (s.calls[t].runner.Got? || s.calls[t].runner.Failed?)
      && (Retires(maxJobs, s, t) ==> Enabled(cfg, s.pool, ExecRetire(t, n)))
    case ReadyFrame(t, n) => IsCall(s, t) && s.calls[t].outer.ReadingReady? && s.calls[t].runner.Got?
      && s.links[s.calls[t].w].stdout != []
      && Enabled(cfg, s.pool, ExecKeep(t)) && Enabled(cfg, s.pool, ExecRetire(t, n))
    case ReadyFail(t, n) => IsCall(s, t) && s.calls[t].outer.ReadingReady? && s.calls[t].runner.Got?
      && ReadFails(s.links[s.calls[t].w]) && Enabled(cfg, s.pool, ExecRetire(t, n))
    case Worker(w, e) => w in s.links && CanHappen(s.links[w], e)
  }

  function SetLink(s: XState, w: nat, l: Link): XState {
    s.(links := s.links[w := l])
  }

  function SetCall(s: XState, t: nat, c: Call): XState {
    s.(calls := s.calls[t := c])
  }

  function DropFirst(l: Link): Link
    requires l.stdout != []
  {
    l.(stdout := l.stdout[1..])
  }

  /** The Exec is over; its worker goes to replaceWorker. */
  function Retire(cfg: Config, s: XState, t: nat, n: nat): XState
    requires t in s.calls && Enabled(cfg, s.pool, ExecRetire(t, n))
  {
    SetCall(s.(pool := Apply(cfg, s.pool, ExecRetire(t, n))), t, s.calls[t].(outer := Gone))
  }

  function Reply(s: XState, t: nat, f: Frame): XState {
    s.(replies := s.replies[t := f])
  }

  function XApply(cfg: Config, maxJobs: nat, s: XState, x: XAction): XState
    requires XEnabled(cfg, maxJobs, s, x)
  {
    match x
    case Pool(a) =>
      var s' := s.(pool := Apply(cfg, s.pool, a));
      if a.BeginSpawn? then SetLink(s', s.pool.nextID + 1, NEW_LINK)
      else if a.SpawnOk? then SetLink(s', s.pool.threads[a.t].id, DropFirst(s.links[s.pool.threads[a.t].id]))
      else s'
    case Receive(t, req) =>
      SetCall(s.(pool := Apply(cfg, s.pool, ExecReceive(t)), log := s.log[t := []]),
              t, Call(s.pool.available[0], req, ToWrite, Await))
    case RunWrite(t) =>
      var c := s.calls[t];
      SetCall(SetLink(s, c.w, s.links[c.w].(stdin := s.links[c.w].stdin + [Inbound(c.req, Some(t))])),
              t, c.(runner := ToRead))
    case RunRead(t) =>
      var c := s.calls[t];
      var l := s.links[c.w];
      SetCall(SetLink(s, c.w, DropFirst(l).(jobs := l.jobs + 1)), t, c.(runner := Got(l.stdout[0])))
    case RunWriteFail(t) => RunFailed(s, t)
    case RunReadFail(t) => RunFailed(s, t)
    case Timeout(t, n) => Retire(cfg, s, t, n)
    case Collect(t, n) =>
      if s.calls[t].runner.Failed? then Retire(cfg, s, t, n)
      else if Retires(maxJobs, s, t) then Reply(Retire(cfg, s, t, n), t, s.calls[t].runner.frame)
      else SetCall(s, t, s.calls[t].(outer := ReadingReady))
    case ReadyFrame(t, n) =>
      var c := s.calls[t];
      var l := s.links[c.w];
      var s' := Reply(SetLink(s, c.w, DropFirst(l)), t, c.runner.frame);
      if l.stdout[0].kind == TYPE_WORKER_READY
      then SetCall(s'.(pool := Apply(cfg, s.pool, ExecKeep(t))), t, c.(outer := Gone))
      else Retire(cfg, s', t, n)
    case ReadyFail(t, n) => Reply(Retire(cfg, s, t, n), t, s.calls[t].runner.frame)
    case Worker(w, e) =>
      SetLink(s.(log := Logged(s.log, s.links[w], e)), w, Happen(maxJobs, s.links[w], e))
  }

  /** Worker.Exec returned an error; its deferred jobs.Add(1) runs all the same. */
  function RunFailed(s: XState, t: nat): XState
    requires IsCall(s, t)
  {
    var c := s.calls[t];
    SetCall(SetLink(s, c.w, s.links[c.w].(jobs := s.links[c.w].jobs + 1)), t, c.(runner := Failed))
  }

  function XInit(cfg: Config): XState {
    XState(Init(cfg), map[], map[], map[], map[])
  }

  ghost predicate IsXRun(cfg: Config, maxJobs: nat, s: XState, run: seq<XAction>)
    decreases |run|
  {
    run == [] || (XEnabled(cfg, maxJobs, s, run[0])
                  && IsXRun(cfg, maxJobs, XApply(cfg, maxJobs, s, run[0]), run[1..]))
  }

  ghost function XAfter(cfg: Config, maxJobs: nat, s: XState, run: seq<XAction>): XState
    requires IsXRun(cfg, maxJobs, s, run)
    decreases |run|
  {
    if run == [] then s else XAfter(cfg, maxJobs, XApply(cfg, maxJobs, s, run[0]), run[1..])
  }
}
