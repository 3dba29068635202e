/** What every step of the joint system keeps: each worker is in one of four situations (starting, idle,
    being asked, answered but not yet READY), and its pipes, PHP's position and the two request counters
    agree with the situation. Stops and crashes are part of every situation. */
module ProcessPoolInv {
  import opened Common
  import opened PoolMachine
  import opened Wire
  import opened ProcessPool

  /** The frame types whose protocol PHP keeps. A frame of any other type given to Exec is answered by a
      pong or a READY alone: see NeverStuckIff and CorrelatesIff in ProcessPoolTheorems. */
  predicate GoodKind(kind: int) {
    kind == TYPE_REQUEST || kind == TYPE_WORKER_STOP
  }

  // --- one worker's pipes ---

  predicate Disturbed(l: Link) {
    l.stopped || l.crashed
  }

  ghost predicate Quiet(stdin: seq<Inbound>) {
    forall i :: 0 <= i < |stdin| ==> stdin[i].call.None?
  }

  /** Frames nobody's Exec wrote are WORKER_STOP, and without a Stop there are none. */
  ghost predicate LinkOk(maxJobs: nat, l: Link) {
    && (forall i :: 0 <= i < |l.stdin| && l.stdin[i].call.None? ==>
          l.stopped && l.stdin[i].frame.kind == TYPE_WORKER_STOP)
    && (!l.stopped ==> l.open)
    && (NeedsRecycle(maxJobs, l.jobs) ==> l.jobs == maxJobs)
  }

  /** Between its start and its first READY read. */
  ghost predicate Booting(l: Link) {
    && Quiet(l.stdin) && l.count == 0 && l.jobs == 0
    && match l.php
       case Boot => l.stdout == []
       case Head => l.stdout == [READY]
       case Exited => l.stdout == [] || (l.stdout == [READY] && Disturbed(l))
       case _ => false
  }

  /** Nobody talks to it: both pipes are empty of requests and answers and the counters agree. */
  ghost predicate Idle(l: Link) {
    && Quiet(l.stdin) && l.stdout == [] && l.count == l.jobs
    && (l.php == Head || (l.php == Exited && Disturbed(l)))
  }

  /** Exactly one frame of an Exec, that of t, with nothing but WORKER_STOP around it. */
  ghost predicate Queued(stdin: seq<Inbound>, t: nat, kind: int) {
    exists i :: 0 <= i < |stdin| && stdin[i].call == Some(t) && stdin[i].frame.kind == kind
      && Quiet(stdin[..i]) && Quiet(stdin[i + 1..])
  }

  /** Call t has written its request and not read the answer; g is what PHP wrote for it so far. */
  ghost predicate RightlyAsked(l: Link, t: nat, g: seq<Frame>, kind: int) {
    match l.php
    case Boot => false
    case Head =>
      || (Queued(l.stdin, t, kind) && g == [] && l.stdout == [] && l.count == l.jobs)
      || (Quiet(l.stdin) && g != [] && l.stdout == g + [READY] && l.count == l.jobs + 1)
    case Handling(c, k) => c == Some(t) && k == |g| && Quiet(l.stdin) && l.stdout == g && l.count == l.jobs
    case Checks => Quiet(l.stdin) && g != [] && l.stdout == g && l.count == l.jobs + 1
    case Exited =>
      l.stdout == g || (Quiet(l.stdin) && g != [] && l.stdout == g + [READY] && l.count == l.jobs + 1 && Disturbed(l))
  }

  /** What PHP makes of a frame that is neither a request nor WORKER_STOP. */
  function OddReply(kind: int): Frame {
    if kind == TYPE_PING then PONG else READY
  }

  /** Call t has written a frame of another type and not read what comes back. */
  ghost predicate OddlyAsked(l: Link, t: nat, g: seq<Frame>, kind: int) {
    && g == []
    && match l.php
       case Head =>
         && l.count == l.jobs
         && ((Queued(l.stdin, t, kind) && l.stdout == []) || (Quiet(l.stdin) && l.stdout == [OddReply(kind)]))
       case Checks => kind != TYPE_PING && Quiet(l.stdin) && l.stdout == [] && l.count == l.jobs
       case Exited => l.stdout == [] || (Quiet(l.stdin) && l.stdout == [OddReply(kind)])
       case _ => false
  }

  ghost predicate Asked(l: Link, t: nat, g: seq<Frame>, kind: int) {
    if GoodKind(kind) then RightlyAsked(l, t, g, kind) else OddlyAsked(l, t, g, kind)
  }

  /** Call t has read the first answer; what is left is the rest of g and then READY. */
  ghost predicate RightlyAnswered(l: Link, t: nat, g: seq<Frame>) {
    && g != []
    && match l.php
       case Boot => false
       case Head => Quiet(l.stdin) && l.stdout == g[1..] + [READY] && l.count == l.jobs
       case Handling(c, k) => c == Some(t) && k == |g| && Quiet(l.stdin) && l.stdout == g[1..] && l.count + 1 == l.jobs
       case Checks => Quiet(l.stdin) && l.stdout == g[1..] && l.count == l.jobs
       case Exited =>
         l.stdout == g[1..] || (Quiet(l.stdin) && l.stdout == g[1..] + [READY] && l.count == l.jobs && Disturbed(l))
  }

  /** Call t has read what came back for its odd frame: nothing else will come. */
  ghost predicate OddlyAnswered(l: Link, g: seq<Frame>) {
    g == [] && l.stdout == [] && ((l.php == Head && Quiet(l.stdin)) || l.php == Exited)
  }

  ghost predicate Answered(l: Link, t: nat, g: seq<Frame>, kind: int) {
    if GoodKind(kind) then RightlyAnswered(l, t, g) else OddlyAnswered(l, g)
  }

  lemma EventKeepsLinkOk(maxJobs: nat, l: Link, e: Event)
    requires LinkOk(maxJobs, l) && CanHappen(l, e)
    ensures LinkOk(maxJobs, Happen(maxJobs, l, e)) && Happen(maxJobs, l, e).jobs == l.jobs
  {
  }

  lemma EventKeepsBooting(maxJobs: nat, l: Link, e: Event)
    requires LinkOk(maxJobs, l) && Booting(l) && CanHappen(l, e)
    ensures Booting(Happen(maxJobs, l, e))
  {
  }

  lemma EventKeepsIdle(maxJobs: nat, l: Link, e: Event)
    requires LinkOk(maxJobs, l) && Idle(l) && CanHappen(l, e)
    ensures Idle(Happen(maxJobs, l, e))
  {
  }

  /** The answers to t after e: one more if PHP emits. */
  function Grown(g: seq<Frame>, e: Event): seq<Frame> {
    if e.PhpEmit? then g + [e.f] else g
  }

  lemma QueuedAppend(stdin: seq<Inbound>, t: nat, kind: int, m: Inbound)
    requires Queued(stdin, t, kind) && m.call.None?
    ensures Queued(stdin + [m], t, kind)
  {
    var i :| 0 <= i < |stdin| && stdin[i].call == Some(t) && stdin[i].frame.kind == kind
      && Quiet(stdin[..i]) && Quiet(stdin[i + 1..]);
    assert (stdin + [m])[..i] == stdin[..i];
    assert (stdin + [m])[i + 1..] == stdin[i + 1..] + [m];
  }

  /** The front of a queue with one request is that request, or a frame nobody's Exec wrote. */
  lemma QueuedFront(stdin: seq<Inbound>, t: nat, kind: int)
    requires Queued(stdin, t, kind)
    ensures stdin != []
    ensures stdin[0].call.None? || (stdin[0].call == Some(t) && stdin[0].frame.kind == kind && Quiet(stdin[1..]))
  {
    var i :| 0 <= i < |stdin| && stdin[i].call == Some(t) && stdin[i].frame.kind == kind
      && Quiet(stdin[..i]) && Quiet(stdin[i + 1..]);
    if i > 0 { assert stdin[..i][0] == stdin[0]; }
  }

  lemma EventKeepsRightlyAsked(maxJobs: nat, l: Link, e: Event, t: nat, g: seq<Frame>, kind: int)
    requires LinkOk(maxJobs, l) && GoodKind(kind) && RightlyAsked(l, t, g, kind) && CanHappen(l, e)
    ensures RightlyAsked(Happen(maxJobs, l, e), t, if l.php.Handling? then Grown(g, e) else g, kind)
  {
    if l.php == Head && Queued(l.stdin, t, kind) {
      QueuedFront(l.stdin, t, kind);
      if e.StopWrite? { QueuedAppend(l.stdin, t, kind, Inbound(STOP, None)); }
    }
  }

  lemma EventKeepsOddlyAsked(maxJobs: nat, l: Link, e: Event, t: nat, g: seq<Frame>, kind: int)
    requires LinkOk(maxJobs, l) && !GoodKind(kind) && OddlyAsked(l, t, g, kind) && CanHappen(l, e)
    requires !NeedsRecycle(maxJobs, l.jobs)
    ensures OddlyAsked(Happen(maxJobs, l, e), t, g, kind)
  {
    if l.php == Head && Queued(l.stdin, t, kind) {
      QueuedFront(l.stdin, t, kind);
      if e.StopWrite? { QueuedAppend(l.stdin, t, kind, Inbound(STOP, None)); }
    }
  }

  lemma EventKeepsAsked(maxJobs: nat, l: Link, e: Event, t: nat, g: seq<Frame>, kind: int)
    requires LinkOk(maxJobs, l) && Asked(l, t, g, kind) && CanHappen(l, e)
    requires !GoodKind(kind) ==> !NeedsRecycle(maxJobs, l.jobs)
    ensures Asked(Happen(maxJobs, l, e), t, if l.php.Handling? then Grown(g, e) else g, kind)
  {
    hide LinkOk, CanHappen, Happen, RightlyAsked, GoodKind;
    if GoodKind(kind) {
      EventKeepsRightlyAsked(maxJobs, l, e, t, g, kind);
    } else {
      EventKeepsOddlyAsked(maxJobs, l, e, t, g, kind);
    }
  }

  lemma EventKeepsAnswered(maxJobs: nat, l: Link, e: Event, t: nat, g: seq<Frame>, kind: int)
    requires LinkOk(maxJobs, l) && Answered(l, t, g, kind) && CanHappen(l, e)
    ensures Answered(Happen(maxJobs, l, e), t, if l.php.Handling? then Grown(g, e) else g, kind)
  {
    if e.PhpEmit? && GoodKind(kind) { assert (g + [e.f])[1..] == g[1..] + [e.f]; }
  }

  /** While a call is under way, what PHP handles is that call's request. */
  lemma HandlesOwn(l: Link, t: nat, g: seq<Frame>, kind: int)
    requires Asked(l, t, g, kind) || Answered(l, t, g, kind)
    ensures l.php.Handling? ==> l.php.call == Some(t)
    ensures Answered(l, t, g, kind) && GoodKind(kind) ==> g != []
  {
  }

  // --- the whole system ---

  /** The Exec or its runner still has something to do with the worker. */
  predicate Busy(s: XState, t: nat) {
    t in s.calls && (s.calls[t].runner.ToWrite? || s.calls[t].runner.ToRead? || !s.calls[t].outer.Gone?)
  }

  predicate Occupies(s: State, u: nat, w: nat) {
    u in s.threads && (s.threads[u] == Holding(w)
                       || (s.threads[u].Sending? && s.threads[u].w == w)
                       || (s.threads[u].Spawning? && s.threads[u].id == w))
  }

  ghost predicate Rested(maxJobs: nat, s: XState, w: nat) {
    w in s.links && Idle(s.links[w]) && !NeedsRecycle(maxJobs, s.links[w].jobs)
  }

  ghost predicate ThreadOk(maxJobs: nat, s: XState, u: nat)
    requires u in s.pool.threads
  {
    match s.pool.threads[u]
    case Spawning(id, _) => id in s.links && Booting(s.links[id])
    case Sending(w, _) => Rested(maxJobs, s, w)
    case Holding(w) => u in s.calls && s.calls[u].w == w && !s.calls[u].outer.Gone?
    case Allocating => u !in s.calls
    case _ => true
  }

  /** The answers PHP wrote for t, and where they are. */
  ghost predicate CallPipes(maxJobs: nat, s: XState, t: nat)
    requires t in s.calls && t in s.log && s.calls[t].w in s.links
  {
    var (c, l, g) := (s.calls[t], s.links[s.calls[t].w], s.log[t]);
    match c.runner
    case ToWrite => g == [] && Idle(l) && !NeedsRecycle(maxJobs, l.jobs) && !c.outer.ReadingReady?
    case ToRead => Asked(l, t, g, c.req.kind) && !NeedsRecycle(maxJobs, l.jobs) && !c.outer.ReadingReady?
    case Got(f) =>
      !c.outer.Gone? ==>
        && Answered(l, t, g, c.req.kind) && (c.outer.ReadingReady? ==> !NeedsRecycle(maxJobs, l.jobs))
        && (GoodKind(c.req.kind) ==> g != [] && f == g[0])
    case Failed => !c.outer.ReadingReady?
  }

  ghost predicate CallPlace(s: XState, t: nat)
    requires t in s.calls
  {
    var c := s.calls[t];
    && c.w <= s.pool.nextID
    && (!c.outer.Gone? ==> t in s.pool.threads && s.pool.threads[t] == Holding(c.w))
    && (c.outer.Gone? && Busy(s, t) ==> c.w !in s.pool.available && forall u: nat :: !Occupies(s.pool, u, c.w))
  }

  ghost predicate CallOk(maxJobs: nat, s: XState, t: nat)
    requires t in s.calls
  {
    && s.calls[t].w in s.links && t in s.log
    && (forall i :: 0 <= i < |s.log[t]| ==> s.log[t][i].kind == TYPE_RESPONSE)
    && CallPipes(maxJobs, s, t)
    && CallPlace(s, t)
  }

  /** Requests on worker w's stdin and in its handler are of calls that were given w. */
  ghost predicate TagsOk(calls: map<nat, Call>, w: nat, l: Link) {
    && (forall i :: 0 <= i < |l.stdin| && l.stdin[i].call.Some? ==> GivenTo(calls, l.stdin[i].call.value, w))
    && (l.php.Handling? && l.php.call.Some? ==> GivenTo(calls, l.php.call.value, w))
  }

  predicate GivenTo(calls: map<nat, Call>, t: nat, w: nat) {
    t in calls && calls[t].w == w
  }

  ghost predicate ReplyOk(s: XState, t: nat)
    requires t in s.replies
  {
    t in s.calls && (GoodKind(s.calls[t].req.kind) ==> t in s.log && s.log[t] != [] && s.replies[t] == s.log[t][0])
  }

  ghost predicate LinksInv(maxJobs: nat, s: XState) {
    forall w: nat :: w in s.links ==>
      w <= s.pool.nextID && LinkOk(maxJobs, s.links[w]) && TagsOk(s.calls, w, s.links[w])
  }

  ghost predicate ChannelInv(maxJobs: nat, s: XState) {
    forall w: nat :: w in s.pool.available ==> Rested(maxJobs, s, w)
  }

  ghost predicate ThreadsInv(maxJobs: nat, s: XState) {
    forall u: nat :: u in s.pool.threads ==> ThreadOk(maxJobs, s, u)
  }

  ghost predicate CallsInv(maxJobs: nat, s: XState) {
    forall t: nat :: t in s.calls ==> CallOk(maxJobs, s, t)
  }

  /** No worker has two calls that still deal with it. */
  ghost predicate Apart(s: XState) {
    forall t: nat, u: nat :: Busy(s, t) && Busy(s, u) && s.calls[t].w == s.calls[u].w ==> t == u
  }

  ghost predicate RepliesInv(s: XState) {
    forall t: nat :: t in s.replies ==> ReplyOk(s, t)
  }

  ghost predicate XInv(maxJobs: nat, s: XState) {
    && Inv(s.pool)
    && LinksInv(maxJobs, s) && ChannelInv(maxJobs, s) && ThreadsInv(maxJobs, s)
    && CallsInv(maxJobs, s) && Apart(s) && RepliesInv(s)
  }

  /** A worker with a busy call is in no other hand. */
  lemma Sole(maxJobs: nat, s: XState, t: nat, u: nat)
    requires XInv(maxJobs, s) && Busy(s, t)
    ensures s.calls[t].w !in s.pool.available
    ensures Occupies(s.pool, u, s.calls[t].w) ==> u == t && s.pool.threads[t] == Holding(s.calls[t].w)
  {
    assert CallOk(maxJobs, s, t);
    var w := s.calls[t].w;
    if !s.calls[t].outer.Gone? {
      assert Has(s.pool, t, w);
      if Occupies(s.pool, u, w) { assert Has(s.pool, u, w); }
    }
  }

  // --- one worker's events ---

  lemma EventKeepsCall(maxJobs: nat, s: XState, s': XState, w: nat, e: Event, t: nat)
    requires XInv(maxJobs, s) && w in s.links && CanHappen(s.links[w], e)
    requires s' == SetLink(s.(log := Logged(s.log, s.links[w], e)), w, Happen(maxJobs, s.links[w], e))
    requires t in s.calls
    ensures CallOk(maxJobs, s', t)
  {
    hide Asked, Answered, Idle, LinkOk, Inv;
    var l := s.links[w];
    assert CallOk(maxJobs, s, t) && TagsOk(s.calls, w, l) && LinkOk(maxJobs, l);
    hide XInv;
    EventKeepsLinkOk(maxJobs, l, e);
    if s.calls[t].w == w {
      var kind := s.calls[t].req.kind;
      if s.calls[t].runner.ToRead? || (s.calls[t].runner.Got? && !s.calls[t].outer.Gone?) {
        HandlesOwn(l, t, s.log[t], kind);
      }
      match s.calls[t].runner
      case ToWrite => EventKeepsIdle(maxJobs, l, e);
      case ToRead => EventKeepsAsked(maxJobs, l, e, t, s.log[t], s.calls[t].req.kind);
      case Got(_) => if !s.calls[t].outer.Gone? { EventKeepsAnswered(maxJobs, l, e, t, s.log[t], s.calls[t].req.kind); }
      case Failed =>
    }
    assert CallPlace(s', t);
  }

  lemma EventKeepsTags(maxJobs: nat, l: Link, e: Event, calls: map<nat, Call>, w: nat)
    requires CanHappen(l, e) && TagsOk(calls, w, l)
    ensures TagsOk(calls, w, Happen(maxJobs, l, e))
  {
  }

  lemma EventKeepsReply(maxJobs: nat, s: XState, s': XState, w: nat, e: Event, t: nat)
    requires RepliesInv(s) && w in s.links && CanHappen(s.links[w], e) && t in s.replies
    requires s' == SetLink(s.(log := Logged(s.log, s.links[w], e)), w, Happen(maxJobs, s.links[w], e))
    ensures ReplyOk(s', t)
  {
    assert ReplyOk(s, t);
  }

  lemma EventKeepsInv(maxJobs: nat, s: XState, s': XState, w: nat, e: Event)
    requires XInv(maxJobs, s) && w in s.links && CanHappen(s.links[w], e)
    requires s' == SetLink(s.(log := Logged(s.log, s.links[w], e)), w, Happen(maxJobs, s.links[w], e))
    ensures XInv(maxJobs, s')
  {
    hide CanHappen, Happen, Logged, Booting, Idle, LinkOk, TagsOk, CallOk, ReplyOk, Inv;
    var l := s.links[w];
    assert LinkOk(maxJobs, l);
    EventKeepsLinkOk(maxJobs, l, e);
    if Idle(l) { EventKeepsIdle(maxJobs, l, e); }
    if Booting(l) { EventKeepsBooting(maxJobs, l, e); }
    forall t: nat | t in s'.calls ensures CallOk(maxJobs, s', t) { EventKeepsCall(maxJobs, s, s', w, e, t); }
    assert TagsOk(s.calls, w, l);
    EventKeepsTags(maxJobs, l, e, s.calls, w);
    forall v: nat | v in s'.pool.available ensures Rested(maxJobs, s', v) { assert Rested(maxJobs, s, v); }
    forall u: nat | u in s'.pool.threads ensures ThreadOk(maxJobs, s', u) { assert ThreadOk(maxJobs, s, u); }
    forall t: nat | t in s'.replies ensures ReplyOk(s', t) { EventKeepsReply(maxJobs, s, s', w, e, t); }
    assert forall t: nat :: Busy(s', t) ==> Busy(s, t);
  }

  // --- the runner of call t ---

  /** s' differs from s in t's runner and in its worker's pipes only. */
  predicate RunnerMoves(s: XState, s': XState, t: nat, l: Link, r: Runner)
    requires IsCall(s, t)
  {
    s' == SetCall(SetLink(s, s.calls[t].w, l), t, s.calls[t].(runner := r))
  }

  lemma RunnerKeepsCall(maxJobs: nat, s: XState, s': XState, t: nat, l: Link, r: Runner, u: nat)
    requires XInv(maxJobs, s) && IsCall(s, t) && RunnerMoves(s, s', t, l, r)
    requires s.calls[t].runner.ToWrite? || s.calls[t].runner.ToRead?
    requires t in s.log && CallPipes(maxJobs, s', t) && u in s.calls
    ensures CallOk(maxJobs, s', u)
  {
    hide Idle, Asked, Answered, Inv, LinksInv, ChannelInv, ThreadsInv, RepliesInv;
    assert CallOk(maxJobs, s, t) && CallOk(maxJobs, s, u);
    assert Busy(s, t);
    assert u != t && Busy(s, u) ==> s.calls[u].w != s.calls[t].w;
    assert CallPlace(s', u);
  }

  lemma RunnerKeepsThread(maxJobs: nat, s: XState, s': XState, t: nat, l: Link, r: Runner, u: nat)
    requires XInv(maxJobs, s) && IsCall(s, t) && RunnerMoves(s, s', t, l, r)
    requires s.calls[t].runner.ToWrite? || s.calls[t].runner.ToRead?
    requires u in s.pool.threads
    ensures ThreadOk(maxJobs, s', u)
  {
    hide Idle, Booting, Inv, LinksInv, ChannelInv, CallsInv, RepliesInv, Apart;
    assert ThreadOk(maxJobs, s, u);
    Sole(maxJobs, s, t, u);
  }

  lemma RunnerKeepsInv(maxJobs: nat, s: XState, s': XState, t: nat, l: Link, r: Runner)
    requires XInv(maxJobs, s) && IsCall(s, t) && RunnerMoves(s, s', t, l, r)
    requires s.calls[t].runner.ToWrite? || s.calls[t].runner.ToRead?
    requires LinkOk(maxJobs, l) && TagsOk(s'.calls, s.calls[t].w, l)
    requires t in s.log && CallPipes(maxJobs, s', t)
    ensures XInv(maxJobs, s')
  {
    hide Idle, Booting, Asked, Answered, LinkOk, TagsOk, Inv, CallOk, CallPipes, ThreadOk, NeedsRecycle;
    var w := s.calls[t].w;
    Sole(maxJobs, s, t, t);
    assert forall u: nat :: Busy(s', u) ==> Busy(s, u);
    forall u: nat | u in s'.calls ensures CallOk(maxJobs, s', u) { RunnerKeepsCall(maxJobs, s, s', t, l, r, u); }
    forall u: nat | u in s'.pool.threads ensures ThreadOk(maxJobs, s', u) {
      RunnerKeepsThread(maxJobs, s, s', t, l, r, u);
    }
    forall v: nat | v in s'.pool.available ensures Rested(maxJobs, s', v) { assert Rested(maxJobs, s, v); }
    forall v: nat | v in s'.links
      ensures v <= s'.pool.nextID && LinkOk(maxJobs, s'.links[v]) && TagsOk(s'.calls, v, s'.links[v])
    {
      SameTags(s.calls, s'.calls);
      assert v != w ==> TagsOk(s.calls, v, s.links[v]) && LinkOk(maxJobs, s.links[v]);
    }
    forall u: nat | u in s'.replies ensures ReplyOk(s', u) { assert ReplyOk(s, u); }
  }

  lemma WriteQueues(stdin: seq<Inbound>, t: nat, req: Frame)
    requires Quiet(stdin)
    ensures Queued(stdin + [Inbound(req, Some(t))], t, req.kind)
  {
    var q := stdin + [Inbound(req, Some(t))];
    assert q[..|stdin|] == stdin && q[|stdin| + 1..] == [];
    assert q[|stdin|].call == Some(t);
  }

  lemma CallFacts(maxJobs: nat, s: XState, t: nat)
    requires XInv(maxJobs, s) && IsCall(s, t)
    ensures CallOk(maxJobs, s, t)
    ensures LinkOk(maxJobs, s.links[s.calls[t].w]) && TagsOk(s.calls, s.calls[t].w, s.links[s.calls[t].w])
  {
    hide Inv, CallOk, LinkOk, TagsOk;
  }

  lemma RunWriteKeepsInv(cfg: Config, maxJobs: nat, s: XState, t: nat)
    requires XInv(maxJobs, s) && XEnabled(cfg, maxJobs, s, RunWrite(t))
    ensures XInv(maxJobs, XApply(cfg, maxJobs, s, RunWrite(t)))
  {
    hide Apply, Enabled, XInv, CallPlace;
    var s' := XApply(cfg, maxJobs, s, RunWrite(t));
    var c := s.calls[t];
    var l := s.links[c.w];
    CallFacts(maxJobs, s, t);
    WriteQueues(l.stdin, t, c.req);
    var l' := l.(stdin := l.stdin + [Inbound(c.req, Some(t))]);
    assert Asked(l', t, s.log[t], c.req.kind);
    RunnerKeepsInv(maxJobs, s, s', t, l', ToRead);
  }

  lemma ReadAnswers(l: Link, t: nat, g: seq<Frame>, kind: int)
    requires Asked(l, t, g, kind) && l.stdout != []
    ensures GoodKind(kind) ==> g != [] && l.stdout[0] == g[0]
    ensures Answered(DropFirst(l).(jobs := l.jobs + 1), t, g, kind)
  {
    assert g != [] ==> (g + [READY])[1..] == g[1..] + [READY];
  }

  lemma RunReadKeepsInv(cfg: Config, maxJobs: nat, s: XState, t: nat)
    requires XInv(maxJobs, s) && XEnabled(cfg, maxJobs, s, RunRead(t))
    ensures XInv(maxJobs, XApply(cfg, maxJobs, s, RunRead(t)))
  {
    hide Apply, Enabled, XInv, CallPlace;
    var s' := XApply(cfg, maxJobs, s, RunRead(t));
    var c := s.calls[t];
    var l := s.links[c.w];
    CallFacts(maxJobs, s, t);
    ReadAnswers(l, t, s.log[t], c.req.kind);
    RunnerKeepsInv(maxJobs, s, s', t, DropFirst(l).(jobs := l.jobs + 1), Got(l.stdout[0]));
  }

  lemma RunFailedKeepsInv(maxJobs: nat, s: XState, t: nat)
    requires XInv(maxJobs, s) && IsCall(s, t) && (s.calls[t].runner.ToWrite? || s.calls[t].runner.ToRead?)
    ensures XInv(maxJobs, RunFailed(s, t))
  {
    hide XInv, CallPlace;
    var c := s.calls[t];
    var l := s.links[c.w];
    CallFacts(maxJobs, s, t);
    RunnerKeepsInv(maxJobs, s, RunFailed(s, t), t, l.(jobs := l.jobs + 1), Failed);
  }

  // --- pool actions ---

  lemma StepOccupies(cfg: Config, s: State, a: Action, u: nat, w: nat)
    requires Enabled(cfg, s, a) && Occupies(Apply(cfg, s, a), u, w)
    ensures || Occupies(s, u, w)
            || (a.BeginSpawn? && w == s.nextID + 1)
            || (a.ExecReceive? && u == a.t && w == s.available[0])
  {
  }

  /** How a thread came to start, hand over or hold its worker. */
  lemma StepRole(cfg: Config, s: State, a: Action, u: nat)
    requires Enabled(cfg, s, a) && u in Apply(cfg, s, a).threads
    ensures var th := Apply(cfg, s, a).threads[u];
      && (th.Spawning? ==>
            || (u in s.threads && s.threads[u] == th && a != SpawnOk(u))
            || (a == BeginSpawn(u) && th.id == s.nextID + 1))
      && (th.Sending? ==>
            || (u in s.threads && s.threads[u] == th)
            || (a == SpawnOk(u) && s.threads[u].id == th.w)
            || (a == ExecKeep(u) && s.threads[u] == Holding(th.w)))
      && (th.Holding? ==> (u in s.threads && s.threads[u] == th) || (a == ExecReceive(u) && th.w == s.available[0]))
      && (th.Allocating? ==> (u in s.threads && s.threads[u] == th) || a == ExecArrive(u))
  {
  }

  lemma StepHolding(cfg: Config, s: State, a: Action, u: nat)
    requires Enabled(cfg, s, a) && u in s.threads && s.threads[u].Holding?
    ensures || a == ExecKeep(u)
            || (a.ExecRetire? && a.t == u)
            || (u in Apply(cfg, s, a).threads && Apply(cfg, s, a).threads[u] == s.threads[u])
  {
  }

  lemma StepNextID(cfg: Config, s: State, a: Action)
    requires Enabled(cfg, s, a)
    ensures Apply(cfg, s, a).nextID == if a.BeginSpawn? then s.nextID + 1 else s.nextID
  {
  }

  /** A retired worker that a runner still deals with stays out of every hand. */
  lemma StepKeepsRetired(cfg: Config, maxJobs: nat, s: XState, a: Action, t: nat)
    requires XInv(maxJobs, s) && Enabled(cfg, s.pool, a)
    requires Busy(s, t) && s.calls[t].outer.Gone?
    ensures var p := Apply(cfg, s.pool, a);
      s.calls[t].w !in p.available && forall u: nat :: !Occupies(p, u, s.calls[t].w)
  {
    hide Apply, Inv, CallPipes;
    assert CallOk(maxJobs, s, t) && CallPlace(s, t);
    var w := s.calls[t].w;
    StepChannel(cfg, s.pool, a);
    if a.Send? { assert Occupies(s.pool, a.t, s.pool.threads[a.t].w); }
    forall u: nat ensures !Occupies(Apply(cfg, s.pool, a), u, w) {
      if Occupies(Apply(cfg, s.pool, a), u, w) { StepOccupies(cfg, s.pool, a, u, w); }
    }
  }

  /** The links after a pool action: a new one for a started process, READY taken from one that is up. */
  function LinksAfter(s: XState, a: Action): map<nat, Link>
    requires PoolGuard(s, a)
  {
    if a.BeginSpawn? then s.links[s.pool.nextID + 1 := NEW_LINK]
    else if a.SpawnOk? then s.links[s.pool.threads[a.t].id := DropFirst(s.links[s.pool.threads[a.t].id])]
    else s.links
  }

  function PoolStep(cfg: Config, s: XState, a: Action): XState
    requires Enabled(cfg, s.pool, a) && PoolGuard(s, a)
  {
    s.(pool := Apply(cfg, s.pool, a), links := LinksAfter(s, a))
  }

  lemma NewLinkBoots()
    ensures Booting(NEW_LINK)
  {
  }

  lemma FirstReady(l: Link)
    requires Booting(l) && l.stdout != []
    ensures Idle(DropFirst(l)) && l.jobs == 0
  {
  }

  lemma PoolKeepsThread(cfg: Config, maxJobs: nat, s: XState, a: Action, u: nat)
    requires XInv(maxJobs, s) && Enabled(cfg, s.pool, a) && PoolGuard(s, a)
    requires u in Apply(cfg, s.pool, a).threads
    ensures ThreadOk(maxJobs, PoolStep(cfg, s, a), u)
  {
    hide Apply, Idle, Booting, LinksInv, ChannelInv, CallsInv, Apart, RepliesInv, Enabled;
    var s' := PoolStep(cfg, s, a);
    StepRole(cfg, s.pool, a, u);
    if u in s.pool.threads { assert ThreadOk(maxJobs, s, u); }
    if a.SpawnOk? {
      var id := s.pool.threads[a.t].id;
      assert ThreadOk(maxJobs, s, a.t) && Has(s.pool, a.t, id);
      FirstReady(s.links[id]);
      assert u in s.pool.threads && Has(s.pool, u, id) ==> u == a.t;
    }
    if a.BeginSpawn? {
      NewLinkBoots();
      assert u in s.pool.threads ==> !Knows(s.pool, u, s.pool.nextID + 1);
    }
  }

  lemma PoolKeepsPlace(cfg: Config, maxJobs: nat, s: XState, a: Action, t: nat)
    requires XInv(maxJobs, s) && Enabled(cfg, s.pool, a) && PoolGuard(s, a) && t in s.calls
    ensures CallPlace(PoolStep(cfg, s, a), t)
  {
    hide Apply, CallPipes, LinksInv, ChannelInv, ThreadsInv, Apart, RepliesInv, Inv;
    assert CallOk(maxJobs, s, t);
    StepNextID(cfg, s.pool, a);
    if Busy(s, t) {
      if s.calls[t].outer.Gone? { StepKeepsRetired(cfg, maxJobs, s, a, t); } else { StepHolding(cfg, s.pool, a, t); }
    }
  }

  lemma PoolKeepsCall(cfg: Config, maxJobs: nat, s: XState, a: Action, t: nat)
    requires XInv(maxJobs, s) && Enabled(cfg, s.pool, a) && PoolGuard(s, a) && t in s.calls
    ensures CallOk(maxJobs, PoolStep(cfg, s, a), t)
  {
    PoolKeepsPlace(cfg, maxJobs, s, a, t);
    KnownLink(cfg, maxJobs, s, a, t);
    assert CallOk(maxJobs, s, t);
    hide Apply, Enabled, PoolGuard, LinksAfter, XInv, CallOk, CallPlace, Busy;
    SamePipes(maxJobs, s, PoolStep(cfg, s, a), t);
  }

  lemma SamePipes(maxJobs: nat, s: XState, s': XState, t: nat)
    requires t in s.calls && CallOk(maxJobs, s, t) && s'.calls == s.calls && s'.log == s.log
    requires s.calls[t].w in s'.links && CallPlace(s', t)
    requires Busy(s, t) ==> s'.links[s.calls[t].w] == s.links[s.calls[t].w]
    ensures CallOk(maxJobs, s', t)
  {
    hide Idle, Asked, Answered, CallPlace, NeedsRecycle;
  }

  /** The link of a busy call is neither made nor read by a pool action. */
  lemma KnownLink(cfg: Config, maxJobs: nat, s: XState, a: Action, t: nat)
    requires XInv(maxJobs, s) && Enabled(cfg, s.pool, a) && PoolGuard(s, a) && t in s.calls
    ensures s.calls[t].w in LinksAfter(s, a)
    ensures Busy(s, t) ==> LinksAfter(s, a)[s.calls[t].w] == s.links[s.calls[t].w]
  {
    assert CallOk(maxJobs, s, t);
    if Busy(s, t) && a.SpawnOk? { Sole(maxJobs, s, t, a.t); }
    hide XInv, Apply, CallPipes;
  }

  lemma PoolKeepsChannel(cfg: Config, maxJobs: nat, s: XState, a: Action, w: nat)
    requires XInv(maxJobs, s) && Enabled(cfg, s.pool, a) && PoolGuard(s, a)
    requires w in Apply(cfg, s.pool, a).available
    ensures Rested(maxJobs, PoolStep(cfg, s, a), w)
  {
    hide Apply, Idle, Booting, LinksInv, CallsInv, Apart, RepliesInv;
    StepChannel(cfg, s.pool, a);
    NoDupEnds(s.pool.available, 0);
    if a.Send? { assert ThreadOk(maxJobs, s, a.t); }
    if a.SpawnOk? { assert Has(s.pool, a.t, s.pool.threads[a.t].id); }
    assert w in s.pool.available ==> Rested(maxJobs, s, w);
  }

  lemma PoolKeepsLink(cfg: Config, maxJobs: nat, s: XState, a: Action, w: nat)
    requires XInv(maxJobs, s) && Enabled(cfg, s.pool, a) && PoolGuard(s, a)
    requires w in LinksAfter(s, a)
    ensures var s' := PoolStep(cfg, s, a);
      w <= s'.pool.nextID && LinkOk(maxJobs, s'.links[w]) && TagsOk(s'.calls, w, s'.links[w])
  {
    hide Apply, Inv, ChannelInv, ThreadsInv, CallsInv, Apart, RepliesInv;
    StepNextID(cfg, s.pool, a);
    if w in s.links { assert LinkOk(maxJobs, s.links[w]) && TagsOk(s.calls, w, s.links[w]); }
  }

  lemma PoolKeepsInv(cfg: Config, maxJobs: nat, s: XState, a: Action)
    requires XInv(maxJobs, s) && Enabled(cfg, s.pool, a) && PoolGuard(s, a)
    ensures XInv(maxJobs, PoolStep(cfg, s, a))
  {
    hide Apply, Enabled, LinksAfter, Inv, CallOk, ThreadOk, Rested, LinkOk, TagsOk;
    var s' := PoolStep(cfg, s, a);
    StepKeepsInv(cfg, s.pool, a);
    forall u: nat | u in s'.pool.threads ensures ThreadOk(maxJobs, s', u) { PoolKeepsThread(cfg, maxJobs, s, a, u); }
    forall t: nat | t in s'.calls ensures CallOk(maxJobs, s', t) { PoolKeepsCall(cfg, maxJobs, s, a, t); }
    forall w: nat | w in s'.pool.available ensures Rested(maxJobs, s', w) { PoolKeepsChannel(cfg, maxJobs, s, a, w); }
    forall w: nat | w in s'.links
      ensures w <= s'.pool.nextID && LinkOk(maxJobs, s'.links[w]) && TagsOk(s'.calls, w, s'.links[w])
    {
      PoolKeepsLink(cfg, maxJobs, s, a, w);
    }
    forall t: nat | t in s'.replies ensures ReplyOk(s', t) { assert ReplyOk(s, t); }
    assert forall t: nat :: Busy(s', t) <==> Busy(s, t);
  }

  // --- an Exec gives its worker up ---

  predicate Leaves(a: Action, t: nat) {
    a == ExecKeep(t) || (a.ExecRetire? && a.t == t)
  }

  /** Exec t ends: it returns the worker or hands it to replaceWorker, having left its pipes as l. */
  function Left(cfg: Config, s: XState, t: nat, a: Action, l: Link): XState
    requires IsCall(s, t) && Enabled(cfg, s.pool, a)
  {
    SetCall(SetLink(s.(pool := Apply(cfg, s.pool, a)), s.calls[t].w, l), t, s.calls[t].(outer := Gone))
  }

  /** What an Exec may leave: a worker it returns is at rest, one whose runner is still on is as it was. */
  ghost predicate LeavesWell(maxJobs: nat, s: XState, t: nat, a: Action, l: Link)
    requires IsCall(s, t)
  {
    && !s.calls[t].outer.Gone? && Leaves(a, t)
    && LinkOk(maxJobs, l) && TagsOk(s.calls, s.calls[t].w, l)
    && (l == s.links[s.calls[t].w] || s.calls[t].runner.Got?)
    && (a.ExecKeep? ==> s.calls[t].runner.Got? && Idle(l) && !NeedsRecycle(maxJobs, l.jobs))
  }

  lemma RetireEndsThread(cfg: Config, s: State, a: Action)
    requires Enabled(cfg, s, a) && a.ExecRetire?
    ensures a.t !in Apply(cfg, s, a).threads
  {
  }

  lemma LeaveKeepsThread(cfg: Config, maxJobs: nat, s: XState, t: nat, a: Action, l: Link, u: nat)
    requires XInv(maxJobs, s) && IsCall(s, t) && Enabled(cfg, s.pool, a) && LeavesWell(maxJobs, s, t, a, l)
    requires u in Apply(cfg, s.pool, a).threads
    ensures ThreadOk(maxJobs, Left(cfg, s, t, a, l), u)
  {
    hide Apply, Idle, Booting, LinkOk, TagsOk, Inv, LinksInv, ChannelInv, Apart, RepliesInv, Enabled;
    StepRole(cfg, s.pool, a, u);
    Sole(maxJobs, s, t, u);
    assert CallOk(maxJobs, s, t);
    if u in s.pool.threads { assert ThreadOk(maxJobs, s, u); }
    if a.ExecRetire? { RetireEndsThread(cfg, s.pool, a); }
    if a.ExecKeep? && u == t { KeepSends(cfg, s.pool, a); }
  }

  lemma KeepSends(cfg: Config, s: State, a: Action)
    requires Enabled(cfg, s, a) && a.ExecKeep?
    ensures a.t in Apply(cfg, s, a).threads && Apply(cfg, s, a).threads[a.t] == Sending(s.threads[a.t].w, Returning)
  {
  }

  lemma LeaveKeepsCall(cfg: Config, maxJobs: nat, s: XState, t: nat, a: Action, l: Link, u: nat)
    requires XInv(maxJobs, s) && IsCall(s, t) && Enabled(cfg, s.pool, a) && LeavesWell(maxJobs, s, t, a, l)
    requires u in s.calls
    ensures CallOk(maxJobs, Left(cfg, s, t, a, l), u)
  {
    hide Apply, Idle, Asked, Answered, LinkOk, TagsOk, Inv, LinksInv, ChannelInv, ThreadsInv, RepliesInv;
    var s' := Left(cfg, s, t, a, l);
    var w := s.calls[t].w;
    assert CallOk(maxJobs, s, u) && CallOk(maxJobs, s, t);
    StepNextID(cfg, s.pool, a);
    StepChannel(cfg, s.pool, a);
    assert Busy(s, t);
    if u != t && Busy(s, u) {
      assert s.calls[u].w != w;
      if s.calls[u].outer.Gone? { StepKeepsRetired(cfg, maxJobs, s, a, u); } else { StepHolding(cfg, s.pool, a, u); }
    } else if u == t && a.ExecRetire? {
      RetireEndsThread(cfg, s.pool, a);
      forall v: nat ensures !Occupies(s'.pool, v, w) {
        if Occupies(s'.pool, v, w) { StepOccupies(cfg, s.pool, a, v, w); Sole(maxJobs, s, t, v); }
      }
      Sole(maxJobs, s, t, t);
    }
    assert CallPipes(maxJobs, s', u);
    assert CallPlace(s', u);
  }

  lemma LeaveKeepsInv(cfg: Config, maxJobs: nat, s: XState, t: nat, a: Action, l: Link)
    requires XInv(maxJobs, s) && IsCall(s, t) && Enabled(cfg, s.pool, a) && LeavesWell(maxJobs, s, t, a, l)
    ensures XInv(maxJobs, Left(cfg, s, t, a, l))
  {
    hide Apply, Enabled, Inv, CallOk, ThreadOk, Idle, LinkOk, TagsOk;
    var s' := Left(cfg, s, t, a, l);
    StepKeepsInv(cfg, s.pool, a);
    StepNextID(cfg, s.pool, a);
    StepChannel(cfg, s.pool, a);
    Sole(maxJobs, s, t, t);
    forall u: nat | u in s'.pool.threads ensures ThreadOk(maxJobs, s', u) {
      LeaveKeepsThread(cfg, maxJobs, s, t, a, l, u);
    }
    forall u: nat | u in s'.calls ensures CallOk(maxJobs, s', u) { LeaveKeepsCall(cfg, maxJobs, s, t, a, l, u); }
    forall v: nat | v in s'.pool.available ensures Rested(maxJobs, s', v) { assert Rested(maxJobs, s, v); }
    SameTags(s.calls, s'.calls);
    forall v: nat | v in s'.links
      ensures v <= s'.pool.nextID && LinkOk(maxJobs, s'.links[v]) && TagsOk(s'.calls, v, s'.links[v])
    {
      assert v in s.links && TagsOk(s.calls, v, s.links[v]) && LinkOk(maxJobs, s.links[v]);
    }
    forall u: nat | u in s'.replies ensures ReplyOk(s', u) { assert ReplyOk(s, u); }
    assert forall u: nat :: Busy(s', u) ==> Busy(s, u);
  }

  /** Tags only depend on which worker each call was given. */
  lemma SameTags(calls: map<nat, Call>, calls': map<nat, Call>)
    requires forall t: nat :: t in calls ==> t in calls' && calls'[t].w == calls[t].w
    ensures forall w: nat, l: Link :: TagsOk(calls, w, l) ==> TagsOk(calls', w, l)
  {
    assert forall t: nat, w: nat :: GivenTo(calls, t, w) ==> GivenTo(calls', t, w);
  }

  /** An Exec reports the first frame PHP wrote for it. */
  lemma ReplyKeepsInv(maxJobs: nat, s: XState, t: nat, f: Frame)
    requires XInv(maxJobs, s) && t in s.calls
    requires GoodKind(s.calls[t].req.kind) ==> t in s.log && s.log[t] != [] && f == s.log[t][0]
    ensures XInv(maxJobs, Reply(s, t, f))
  {
    hide Inv, Idle, Booting, Asked, Answered, LinkOk, TagsOk;
    var s' := Reply(s, t, f);
    forall u: nat | u in s'.replies ensures ReplyOk(s', u) { assert u != t ==> ReplyOk(s, u); }
    forall u: nat | u in s'.calls ensures CallOk(maxJobs, s', u) { assert CallOk(maxJobs, s, u); }
    forall u: nat | u in s'.pool.threads ensures ThreadOk(maxJobs, s', u) { assert ThreadOk(maxJobs, s, u); }
    forall v: nat | v in s'.pool.available ensures Rested(maxJobs, s', v) { assert Rested(maxJobs, s, v); }
    assert forall u: nat :: Busy(s', u) <==> Busy(s, u);
  }

  lemma TimeoutKeepsInv(cfg: Config, maxJobs: nat, s: XState, t: nat, n: nat)
    requires XInv(maxJobs, s) && IsCall(s, t) && !s.calls[t].outer.Gone? && Enabled(cfg, s.pool, ExecRetire(t, n))
    ensures XInv(maxJobs, Retire(cfg, s, t, n))
  {
    hide Apply, Enabled, CallOk, LinkOk, TagsOk;
    var l := s.links[s.calls[t].w];
    assert LinkOk(maxJobs, l) && TagsOk(s.calls, s.calls[t].w, l);
    LeaveKeepsInv(cfg, maxJobs, s, t, ExecRetire(t, n), l);
    assert s.links[s.calls[t].w := l] == s.links;
  }

  lemma CollectKeepsInv(cfg: Config, maxJobs: nat, s: XState, t: nat, n: nat)
    requires XInv(maxJobs, s) && XEnabled(cfg, maxJobs, s, Collect(t, n))
    ensures XInv(maxJobs, XApply(cfg, maxJobs, s, Collect(t, n)))
  {
    hide Apply, Enabled;
    assert CallOk(maxJobs, s, t);
    if Retires(maxJobs, s, t) {
      TimeoutKeepsInv(cfg, maxJobs, s, t, n);
      if s.calls[t].runner.Got? { ReplyKeepsInv(maxJobs, Retire(cfg, s, t, n), t, s.calls[t].runner.frame); }
    } else {
      WaitKeepsInv(maxJobs, s, t);
    }
  }

  /** An Exec goes on to wait for READY: what holds of the others, the threads and the replies stays. */
  lemma WaitKeepsParts(maxJobs: nat, s: XState, t: nat, u: nat)
    requires XInv(maxJobs, s) && IsCall(s, t) && s.calls[t].outer.Await? && s.calls[t].runner.Got?
    requires !NeedsRecycle(maxJobs, s.links[s.calls[t].w].jobs)
    ensures var s' := SetCall(s, t, s.calls[t].(outer := ReadingReady));
      && Busy(s', u) == Busy(s, u)
      && (u in s'.calls ==> CallOk(maxJobs, s', u))
      && (u in s'.pool.threads ==> ThreadOk(maxJobs, s', u))
      && (u in s'.replies ==> ReplyOk(s', u))
  {
    hide Idle, Booting, Asked, Answered, Inv, LinksInv, ChannelInv, NeedsRecycle, Occupies;
    if u in s.calls { assert CallOk(maxJobs, s, u); }
    if u in s.pool.threads { assert ThreadOk(maxJobs, s, u); }
    if u in s.replies { assert ReplyOk(s, u); }
  }

  lemma WaitKeepsInv(maxJobs: nat, s: XState, t: nat)
    requires XInv(maxJobs, s) && IsCall(s, t) && s.calls[t].outer.Await? && s.calls[t].runner.Got?
    requires !NeedsRecycle(maxJobs, s.links[s.calls[t].w].jobs)
    ensures XInv(maxJobs, SetCall(s, t, s.calls[t].(outer := ReadingReady)))
  {
    hide LinkOk, TagsOk, Inv, CallOk, ThreadOk, ReplyOk, Idle, NeedsRecycle;
    var s' := SetCall(s, t, s.calls[t].(outer := ReadingReady));
    SameTags(s.calls, s'.calls);
    forall u: nat
      ensures Busy(s', u) == Busy(s, u)
      ensures u in s'.calls ==> CallOk(maxJobs, s', u)
      ensures u in s'.pool.threads ==> ThreadOk(maxJobs, s', u)
      ensures u in s'.replies ==> ReplyOk(s', u)
    {
      WaitKeepsParts(maxJobs, s, t, u);
    }
    forall v: nat | v in s'.pool.available ensures Rested(maxJobs, s', v) { assert Rested(maxJobs, s, v); }
    forall v: nat | v in s'.links ensures LinkOk(maxJobs, s'.links[v]) && TagsOk(s'.calls, v, s'.links[v]) {
      assert LinkOk(maxJobs, s.links[v]) && TagsOk(s.calls, v, s.links[v]);
    }
  }

  /** READY can only be read when nothing else is left to read. */
  lemma ReadyLeavesIdle(l: Link, t: nat, g: seq<Frame>, kind: int)
    requires Answered(l, t, g, kind) && l.stdout != [] && l.stdout[0].kind == TYPE_WORKER_READY
    requires forall i :: 0 <= i < |g| ==> g[i].kind == TYPE_RESPONSE
    ensures Idle(DropFirst(l))
  {
  }

  lemma DropKeepsLink(maxJobs: nat, calls: map<nat, Call>, w: nat, l: Link)
    requires l.stdout != [] && LinkOk(maxJobs, l) && TagsOk(calls, w, l)
    ensures LinkOk(maxJobs, DropFirst(l)) && TagsOk(calls, w, DropFirst(l))
  {
  }

  lemma ReadyFrameKeepsInv(cfg: Config, maxJobs: nat, s: XState, t: nat, n: nat)
    requires XInv(maxJobs, s) && XEnabled(cfg, maxJobs, s, ReadyFrame(t, n))
    ensures XInv(maxJobs, XApply(cfg, maxJobs, s, ReadyFrame(t, n)))
  {
    hide Apply, Enabled, Idle, Answered, Asked, LinkOk, TagsOk, Inv, Apart, RepliesInv, ThreadsInv, ChannelInv;
    var c := s.calls[t];
    var l := s.links[c.w];
    assert CallOk(maxJobs, s, t) && CallPipes(maxJobs, s, t) && LinkOk(maxJobs, l) && TagsOk(s.calls, c.w, l);
    DropKeepsLink(maxJobs, s.calls, c.w, l);
    var a := if l.stdout[0].kind == TYPE_WORKER_READY then ExecKeep(t) else ExecRetire(t, n);
    if a.ExecKeep? { ReadyLeavesIdle(l, t, s.log[t], c.req.kind); }
    LeaveKeepsInv(cfg, maxJobs, s, t, a, DropFirst(l));
    ReplyKeepsInv(maxJobs, Left(cfg, s, t, a, DropFirst(l)), t, c.runner.frame);
    assert XApply(cfg, maxJobs, s, ReadyFrame(t, n)) == Reply(Left(cfg, s, t, a, DropFirst(l)), t, c.runner.frame);
  }

  lemma ReadyFailKeepsInv(cfg: Config, maxJobs: nat, s: XState, t: nat, n: nat)
    requires XInv(maxJobs, s) && XEnabled(cfg, maxJobs, s, ReadyFail(t, n))
    ensures XInv(maxJobs, XApply(cfg, maxJobs, s, ReadyFail(t, n)))
  {
    hide Apply, Enabled;
    assert CallOk(maxJobs, s, t);
    TimeoutKeepsInv(cfg, maxJobs, s, t, n);
    ReplyKeepsInv(maxJobs, Retire(cfg, s, t, n), t, s.calls[t].runner.frame);
  }

  // --- an Exec receives a worker ---

  lemma ReceiveKeepsCall(cfg: Config, maxJobs: nat, s: XState, t: nat, req: Frame, u: nat)
    requires XInv(maxJobs, s) && XEnabled(cfg, maxJobs, s, Receive(t, req))
    requires u in s.calls && u != t
    ensures CallOk(maxJobs, XApply(cfg, maxJobs, s, Receive(t, req)), u)
  {
    hide Apply, Idle, Asked, Answered, Inv, LinksInv, ChannelInv, ThreadsInv, RepliesInv;
    var a := ExecReceive(t);
    var s' := XApply(cfg, maxJobs, s, Receive(t, req));
    assert CallOk(maxJobs, s, u);
    StepNextID(cfg, s.pool, a);
    if Busy(s, u) {
      if s.calls[u].outer.Gone? { StepKeepsRetired(cfg, maxJobs, s, a, u); } else { StepHolding(cfg, s.pool, a, u); }
    }
    assert CallPipes(maxJobs, s', u);
    assert CallPlace(s', u);
  }

  lemma ReceiveHolds(cfg: Config, s: State, t: nat)
    requires Enabled(cfg, s, ExecReceive(t))
    ensures var s' := Apply(cfg, s, ExecReceive(t));
      s.threads[t].Allocating? && t in s'.threads && s'.threads[t] == Holding(s.available[0])
  {
  }

  lemma ReceiveKeepsThread(cfg: Config, maxJobs: nat, s: XState, t: nat, req: Frame, u: nat)
    requires XInv(maxJobs, s) && XEnabled(cfg, maxJobs, s, Receive(t, req))
    requires u in Apply(cfg, s.pool, ExecReceive(t)).threads
    ensures ThreadOk(maxJobs, XApply(cfg, maxJobs, s, Receive(t, req)), u)
  {
    hide Apply, Idle, Booting, Inv, LinksInv, ChannelInv, CallsInv, Apart, RepliesInv;
    StepRole(cfg, s.pool, ExecReceive(t), u);
    ReceiveHolds(cfg, s.pool, t);
    if u in s.pool.threads { assert ThreadOk(maxJobs, s, u); }
  }

  /** The new call, at the start of its work. */
  lemma ReceiveStartsCall(cfg: Config, maxJobs: nat, s: XState, t: nat, req: Frame)
    requires XInv(maxJobs, s) && XEnabled(cfg, maxJobs, s, Receive(t, req))
    ensures CallOk(maxJobs, XApply(cfg, maxJobs, s, Receive(t, req)), t)
  {
    hide Apply, Idle, Booting, LinkOk, TagsOk, Asked, Answered, LinksInv, ThreadsInv, CallsInv, Apart, RepliesInv;
    ReceiveHolds(cfg, s.pool, t);
    StepNextID(cfg, s.pool, ExecReceive(t));
    var (s', w) := (XApply(cfg, maxJobs, s, Receive(t, req)), s.pool.available[0]);
    assert Rested(maxJobs, s, w) && w in s.pool.available;
    assert s'.calls[t] == Call(w, req, ToWrite, Await) && s'.log[t] == [] && s'.links == s.links;
    assert CallPlace(s', t) && CallPipes(maxJobs, s', t);
  }

  lemma ReceiveKeepsLink(cfg: Config, maxJobs: nat, s: XState, t: nat, req: Frame, v: nat)
    requires XInv(maxJobs, s) && XEnabled(cfg, maxJobs, s, Receive(t, req)) && v in s.links
    ensures var s' := XApply(cfg, maxJobs, s, Receive(t, req));
      v <= s'.pool.nextID && LinkOk(maxJobs, s'.links[v]) && TagsOk(s'.calls, v, s'.links[v])
  {
    hide Apply, LinkOk, TagsOk, Inv, ChannelInv, ThreadsInv, CallsInv, Apart, RepliesInv;
    StepNextID(cfg, s.pool, ExecReceive(t));
    ReceiverIsNew(maxJobs, s, t);
    SameTags(s.calls, XApply(cfg, maxJobs, s, Receive(t, req)).calls);
  }

  lemma ReceiverIsNew(maxJobs: nat, s: XState, t: nat)
    requires XInv(maxJobs, s) && t in s.pool.threads && s.pool.threads[t].Allocating?
    ensures t !in s.calls && t !in s.replies
  {
    hide Inv, LinksInv, ChannelInv, CallsInv, Apart;
    assert ThreadOk(maxJobs, s, t);
    assert forall u: nat :: u in s.replies ==> ReplyOk(s, u) && u in s.calls;
  }

  lemma ReceiveKeepsInv(cfg: Config, maxJobs: nat, s: XState, t: nat, req: Frame)
    requires XInv(maxJobs, s) && XEnabled(cfg, maxJobs, s, Receive(t, req))
    ensures XInv(maxJobs, XApply(cfg, maxJobs, s, Receive(t, req)))
  {
    hide Apply, CallOk, ThreadOk, Rested, LinkOk, TagsOk, Inv;
    var a := ExecReceive(t);
    var s' := XApply(cfg, maxJobs, s, Receive(t, req));
    var w := s.pool.available[0];
    StepKeepsInv(cfg, s.pool, a);
    StepChannel(cfg, s.pool, a);
    ReceiverIsNew(maxJobs, s, t);
    forall u: nat | u in s'.calls ensures CallOk(maxJobs, s', u) {
      if u == t { ReceiveStartsCall(cfg, maxJobs, s, t, req); } else { ReceiveKeepsCall(cfg, maxJobs, s, t, req, u); }
    }
    forall u: nat | u in s'.pool.threads ensures ThreadOk(maxJobs, s', u) {
      ReceiveKeepsThread(cfg, maxJobs, s, t, req, u);
    }
    forall v: nat | v in s'.pool.available ensures Rested(maxJobs, s', v) {
      ReceiveKeepsRested(cfg, maxJobs, s, t, req, v);
    }
    forall v: nat | v in s'.links
      ensures v <= s'.pool.nextID && LinkOk(maxJobs, s'.links[v]) && TagsOk(s'.calls, v, s'.links[v])
    {
      ReceiveKeepsLink(cfg, maxJobs, s, t, req, v);
    }
    forall u: nat | u in s'.replies ensures ReplyOk(s', u) { assert ReplyOk(s, u); }
    forall u: nat | Busy(s', u) && u != t ensures s.calls[u].w != w { Sole(maxJobs, s, u, u); }
    assert forall u: nat :: Busy(s', u) ==> u == t || Busy(s, u);
  }

  lemma ReceiveKeepsRested(cfg: Config, maxJobs: nat, s: XState, t: nat, req: Frame, v: nat)
    requires ChannelInv(maxJobs, s) && XEnabled(cfg, maxJobs, s, Receive(t, req))
    requires v in Apply(cfg, s.pool, ExecReceive(t)).available
    ensures Rested(maxJobs, XApply(cfg, maxJobs, s, Receive(t, req)), v)
  {
    hide Apply, Idle;
    StepChannel(cfg, s.pool, ExecReceive(t));
    assert v in s.pool.available && Rested(maxJobs, s, v);
  }

  // --- every step ---

  lemma StepKeepsXInv(cfg: Config, maxJobs: nat, s: XState, x: XAction)
    requires XInv(maxJobs, s) && XEnabled(cfg, maxJobs, s, x)
    ensures XInv(maxJobs, XApply(cfg, maxJobs, s, x))
  {
    hide XInv, Apply, Enabled;
    match x
    case Pool(a) => PoolKeepsInv(cfg, maxJobs, s, a);
    case Receive(t, req) => ReceiveKeepsInv(cfg, maxJobs, s, t, req);
    case RunWrite(t) => RunWriteKeepsInv(cfg, maxJobs, s, t);
    case RunRead(t) => RunReadKeepsInv(cfg, maxJobs, s, t);
    case RunWriteFail(t) => RunFailedKeepsInv(maxJobs, s, t);
    case RunReadFail(t) => RunFailedKeepsInv(maxJobs, s, t);
    case Timeout(t, n) => TimeoutKeepsInv(cfg, maxJobs, s, t, n);
    case Collect(t, n) => CollectKeepsInv(cfg, maxJobs, s, t, n);
    case ReadyFrame(t, n) => ReadyFrameKeepsInv(cfg, maxJobs, s, t, n);
    case ReadyFail(t, n) => ReadyFailKeepsInv(cfg, maxJobs, s, t, n);
    case Worker(w, e) => EventKeepsInv(maxJobs, s, XApply(cfg, maxJobs, s, x), w, e);
  }

  lemma XInitInv(cfg: Config, maxJobs: nat)
    ensures XInv(maxJobs, XInit(cfg))
  {
    InitInv(cfg);
  }
}
