/** The process pool's Exec as it runs: the worker object that writes to and reads from its pipes, and
    every branch of Pool.Exec behind it. What PHP and a Stop do to the worker meanwhile is up to the
    environment. Each call is proved to be a run of the joint system, so the returned response is the one
    that ResponseBelongsToRequest speaks about. */
module ProcessExecIO {
  import opened Common
  import opened PoolMachine
  import opened Wire
  import opened ProcessPool
  import opened ProcessPoolTheorems

  /** What a read of a pipe gives: a frame, an error, or nothing as long as nobody else moves. */
  datatype Arrival = Arrived(f: Frame) | Broken | Blocked

  /** What Exec gives its caller. */
  datatype Result = Response(f: Frame) | Error | Waiting

  /** The environment of one Exec: what happens to the worker before the request is written, before the
      answer is read and before READY is read; whether a Stop closes the pipe under a read; and whether the
      request timeout fires. */
  datatype Schedule = Schedule(before: seq<Event>, during: seq<Event>, after: seq<Event>, lost: bool, timeout: bool)

  /** Those of the events that can happen, one after the other. */
  function Drift(maxJobs: nat, l: Link, events: seq<Event>): Link
    decreases |events|
  {
    if events == [] then l
    else Drift(maxJobs, if CanHappen(l, events[0]) then Happen(maxJobs, l, events[0]) else l, events[1..])
  }

  predicate Writable(l: Link) {
    l.open && !l.php.Exited?
  }

  predicate Fails(l: Link, lost: bool) {
    ReadFails(l) && (lost || l.stdout == [])
  }

  class ProcessWorker {
    const id: nat
    var busy: bool
    var link: Link      // the pipes, the process behind them and the jobs counter

    constructor (id: nat)
      ensures this.id == id && link == NEW_LINK && !busy
    {
      this.id, link, busy := id, NEW_LINK, false;
    }

    method Meanwhile(maxJobs: nat, events: seq<Event>)
      modifies this`link
      ensures link == Drift(maxJobs, old(link), events)
    {
      hide Happen, CanHappen;
      var i := 0;
      while i < |events|
        invariant 0 <= i <= |events|
        invariant Drift(maxJobs, link, events[i..]) == Drift(maxJobs, old(link), events)
      {
        assert events[i..][0] == events[i] && events[i..][1..] == events[i + 1..];
        if CanHappen(link, events[i]) { link := Happen(maxJobs, link, events[i]); }
        i := i + 1;
      }
    }

    method WriteFrame(m: Inbound) returns (ok: bool)
      modifies this`link
      ensures ok == Writable(old(link))
      ensures link == if ok then old(link).(stdin := old(link).stdin + [m]) else old(link)
    {
      ok := link.open && !link.php.Exited?;
      if ok { link := link.(stdin := link.stdin + [m]); }
    }

    method ReadFrame(lost: bool) returns (r: Arrival)
      modifies this`link
      ensures r == if Fails(old(link), lost) then Broken
                   else if old(link).stdout == [] then Blocked else Arrived(old(link).stdout[0])
      ensures link == if r.Arrived? then DropFirst(old(link)) else old(link)
    {
      if Fails(link, lost) { return Broken; }
      if link.stdout == [] { return Blocked; }
      r := Arrived(link.stdout[0]);
      link := DropFirst(link);
    }

    /** Worker.Stop up to its wait: mark, STOP frame if the pipe takes it, close. */
    method Stop(maxJobs: nat)
      modifies this`link
      ensures link == Drift(maxJobs, old(link), [StopMark, StopWrite, StopClose])
    {
      ghost var was, rest := link, [StopWrite, StopClose];
      assert [StopMark, StopWrite, StopClose][1..] == rest && rest[1..] == [StopClose];
      link := link.(stopped := true);
      assert Drift(maxJobs, was, [StopMark, StopWrite, StopClose]) == Drift(maxJobs, link, rest);
      var ok := WriteFrame(Inbound(STOP, None));
      assert Drift(maxJobs, was.(stopped := true), rest) == Drift(maxJobs, link, [StopClose]);
      link := link.(open := false);
      assert [StopClose][1..] == [];
    }

    /** The deferred part of Worker.Exec: it runs whether Exec failed or not. */
    method Count()
      modifies this
      ensures !busy && link == old(link).(jobs := old(link).jobs + 1)
    {
      busy := false;
      link := link.(jobs := link.jobs + 1);
    }
  }

  // --- the machine's side, phase by phase ---

  /** s has been reached from start, and since `base` only t's call and the link of its worker have moved. */
  ghost predicate Mid(cfg: Config, maxJobs: nat, start: XState, trace: seq<XAction>, base: XState, s: XState,
      t: nat, l: Link, c: Call) {
    && IsXRun(cfg, maxJobs, start, trace) && XAfter(cfg, maxJobs, start, trace) == s
    && c.w in base.links && s.links == base.links[c.w := l]
    && t in s.calls && s.calls[t] == c
    && s.pool == base.pool && s.replies == base.replies
    && t in s.pool.threads && s.pool.threads[t] == Holding(c.w)
  }

  lemma Do(cfg: Config, maxJobs: nat, start: XState, trace: seq<XAction>, s: XState, x: XAction)
      returns (trace': seq<XAction>, s': XState)
    requires IsXRun(cfg, maxJobs, start, trace) && XAfter(cfg, maxJobs, start, trace) == s
    requires XEnabled(cfg, maxJobs, s, x)
    ensures trace' == trace + [x] && s' == XApply(cfg, maxJobs, s, x)
    ensures IsXRun(cfg, maxJobs, start, trace') && XAfter(cfg, maxJobs, start, trace') == s'
  {
    hide *;
    XExtend(cfg, maxJobs, start, trace, x);
    trace', s' := trace + [x], XApply(cfg, maxJobs, s, x);
  }

  lemma NoWorker(cfg: Config, maxJobs: nat, s: XState, t: nat) returns (trace: seq<XAction>, s': XState)
    requires t !in s.pool.threads && t !in s.calls
    ensures IsXRun(cfg, maxJobs, s, trace) && XAfter(cfg, maxJobs, s, trace) == s'
    ensures s'.pool.available == s.pool.available && s'.pool.busy == s.pool.busy && s'.pool.threads == s.pool.threads
    ensures s'.links == s.links && s'.calls == s.calls && s'.replies == s.replies
  {
    trace, s' := Do(cfg, maxJobs, s, [], s, Pool(ExecArrive(t)));
    trace, s' := Do(cfg, maxJobs, s, trace, s', Pool(ExecGiveUp(t)));
  }

  lemma Received(cfg: Config, maxJobs: nat, s: XState, t: nat, req: Frame) returns (trace: seq<XAction>, base: XState)
    requires t !in s.pool.threads && t !in s.calls && s.pool.available != [] && s.pool.available[0] in s.links
    ensures var w := s.pool.available[0];
      Mid(cfg, maxJobs, s, trace, base, base, t, s.links[w], Call(w, req, ToWrite, Await))
    ensures base.pool.available == s.pool.available[1..] && base.pool.busy == s.pool.busy + 1
    ensures base.pool.threads == s.pool.threads[t := Holding(s.pool.available[0])]
    ensures base.links == s.links && base.replies == s.replies
  {
    trace, base := Do(cfg, maxJobs, s, [], s, Pool(ExecArrive(t)));
    trace, base := Do(cfg, maxJobs, s, trace, base, Receive(t, req));
  }

  lemma {:induction false} Drifted(cfg: Config, maxJobs: nat, start: XState, trace: seq<XAction>, base: XState,
      s: XState,
                                   t: nat, l: Link, c: Call, events: seq<Event>)
      returns (trace': seq<XAction>, s': XState)
    requires Mid(cfg, maxJobs, start, trace, base, s, t, l, c)
    ensures Mid(cfg, maxJobs, start, trace', base, s', t, Drift(maxJobs, l, events), c)
    decreases |events|
  {
    hide CanHappen, Happen;
    trace', s' := trace, s;
    var l' := l;
    if events != [] {
      if CanHappen(l, events[0]) {
        trace', s' := Do(cfg, maxJobs, start, trace, s, Worker(c.w, events[0]));
        l' := Happen(maxJobs, l, events[0]);
        assert s'.links == base.links[c.w := l'];
      }
      trace', s' := Drifted(cfg, maxJobs, start, trace', base, s', t, l', c, events[1..]);
    }
  }

  lemma Wrote(cfg: Config, maxJobs: nat, start: XState, trace: seq<XAction>, base: XState, s: XState, t: nat,
      l: Link, c: Call)
      returns (trace': seq<XAction>, s': XState)
    requires Mid(cfg, maxJobs, start, trace, base, s, t, l, c) && c.runner.ToWrite?
    ensures Mid(cfg, maxJobs, start, trace', base, s', t,
                if Writable(l) then l.(stdin := l.stdin + [Inbound(c.req, Some(t))]) else l.(jobs := l.jobs + 1),
                c.(runner := if Writable(l) then ToRead else Failed))
  {
    hide IsXRun, XAfter;
    trace', s' := Do(cfg, maxJobs, start, trace, s, if Writable(l) then RunWrite(t) else RunWriteFail(t));
  }

  lemma Read(cfg: Config, maxJobs: nat, start: XState, trace: seq<XAction>, base: XState, s: XState, t: nat,
      l: Link, c: Call, lost: bool)
      returns (trace': seq<XAction>, s': XState)
    requires Mid(cfg, maxJobs, start, trace, base, s, t, l, c) && c.runner.ToRead? && (Fails(l, lost) || l.stdout != [])
    ensures Mid(cfg, maxJobs, start, trace', base, s', t,
                if Fails(l, lost) then l.(jobs := l.jobs + 1) else DropFirst(l).(jobs := l.jobs + 1),
                c.(runner := if Fails(l, lost) then Failed else Got(l.stdout[0])))
  {
    hide IsXRun, XAfter;
    trace', s' := Do(cfg, maxJobs, start, trace, s, if Fails(l, lost) then RunReadFail(t) else RunRead(t));
  }

  /** The end of an Exec: whether its worker goes back and what it answers. */
  ghost predicate Over(cfg: Config, maxJobs: nat, start: XState, trace: seq<XAction>, base: XState, s: XState,
      t: nat, l: Link, c: Call,
                       back: bool, answer: Option<Frame>) {
    && IsXRun(cfg, maxJobs, start, trace) && XAfter(cfg, maxJobs, start, trace) == s
    && s.links == base.links[c.w := l]
    && s.pool.available == (if back then base.pool.available + [c.w] else base.pool.available)
    && s.pool.busy == base.pool.busy - 1
    && t in s.calls && s.calls[t].w == c.w && s.calls[t].req == c.req && s.calls[t].outer == Gone
    && s.replies == if answer.Some? then base.replies[t := answer.value] else base.replies
  }

  lemma TimedOut(cfg: Config, maxJobs: nat, start: XState, trace: seq<XAction>, base: XState, s: XState, t: nat,
      n: nat, l: Link, c: Call)
      returns (trace': seq<XAction>, s': XState)
    requires Mid(cfg, maxJobs, start, trace, base, s, t, l, c) && c.outer.Await? && n !in base.pool.threads
    ensures Over(cfg, maxJobs, start, trace', base, s', t, l, c, false, None)
  {
    hide IsXRun, XAfter;
    trace', s' := Do(cfg, maxJobs, start, trace, s, Timeout(t, n));
  }

  /** The runner is done: its error, or its frame when the worker has reached its limit. */
  lemma Collected(cfg: Config, maxJobs: nat, start: XState, trace: seq<XAction>, base: XState, s: XState, t: nat,
      n: nat, l: Link, c: Call)
      returns (trace': seq<XAction>, s': XState)
    requires Mid(cfg, maxJobs, start, trace, base, s, t, l, c) && c.outer.Await? && n !in base.pool.threads
    requires c.runner.Failed? || (c.runner.Got? && NeedsRecycle(maxJobs, l.jobs))
    ensures Over(cfg, maxJobs, start, trace', base, s', t, l, c, false,
                 if c.runner.Got? then Some(c.runner.frame) else None)
  {
    hide IsXRun, XAfter;
    trace', s' := Do(cfg, maxJobs, start, trace, s, Collect(t, n));
  }

  lemma AwaitsReady(cfg: Config, maxJobs: nat, start: XState, trace: seq<XAction>, base: XState, s: XState, t: nat,
      n: nat, l: Link, c: Call)
      returns (trace': seq<XAction>, s': XState)
    requires Mid(cfg, maxJobs, start, trace, base, s, t, l, c) && c.outer.Await? && n !in base.pool.threads
    requires c.runner.Got? && !NeedsRecycle(maxJobs, l.jobs)
    ensures Mid(cfg, maxJobs, start, trace', base, s', t, l, c.(outer := ReadingReady))
  {
    hide IsXRun, XAfter;
    trace', s' := Do(cfg, maxJobs, start, trace, s, Collect(t, n));
  }

  /** READY puts the worker back; anything else, or an error, retires it. The answer is the same. */
  lemma ReadReady(cfg: Config, maxJobs: nat, start: XState, trace: seq<XAction>, base: XState, s: XState, t: nat,
      n: nat, l: Link, c: Call, lost: bool)
      returns (trace': seq<XAction>, s': XState)
    requires Mid(cfg, maxJobs, start, trace, base, s, t, l, c) && c.outer.ReadingReady? && c.runner.Got?
    requires t != n && n !in base.pool.threads && |base.pool.available| < cfg.maxWorkers
    requires Fails(l, lost) || l.stdout != []
    ensures var back := !Fails(l, lost) && l.stdout[0].kind == TYPE_WORKER_READY;
      Over(cfg, maxJobs, start, trace', base, s', t, if Fails(l, lost) then l else DropFirst(l), c, back,
           Some(c.runner.frame))
  {
    hide IsXRun, XAfter;
    if Fails(l, lost) {
      trace', s' := Do(cfg, maxJobs, start, trace, s, ReadyFail(t, n));
    } else if l.stdout[0].kind == TYPE_WORKER_READY {
      trace', s' := SentBack(cfg, maxJobs, start, trace, base, s, t, n, l, c);
    } else {
      trace', s' := Do(cfg, maxJobs, start, trace, s, ReadyFrame(t, n));
    }
  }

  lemma SentBack(cfg: Config, maxJobs: nat, start: XState, trace: seq<XAction>, base: XState, s: XState, t: nat,
      n: nat, l: Link, c: Call)
      returns (trace': seq<XAction>, s': XState)
    requires Mid(cfg, maxJobs, start, trace, base, s, t, l, c) && c.outer.ReadingReady? && c.runner.Got?
    requires t != n && n !in base.pool.threads && |base.pool.available| < cfg.maxWorkers
    requires l.stdout != [] && l.stdout[0].kind == TYPE_WORKER_READY
    ensures Over(cfg, maxJobs, start, trace', base, s', t, DropFirst(l), c, true, Some(c.runner.frame))
  {
    hide IsXRun, XAfter;
    trace', s' := Do(cfg, maxJobs, start, trace, s, ReadyFrame(t, n));
    trace', s' := Do(cfg, maxJobs, start, trace', s', Pool(Send(t)));
  }

  // --- what Exec has to answer ---

  /** The worker when the request is to be written, when the answer is to be read, and when READY is. */
  function AtWrite(maxJobs: nat, l: Link, sch: Schedule): Link {
    Drift(maxJobs, l, sch.before)
  }

  function AtRead(maxJobs: nat, l: Link, t: nat, req: Frame, sch: Schedule): Link {
    var asked := AtWrite(maxJobs, l, sch);
    Drift(maxJobs, asked.(stdin := asked.stdin + [Inbound(req, Some(t))]), sch.during)
  }

  function AtReady(maxJobs: nat, l: Link, t: nat, req: Frame, sch: Schedule): Link
    requires AtRead(maxJobs, l, t, req, sch).stdout != []
  {
    var answered := AtRead(maxJobs, l, t, req, sch);
    Drift(maxJobs, answered.(stdout := answered.stdout[1..], jobs := answered.jobs + 1), sch.after)
  }

  /** A frame has come back in time. */
  predicate InTime(maxJobs: nat, l: Link, t: nat, req: Frame, sch: Schedule) {
    && !sch.timeout && Writable(AtWrite(maxJobs, l, sch))
    && !Fails(AtRead(maxJobs, l, t, req, sch), sch.lost) && AtRead(maxJobs, l, t, req, sch).stdout != []
  }

  /** With that frame the worker has done all its jobs. */
  predicate LastJob(maxJobs: nat, l: Link, t: nat, req: Frame, sch: Schedule) {
    maxJobs > 0 && AtRead(maxJobs, l, t, req, sch).jobs + 1 >= maxJobs
  }

  /** Exec fails exactly when the timeout fires, the write fails or the read fails. It succeeds exactly when a
      frame came back in time and the worker was at its limit or its next read ended, and then the response
      is that frame. The worker goes back exactly when it is below its limit and that read is READY. */
  ghost predicate Deserved(maxJobs: nat, l: Link, t: nat, req: Frame, sch: Schedule, r: Result, back: bool) {
    && (r == Error <==> sch.timeout || !Writable(AtWrite(maxJobs, l, sch))
                        || Fails(AtRead(maxJobs, l, t, req, sch), sch.lost))
    && (r.Response? <==>
          && InTime(maxJobs, l, t, req, sch)
          && (|| LastJob(maxJobs, l, t, req, sch)
              || Fails(AtReady(maxJobs, l, t, req, sch), sch.lost)
              || AtReady(maxJobs, l, t, req, sch).stdout != []))
    && (r.Response? ==> r.f == AtRead(maxJobs, l, t, req, sch).stdout[0])
    && (back <==>
          && InTime(maxJobs, l, t, req, sch) && !LastJob(maxJobs, l, t, req, sch)
          && !Fails(AtReady(maxJobs, l, t, req, sch), sch.lost)
          && AtReady(maxJobs, l, t, req, sch).stdout != []
          && AtReady(maxJobs, l, t, req, sch).stdout[0].kind == TYPE_WORKER_READY)
  }

  lemma {:induction false} DriftSplit(maxJobs: nat, l: Link, xs: seq<Event>, ys: seq<Event>)
    ensures Drift(maxJobs, l, xs + ys) == Drift(maxJobs, Drift(maxJobs, l, xs), ys)
    decreases |xs|
  {
    hide CanHappen, Happen;
    if xs == [] {
      assert xs + ys == ys;
    } else {
      assert (xs + ys)[1..] == xs[1..] + ys;
      DriftSplit(maxJobs, if CanHappen(l, xs[0]) then Happen(maxJobs, l, xs[0]) else l, xs[1..], ys);
    }
  }

  function Emits(answers: seq<Frame>): seq<Event> {
    if answers == [] then [] else [PhpEmit(answers[0])] + Emits(answers[1..])
  }

  lemma DriftStep(maxJobs: nat, l: Link, e: Event, rest: seq<Event>)
    requires CanHappen(l, e)
    ensures Drift(maxJobs, l, [e] + rest) == Drift(maxJobs, Happen(maxJobs, l, e), rest)
  {
    hide CanHappen, Happen;
    assert ([e] + rest)[1..] == rest;
  }

  lemma {:induction false} DriftEmits(maxJobs: nat, l: Link, answers: seq<Frame>)
    requires l.php.Handling? && forall i :: 0 <= i < |answers| ==> answers[i].kind == TYPE_RESPONSE
    ensures Drift(maxJobs, l, Emits(answers)) ==
            l.(stdout := l.stdout + answers, php := Handling(l.php.call, l.php.emitted + |answers|))
    decreases |answers|
  {
    if answers == [] {
      assert l.stdout + answers == l.stdout;
    } else {
      var (f, rest) := (answers[0], answers[1..]);
      assert CanHappen(l, PhpEmit(f));
      var l' := Happen(maxJobs, l, PhpEmit(f));
      hide CanHappen;
      assert l'.php.Handling?;
      DriftEmits(maxJobs, l', rest);
      hide Happen;
      assert l.stdout + [f] + rest == l.stdout + answers;
      DriftStep(maxJobs, l, PhpEmit(f), Emits(rest));
    }
  }

  /** PHP serves one request: it takes it, answers, finishes and checks its limits. */
  function Serving(answers: seq<Frame>, memoryOver: bool): seq<Event> {
    [PhpTake] + (Emits(answers) + [PhpFinish, PhpCheck(memoryOver)])
  }

  lemma TwoMore(maxJobs: nat, l: Link, d: Event, e: Event)
    requires CanHappen(l, d) && CanHappen(Happen(maxJobs, l, d), e)
    ensures Drift(maxJobs, l, [d, e]) == Happen(maxJobs, Happen(maxJobs, l, d), e)
  {
    hide CanHappen, Happen;
    assert [d, e][1..] == [e] && [e][1..] == [];
    assert Drift(maxJobs, Happen(maxJobs, l, d), [e]) == Happen(maxJobs, Happen(maxJobs, l, d), e);
  }

  lemma ServingEnds(maxJobs: nat, l: Link, t: nat, req: Frame, answers: seq<Frame>, memoryOver: bool)
    requires l.php == Head && l.stdin == [] && req.kind == TYPE_REQUEST && answers != []
    requires forall i :: 0 <= i < |answers| ==> answers[i].kind == TYPE_RESPONSE
    ensures var stays := !memoryOver && (maxJobs > 0 ==> l.count + 1 < maxJobs);
      Drift(maxJobs, l.(stdin := [Inbound(req, Some(t))]), Serving(answers, memoryOver)) ==
        l.(stdout := l.stdout + answers + (if stays then [READY] else []), count := l.count + 1,
           php := if stays then Head else Exited)
  {
    var asked := l.(stdin := [Inbound(req, Some(t))]);
    var taken := l.(php := Handling(Some(t), 0));
    assert asked.stdin[1..] == [] && Happen(maxJobs, asked, PhpTake) == taken;
    var (first, rest) := ([PhpTake], Emits(answers) + [PhpFinish, PhpCheck(memoryOver)]);
    assert Serving(answers, memoryOver)[0] == PhpTake && Serving(answers, memoryOver)[1..] == rest;
    DriftSplit(maxJobs, taken, Emits(answers), [PhpFinish, PhpCheck(memoryOver)]);
    DriftEmits(maxJobs, taken, answers);
    var answered := taken.(stdout := l.stdout + answers, php := Handling(Some(t), |answers|));
    var checks := answered.(count := l.count + 1, php := Checks);
    assert CanHappen(answered, PhpFinish) && Happen(maxJobs, answered, PhpFinish) == checks;
    TwoMore(maxJobs, answered, PhpFinish, PhpCheck(memoryOver));
    assert l.stdout + answers + [] == l.stdout + answers;
  }

  /** A request that an idle worker answers in time is answered with PHP's first frame, and the worker goes
      back exactly if that was the only frame, memory is not over its limit and a job is left. */
  lemma AnsweredInTime(maxJobs: nat, l: Link, t: nat, req: Frame, answers: seq<Frame>, memoryOver: bool, lost: bool,
      r: Result, back: bool)
    requires l.php == Head && l.stdin == [] && l.stdout == [] && l.open && !l.stopped && l.count == l.jobs
    requires req.kind == TYPE_REQUEST && answers != []
    requires forall i :: 0 <= i < |answers| ==> answers[i].kind == TYPE_RESPONSE
    requires Deserved(maxJobs, l, t, req, Schedule([], Serving(answers, memoryOver), [], lost, false), r, back)
    ensures r == Response(answers[0])
    ensures back <==> |answers| == 1 && !memoryOver && (maxJobs > 0 ==> l.jobs + 1 < maxJobs)
  {
    ServingEnds(maxJobs, l, t, req, answers, memoryOver);
    var asked := l.(stdin := l.stdin + [Inbound(req, Some(t))]);
    assert asked == l.(stdin := [Inbound(req, Some(t))]);
    var stays := !memoryOver && (maxJobs > 0 ==> l.count + 1 < maxJobs);
    assert [] + answers + (if stays then [READY] else []) == answers + (if stays then [READY] else []);
    hide Happen, CanHappen, Serving;
  }

  // --- Pool.Exec ---

  /** Pool.Exec behind the allocation, with the runner goroutine inlined. `back` says that the worker goes
      back to the channel; otherwise it goes to replaceWorker. */
  method Serve(cfg: Config, maxJobs: nat, w: ProcessWorker, t: nat, n: nat, req: Frame, sch: Schedule,
               ghost start: XState, ghost taken: seq<XAction>, ghost base: XState)
      returns (r: Result, back: bool, ghost trace: seq<XAction>, ghost s: XState, ghost c: Call)
    requires Mid(cfg, maxJobs, start, taken, base, base, t, w.link, Call(w.id, req, ToWrite, Await))
    requires t != n && n !in base.pool.threads && |base.pool.available| < cfg.maxWorkers
    modifies w
    ensures Deserved(maxJobs, old(w.link), t, req, sch, r, back)
    ensures c.w == w.id && c.req == req && (back ==> r.Response?)
    ensures r.Waiting? ==> Mid(cfg, maxJobs, start, trace, base, s, t, w.link, c)
    ensures !r.Waiting? ==>
      Over(cfg, maxJobs, start, trace, base, s, t, w.link, c, back, if r.Response? then Some(r.f) else None)
  {
    hide Mid, Over, Happen, CanHappen, Drift, ReadFails;
    c := Call(w.id, req, ToWrite, Await);
    back := false;
    trace, s := Drifted(cfg, maxJobs, start, taken, base, base, t, w.link, c, sch.before);
    w.Meanwhile(maxJobs, sch.before);
    trace, s := Wrote(cfg, maxJobs, start, trace, base, s, t, w.link, c);
    c := c.(runner := if Writable(w.link) then ToRead else Failed);
    w.busy := true;
    var ok := w.WriteFrame(Inbound(req, Some(t)));
    if !ok { w.Count(); }
    if sch.timeout {
      trace, s := TimedOut(cfg, maxJobs, start, trace, base, s, t, n, w.link, c);
      return Error, false, trace, s, c;
    }
    if !ok {
      trace, s := Collected(cfg, maxJobs, start, trace, base, s, t, n, w.link, c);
      return Error, false, trace, s, c;
    }
    trace, s := Drifted(cfg, maxJobs, start, trace, base, s, t, w.link, c, sch.during);
    w.Meanwhile(maxJobs, sch.during);
    ghost var l := w.link;
    var got := w.ReadFrame(sch.lost);
    if got.Blocked? { return Waiting, false, trace, s, c; }
    w.Count();
    trace, s := Read(cfg, maxJobs, start, trace, base, s, t, l, c, sch.lost);
    c := c.(runner := if Fails(l, sch.lost) then Failed else Got(l.stdout[0]));
    if got.Broken? {
      trace, s := Collected(cfg, maxJobs, start, trace, base, s, t, n, w.link, c);
      return Error, false, trace, s, c;
    }
    if NeedsRecycle(maxJobs, w.link.jobs) {
      trace, s := Collected(cfg, maxJobs, start, trace, base, s, t, n, w.link, c);
      return Response(got.f), false, trace, s, c;
    }
    trace, s := AwaitsReady(cfg, maxJobs, start, trace, base, s, t, n, w.link, c);
    c := c.(outer := ReadingReady);
    trace, s := Drifted(cfg, maxJobs, start, trace, base, s, t, w.link, c, sch.after);
    w.Meanwhile(maxJobs, sch.after);
    l := w.link;
    var ready := w.ReadFrame(sch.lost);
    if ready.Blocked? { return Waiting, false, trace, s, c; }
    trace, s := ReadReady(cfg, maxJobs, start, trace, base, s, t, n, l, c, sch.lost);
    back := ready.Arrived? && ready.f.kind == TYPE_WORKER_READY;
    r := Response(got.f);
  }

  /** What Serve's outcome means for the pool. */
  lemma Summary(cfg: Config, maxJobs: nat, start: XState, trace: seq<XAction>, base: XState, s: XState, t: nat,
      l: Link, c: Call,
                r: Result, back: bool)
    requires r.Waiting? ==> Mid(cfg, maxJobs, start, trace, base, s, t, l, c) && !back
    requires !r.Waiting? ==>
      Over(cfg, maxJobs, start, trace, base, s, t, l, c, back, if r.Response? then Some(r.f) else None)
    requires t !in base.replies
    ensures IsXRun(cfg, maxJobs, start, trace) && XAfter(cfg, maxJobs, start, trace) == s
    ensures s.links == base.links[c.w := l]
    ensures s.pool.available == (if back then base.pool.available + [c.w] else base.pool.available)
    ensures s.pool.busy == base.pool.busy - (if r.Waiting? then 0 else 1)
    ensures t in s.calls && s.calls[t].w == c.w && s.calls[t].req == c.req && (!r.Waiting? ==> s.calls[t].outer == Gone)
    ensures if r.Response? then t in s.replies && s.replies[t] == r.f else t !in s.replies
  {
  }

  /** The first id is none of the others, and may stand behind them. */
  lemma FirstBehind(ids: seq<nat>)
    requires NoDup(ids) && ids != []
    ensures forall i :: 0 < i < |ids| ==> ids[i] != ids[0]
    ensures NoDup(ids[1..]) && NoDup(ids[1..] + [ids[0]])
  {
  }

  class ProcessExec {
    const cfg: Config
    const maxJobs: nat
    var available: seq<ProcessWorker>
    var busy: int
    var retired: seq<ProcessWorker>
    ghost var s: XState

    constructor (cfg: Config, maxJobs: nat)
      ensures this.cfg == cfg && this.maxJobs == maxJobs && s == XInit(cfg) && available == [] && Valid()
    {
      this.cfg, this.maxJobs := cfg, maxJobs;
      available, busy, retired, s := [], 0, [], XInit(cfg);
    }

    ghost predicate Shows(w: ProcessWorker, id: nat)
      reads this, w
    {
      w.id == id && id in s.links && s.links[id] == w.link
    }

    /** The objects show the machine's state. */
    ghost predicate Valid()
      reads this, available
    {
      && NoDup(s.pool.available)
      && busy == s.pool.busy
      && |available| == |s.pool.available| <= cfg.maxWorkers
      && forall i :: 0 <= i < |available| ==> Shows(available[i], s.pool.available[i])
    }

    /** Exec once a worker is allocated. */
    method Dispatch(t: nat, n: nat, req: Frame, sch: Schedule)
        returns (r: Result, back: bool, ghost trace: seq<XAction>)
      requires t !in s.pool.threads && n !in s.pool.threads && t != n && t !in s.calls && t !in s.replies
      requires available != [] && s.pool.available != [] && |s.pool.available| <= cfg.maxWorkers
      requires Shows(available[0], s.pool.available[0]) && busy == s.pool.busy
      modifies this`available, this`busy, this`retired, this`s, available[0]
      ensures IsXRun(cfg, maxJobs, old(s), trace) && XAfter(cfg, maxJobs, old(s), trace) == s
      ensures busy == s.pool.busy == old(busy) + (if r.Waiting? then 1 else 0)
      ensures var (w, ids, rest) := (old(available)[0], old(s).pool.available, old(available)[1..]);
        && s.links == old(s).links[w.id := w.link] && (back ==> r.Response?)
        && s.pool.available == ids[1..] + (if back then [w.id] else [])
        && available == rest + (if back then [w] else [])
        && retired == old(retired) + (if back || r.Waiting? then [] else [w])
        && t in s.calls && s.calls[t].w == w.id && s.calls[t].req == req && (!r.Waiting? ==> s.calls[t].outer == Gone)
      ensures if r.Response? then t in s.replies && s.replies[t] == r.f else t !in s.replies
      ensures Deserved(maxJobs, old(available[0].link), t, req, sch, r, back)
    {
      hide Mid, Over, IsXRun, XAfter, NeedsRecycle, Deserved;
      var w := available[0];
      available := available[1..];
      busy := busy + 1;
      ghost var start := s;
      ghost var base, c;
      trace, base := Received(cfg, maxJobs, start, t, req);
      r, back, trace, s, c := Serve(cfg, maxJobs, w, t, n, req, sch, start, trace, base);
      Summary(cfg, maxJobs, start, trace, base, s, t, w.link, c, r, back);
      if !r.Waiting? {
        busy := busy - 1;
        if back { available := available + [w]; } else { retired := retired + [w]; }
      }
    }

    /** Exec as thread t, with n for the goroutine of replaceWorker. The call is a run of the joint system.
        What it answers is what its worker and the schedule deserve. Unless it still waits for PHP, it has
        ended in the joint system too, its answer is the reply recorded there, and its worker is behind the
        others in the channel, if it goes back, or with replaceWorker. */
    method Exec(t: nat, n: nat, req: Frame, sch: Schedule)
        returns (r: Result, ghost back: bool, ghost trace: seq<XAction>)
      requires Valid() && t !in s.pool.threads && n !in s.pool.threads && t != n && t !in s.calls && t !in s.replies
      modifies this`available, this`busy, this`retired, this`s, available
      ensures Valid() && IsXRun(cfg, maxJobs, old(s), trace) && XAfter(cfg, maxJobs, old(s), trace) == s
      ensures busy == old(busy) + (if r.Waiting? then 1 else 0)
      ensures old(available) == [] ==> r == Error && t !in s.calls && available == [] && retired == old(retired)
      ensures old(available) != [] ==>
        var (w, rest) := (old(available)[0], old(available)[1..]);
        && t in s.calls && s.calls[t].w == w.id && s.calls[t].req == req && (!r.Waiting? ==> s.calls[t].outer == Gone)
        && Deserved(maxJobs, old(available[0].link), t, req, sch, r, back)
        && available == rest + (if back then [w] else [])
        && retired == old(retired) + (if back || r.Waiting? then [] else [w])
      ensures if r.Response? then t in s.replies && s.replies[t] == r.f else t !in s.replies
    {
      hide IsXRun, XAfter, NoDup, Deserved;
      if available == [] {
        trace, s := NoWorker(cfg, maxJobs, s, t);
        return Error, false, trace;
      }
      ghost var ids := s.pool.available;
      FirstBehind(ids);
      assert ids[1..] + [] == ids[1..];
      assert forall i :: 0 <= i < |available| ==> Shows(available[i], ids[i]);
      var goesBack;
      r, goesBack, trace := Dispatch(t, n, req, sch);
      back := goesBack;
    }
  }
}
