/** Worker::run as the loop it is, against the PHP steps of the joint system: whatever comes in on stdin,
    what the loop writes, counts and leaves unread is what a sequence of those steps produces. */
module PhpLoop {
  import opened Common
  import opened Wire
  import opened ProcessPool

  ghost predicate CanAll(maxRequests: nat, l: Link, trace: seq<Event>)
    decreases |trace|
  {
    trace == [] || (CanHappen(l, trace[0]) && CanAll(maxRequests, Happen(maxRequests, l, trace[0]), trace[1..]))
  }

  ghost function AfterAll(maxRequests: nat, l: Link, trace: seq<Event>): Link
    requires CanAll(maxRequests, l, trace)
    decreases |trace|
  {
    if trace == [] then l else AfterAll(maxRequests, Happen(maxRequests, l, trace[0]), trace[1..])
  }

  lemma {:induction false} OneMore(maxRequests: nat, l: Link, trace: seq<Event>, e: Event)
    requires CanAll(maxRequests, l, trace) && CanHappen(AfterAll(maxRequests, l, trace), e)
    ensures CanAll(maxRequests, l, trace + [e])
    ensures AfterAll(maxRequests, l, trace + [e]) == Happen(maxRequests, AfterAll(maxRequests, l, trace), e)
    decreases |trace|
  {
    if trace == [] {
      assert trace + [e] == [e];
      assert CanAll(maxRequests, Happen(maxRequests, l, e), []);
    } else {
      assert (trace + [e])[1..] == trace[1..] + [e];
      OneMore(maxRequests, Happen(maxRequests, l, trace[0]), trace[1..], e);
    }
  }

  /** PHP's own steps: nothing Go does to the worker, and no crash. */
  predicate OwnStep(e: Event) {
    e.PhpBoot? || e.PhpTake? || e.PhpEof? || e.PhpEmit? || e.PhpFinish? || e.PhpCheck?
  }

  /** The worker's end of the pipes before it runs: everything that will come is there, then end of file. */
  function Fresh(stdin: seq<Inbound>): Link {
    NEW_LINK.(stdin := stdin, open := false)
  }

  /** What the handler sends, request by request, and the memory test, frame by frame. */
  datatype Script = Script(answers: nat -> seq<Frame>, memoryOver: nat -> bool)

  ghost predicate Answers(script: Script) {
    forall n: nat :: script.answers(n) != []
      && forall i :: 0 <= i < |script.answers(n)| ==> script.answers(n)[i].kind == TYPE_RESPONSE
  }

  /** One turn of the loop. `frames` counts the frames so far that were not PING. */
  function Turn(maxRequests: nat, l: Link, frames: nat, script: Script): (r: Link)
    requires l.php == Head
    ensures r.php == Head || r.php == Exited
    ensures r.php == Head ==> |r.stdin| < |l.stdin|
  {
    if l.stdin == [] then l.(php := Exited)
    else
      var taken := TakeFrame(l);
      if taken.php == Exited || taken.php == Head then taken
      else
        var handled := if taken.php.Handling?
          then taken.(stdout := taken.stdout + script.answers(taken.count), count := taken.count + 1, php := Checks)
          else taken;
        CheckLimits(maxRequests, handled, script.memoryOver(frames + 1))
  }

  function FramesAfter(l: Link, frames: nat): nat {
    if l.stdin != [] && l.stdin[0].frame.kind != TYPE_PING then frames + 1 else frames
  }

  /** The worker at the end of run(), from the loop head. */
  function Outcome(maxRequests: nat, l: Link, frames: nat, script: Script): Link
    requires l.php == Head
    decreases |l.stdin|
  {
    var next := Turn(maxRequests, l, frames, script);
    if next.php == Exited then next else Outcome(maxRequests, next, FramesAfter(l, frames), script)
  }

  // --- the conversation ---

  /** How many of these frames are requests, and how many make the worker look at its limits. */
  function Requests(stdin: seq<Inbound>): nat {
    if stdin == [] then 0
    else Requests(stdin[..|stdin| - 1]) + (if stdin[|stdin| - 1].frame.kind == TYPE_REQUEST then 1 else 0)
  }

  function Limited(stdin: seq<Inbound>): nat {
    if stdin == [] then 0
    else Limited(stdin[..|stdin| - 1]) + (if stdin[|stdin| - 1].frame.kind == TYPE_PING then 0 else 1)
  }

  /** Frame i is the last one a worker deals with: a WORKER_STOP, or one that is not PING and leaves it at its
      request limit or over its memory limit. */
  predicate EndsAt(maxRequests: nat, stdin: seq<Inbound>, script: Script, i: nat)
    requires i < |stdin|
  {
    var kind := stdin[i].frame.kind;
    || kind == TYPE_WORKER_STOP
    || (kind != TYPE_PING && maxRequests > 0 && Requests(stdin[..i + 1]) >= maxRequests)
    || (kind != TYPE_PING && script.memoryOver(Limited(stdin[..i + 1])))
  }

  /** The first such frame from i on, or the end. */
  function LastFrame(maxRequests: nat, stdin: seq<Inbound>, script: Script, i: nat): (k: nat)
    requires i <= |stdin|
    ensures i <= k <= |stdin| && (forall j :: i <= j < k ==> !EndsAt(maxRequests, stdin, script, j))
    ensures k < |stdin| ==> EndsAt(maxRequests, stdin, script, k)
    decreases |stdin| - i
  {
    if i == |stdin| || EndsAt(maxRequests, stdin, script, i) then i else LastFrame(maxRequests, stdin, script, i + 1)
  }

  /** What frame i is answered with: a pong, the handler's answers to that request, or nothing. */
  function AnswerTo(stdin: seq<Inbound>, script: Script, i: nat): seq<Frame>
    requires i < |stdin|
  {
    if stdin[i].frame.kind == TYPE_PING then [PONG]
    else if stdin[i].frame.kind == TYPE_REQUEST then script.answers(Requests(stdin[..i]))
    else []
  }

  /** What is written for the first k frames when none of them is the last: each answer, and READY behind all
      but the pongs. */
  function Said(stdin: seq<Inbound>, script: Script, k: nat): seq<Frame>
    requires k <= |stdin|
  {
    if k == 0 then []
    else
      Said(stdin, script, k - 1) + AnswerTo(stdin, script, k - 1)
      + (if stdin[k - 1].frame.kind == TYPE_PING then [] else [READY])
  }

  /** The worker at the loop head with the first i of the frames behind it. */
  function Before(base: Link, stdin: seq<Inbound>, script: Script, i: nat): Link
    requires i <= |stdin|
  {
    base.(php := Head, stdin := stdin[i..], count := Requests(stdin[..i]),
          stdout := base.stdout + Said(stdin, script, i))
  }

  /** The worker at its end, frame k being the last one, if there is one. */
  function Ended(base: Link, stdin: seq<Inbound>, script: Script, k: nat): Link
    requires k <= |stdin|
  {
    base.(php := Exited,
          stdin := if k < |stdin| then stdin[k + 1..] else [],
          stdout := base.stdout + Said(stdin, script, k) + (if k < |stdin| then AnswerTo(stdin, script, k) else []),
          count := Requests(if k < |stdin| then stdin[..k + 1] else stdin))
  }

  lemma CountsStep(stdin: seq<Inbound>, i: nat)
    requires i < |stdin|
    ensures Requests(stdin[..i + 1]) == Requests(stdin[..i]) + (if stdin[i].frame.kind == TYPE_REQUEST then 1 else 0)
    ensures Limited(stdin[..i + 1]) == Limited(stdin[..i]) + (if stdin[i].frame.kind == TYPE_PING then 0 else 1)
  {
    assert stdin[..i + 1][..i] == stdin[..i];
  }

  lemma TurnIs(maxRequests: nat, base: Link, stdin: seq<Inbound>, script: Script, i: nat)
    requires i < |stdin|
    ensures Turn(maxRequests, Before(base, stdin, script, i), Limited(stdin[..i]), script) ==
      if EndsAt(maxRequests, stdin, script, i) then Ended(base, stdin, script, i)
      else Before(base, stdin, script, i + 1)
    ensures FramesAfter(Before(base, stdin, script, i), Limited(stdin[..i])) == Limited(stdin[..i + 1])
  {
    hide Requests, Limited;
    CountsStep(stdin, i);
    var (said, answer) := (Said(stdin, script, i), AnswerTo(stdin, script, i));
    assert stdin[i..][0] == stdin[i] && stdin[i..][1..] == stdin[i + 1..];
    assert base.stdout + said + answer == base.stdout + (said + answer);
    assert base.stdout + said + answer + [READY] == base.stdout + (said + answer + [READY]);
    assert answer == [] ==> base.stdout + said + answer == base.stdout + said && said + answer + [] == said;
    assert said + answer + [] == said + answer;
  }

  lemma {:induction false} OutcomeIs(maxRequests: nat, base: Link, stdin: seq<Inbound>, script: Script, i: nat)
    requires i <= |stdin|
    ensures Outcome(maxRequests, Before(base, stdin, script, i), Limited(stdin[..i]), script) ==
            Ended(base, stdin, script, LastFrame(maxRequests, stdin, script, i))
    decreases |stdin| - i
  {
    hide Turn, EndsAt, AnswerTo, Requests, Limited;
    if i == |stdin| {
      LastTurn(maxRequests, Before(base, stdin, script, i), Limited(stdin[..i]), script);
      assert stdin[..i] == stdin && base.stdout + Said(stdin, script, i) + [] == base.stdout + Said(stdin, script, i);
    } else {
      TurnIs(maxRequests, base, stdin, script, i);
      if !EndsAt(maxRequests, stdin, script, i) { OutcomeIs(maxRequests, base, stdin, script, i + 1); }
    }
  }

  lemma LastTurn(maxRequests: nat, l: Link, frames: nat, script: Script)
    requires l.php == Head && l.stdin == []
    ensures Turn(maxRequests, l, frames, script) == l.(php := Exited)
  {
  }

  /** From a new worker's first turn: everything up to the last frame is answered, in order. */
  lemma OutcomeFromStart(maxRequests: nat, stdin: seq<Inbound>, script: Script)
    ensures Outcome(maxRequests, Fresh(stdin).(php := Head, stdout := [READY]), 0, script) ==
            Ended(Fresh(stdin).(stdout := [READY]), stdin, script, LastFrame(maxRequests, stdin, script, 0))
  {
    hide Outcome;
    var base := Fresh(stdin).(stdout := [READY]);
    assert stdin[..0] == [] && stdin[0..] == stdin && [READY] + [] == [READY];
    OutcomeIs(maxRequests, base, stdin, script, 0);
  }

  /** Given requests only, the worker answers them in order and in full, up to the first one that leaves it at
      its request limit or over its memory limit: READY follows the answers to each request before that one,
      its own come last, and what is behind it stays unread. */
  lemma ServesInOrder(maxRequests: nat, stdin: seq<Inbound>, script: Script, k: nat)
    requires forall i :: 0 <= i < |stdin| ==> stdin[i].frame.kind == TYPE_REQUEST
    requires k <= |stdin| && (forall n :: 1 <= n <= k ==> !Leaves(maxRequests, script, n))
    requires k < |stdin| ==> Leaves(maxRequests, script, k + 1)
    ensures var end := Outcome(maxRequests, Fresh(stdin).(php := Head, stdout := [READY]), 0, script);
      && end.php == Exited
      && end.stdout == [READY] + Transcript(script, k) + (if k < |stdin| then script.answers(k) else [])
      && end.count == (if k < |stdin| then k + 1 else k)
      && end.stdin == (if k < |stdin| then stdin[k + 1..] else [])
  {
    hide Outcome, Requests, Limited, Said;
    OutcomeFromStart(maxRequests, stdin, script);
    var last := LastFrame(maxRequests, stdin, script, 0);
    forall i | 0 <= i <= |stdin|
      ensures Requests(stdin[..i]) == i && Limited(stdin[..i]) == i && Said(stdin, script, i) == Transcript(script, i)
    {
      AllRequests(stdin, script, i);
    }
    assert stdin[..|stdin|] == stdin;
    forall i | 0 <= i < |stdin|
      ensures EndsAt(maxRequests, stdin, script, i) <==> Leaves(maxRequests, script, i + 1) {}
    assert k < |stdin| ==> EndsAt(maxRequests, stdin, script, k);
    assert last == k;
  }

  /** With n requests behind it the worker is at its request limit, or over its memory limit. */
  predicate Leaves(maxRequests: nat, script: Script, n: nat) {
    (maxRequests > 0 && n >= maxRequests) || script.memoryOver(n)
  }

  /** k requests, each with its answers and READY. */
  function Transcript(script: Script, k: nat): seq<Frame> {
    if k == 0 then [] else Transcript(script, k - 1) + script.answers(k - 1) + [READY]
  }

  lemma {:induction false} AllRequests(stdin: seq<Inbound>, script: Script, i: nat)
    requires i <= |stdin| && forall j :: 0 <= j < |stdin| ==> stdin[j].frame.kind == TYPE_REQUEST
    ensures Requests(stdin[..i]) == i && Limited(stdin[..i]) == i && Said(stdin, script, i) == Transcript(script, i)
  {
    if i > 0 {
      CountsStep(stdin, i - 1);
      AllRequests(stdin, script, i - 1);
    }
  }

  class PhpWorker {
    var requestCount: nat
    const maxRequests: nat
    var stdin: seq<Inbound>
    var stdout: seq<Frame>

    constructor (maxRequests: nat, stdin: seq<Inbound>)
      ensures this.maxRequests == maxRequests && this.stdin == stdin && stdout == [] && requestCount == 0
    {
      this.maxRequests := maxRequests;
      this.stdin := stdin;
      stdout := [];
      requestCount := 0;
    }

    /** The worker's fields as a link in phase php. */
    ghost function Now(php: Php): Link
      reads this
    {
      Fresh(stdin).(stdout := stdout, php := php, count := requestCount)
    }

    method WriteFrame(f: Frame)
      modifies this`stdout
      ensures stdout == old(stdout) + [f]
    {
      stdout := stdout + [f];
    }

    /** The handler and the send after it: every response goes out, one frame at a time. */
    method HandleRequest(call: Option<nat>, answers: seq<Frame>, ghost start: Link, ghost before: seq<Event>)
        returns (ghost trace: seq<Event>)
      requires forall i :: 0 <= i < |answers| ==> answers[i].kind == TYPE_RESPONSE
      requires CanAll(maxRequests, start, before) && AfterAll(maxRequests, start, before) == Now(Handling(call, 0))
      modifies this`stdout
      ensures stdout == old(stdout) + answers
      ensures before <= trace && forall i :: |before| <= i < |trace| ==> OwnStep(trace[i])
      ensures CanAll(maxRequests, start, trace)
      ensures AfterAll(maxRequests, start, trace) == Now(Handling(call, |answers|))
    {
      trace := before;
      var i := 0;
      while i < |answers|
        invariant 0 <= i <= |answers| && stdout == old(stdout) + answers[..i]
        invariant before <= trace && forall k :: |before| <= k < |trace| ==> OwnStep(trace[k])
        invariant CanAll(maxRequests, start, trace) && AfterAll(maxRequests, start, trace) == Now(Handling(call, i))
      {
        OneMore(maxRequests, start, trace, PhpEmit(answers[i]));
        WriteFrame(answers[i]);
        trace := trace + [PhpEmit(answers[i])];
        i := i + 1;
      }
    }

    /** One pass through the loop body: readFrame, the branches on the type, the limits, READY. */
    method RunTurn(frames: nat, script: Script, ghost start: Link, ghost before: seq<Event>)
        returns (goesOn: bool, ghost trace: seq<Event>)
      requires Answers(script)
      requires CanAll(maxRequests, start, before) && AfterAll(maxRequests, start, before) == Now(Head)
      modifies this
      ensures before <= trace && forall i :: |before| <= i < |trace| ==> OwnStep(trace[i])
      ensures CanAll(maxRequests, start, trace)
      ensures AfterAll(maxRequests, start, trace) == Now(if goesOn then Head else Exited)
      ensures Now(if goesOn then Head else Exited) == Turn(maxRequests, old(Now(Head)), frames, script)
    {
      hide CanAll, AfterAll;
      trace := before;
      if stdin == [] {
        OneMore(maxRequests, start, trace, PhpEof);
        return false, trace + [PhpEof];
      }
      OneMore(maxRequests, start, trace, PhpTake);
      trace := trace + [PhpTake];
      var m := stdin[0];
      stdin := stdin[1..];
      if m.frame.kind == TYPE_WORKER_STOP { return false, trace; }
      if m.frame.kind == TYPE_PING {
        WriteFrame(PONG);
        return true, trace;
      }
      if m.frame.kind == TYPE_REQUEST {
        trace := HandleRequest(m.call, script.answers(requestCount), start, trace);
        OneMore(maxRequests, start, trace, PhpFinish);
        trace := trace + [PhpFinish];
        requestCount := requestCount + 1;
      }
      var memoryOver := script.memoryOver(frames + 1);
      OneMore(maxRequests, start, trace, PhpCheck(memoryOver));
      trace := trace + [PhpCheck(memoryOver)];
      if maxRequests > 0 && requestCount >= maxRequests { return false, trace; }
      if memoryOver { return false, trace; }
      WriteFrame(READY);
      goesOn := true;
    }

    /** run(), with end of file behind the frames on stdin. handleRequest itself sends at least one
        response per request. Every frame up to the last one it deals with is answered in order, READY behind
        each but that one and the pongs, and what is behind that one stays unread. */
    method Run(script: Script) returns (ghost trace: seq<Event>)
      requires stdout == [] && requestCount == 0 && Answers(script)
      modifies this
      ensures Now(Exited) == Outcome(maxRequests, Fresh(old(stdin)).(php := Head, stdout := [READY]), 0, script)
      ensures forall i :: 0 <= i < |trace| ==> OwnStep(trace[i])
      ensures CanAll(maxRequests, Fresh(old(stdin)), trace)
      ensures AfterAll(maxRequests, Fresh(old(stdin)), trace) == Now(Exited)
      ensures var (frames, last) := (old(stdin), LastFrame(maxRequests, old(stdin), script, 0));
        var ended := last < |frames|;
        && stdout == [READY] + Said(frames, script, last) + (if ended then AnswerTo(frames, script, last) else [])
        && stdin == (if ended then frames[last + 1..] else [])
        && requestCount == Requests(if ended then frames[..last + 1] else frames)
    {
      OutcomeFromStart(maxRequests, stdin, script);
      hide LastFrame, Said, AnswerTo, Requests;
      ghost var start := Fresh(stdin);
      OneMore(maxRequests, start, [], PhpBoot);
      trace := [] + [PhpBoot];
      WriteFrame(READY);
      assert Now(Head) == start.(php := Head, stdout := [READY]);
      var frames, goesOn := 0, true;
      while goesOn
        invariant forall i :: 0 <= i < |trace| ==> OwnStep(trace[i])
        invariant CanAll(maxRequests, start, trace)
        invariant AfterAll(maxRequests, start, trace) == Now(if goesOn then Head else Exited)
        invariant Outcome(maxRequests, start.(php := Head, stdout := [READY]), 0, script)
                  == if goesOn then Outcome(maxRequests, Now(Head), frames, script) else Now(Exited)
        decreases goesOn, |stdin|
      {
        var read := stdin != [] && stdin[0].frame.kind != TYPE_PING;
        goesOn, trace := RunTurn(frames, script, start, trace);
        if read { frames := frames + 1; }
      }
    }
  }
}
