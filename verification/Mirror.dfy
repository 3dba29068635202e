/** The set of connections, kept twice: in the Go manager's client map and in the PHP server's connection
    map. Goroutines register, read and remove in any interleaving, and each tells PHP by a frame that
    arrives some time after the map has changed. */
module Mirror {
  import opened StreamServer

  /** What a goroutine is doing. A connection's own goroutine goes Idle, Connecting (registered, its connect
      frame on the way), Open (reading), then to Closing (removed, its close frame on the way) or, when
      somebody else removed the id before, straight to Ended. Any other goroutine that calls
      RemoveConnection goes from Idle. */
  datatype Pc = Idle | Connecting(id: Id) | Open(id: Id) | Closing(id: Id) | Ended

  /** `frames` is what has reached PHP, in order. */
  datatype System = System(clients: set<Id>, pcs: seq<Pc>, frames: seq<Event>)

  datatype Action =
    | Register(t: nat, id: Id)         // the locked part of AddConnection
    | Connected(t: nat)                // the connect frame arrives; AddConnection returns
    | Talk(t: nat, data: seq<int>)     // a message frame arrives
    | Remove(t: nat)                   // the locked part of RemoveConnection, after the read loop
    | Kick(t: nat, id: Id)             // the same, called by another goroutine
    | Closed(t: nat)                   // the close frame arrives

  predicate Holds(pc: Pc, id: Id) {
    !pc.Idle? && !pc.Ended? && pc.id == id
  }

  predicate Enabled(s: System, a: Action) {
    a.t < |s.pcs| &&
    match a
    case Register(t, id) => s.pcs[t].Idle? && id !in s.clients && forall u :: 0 <= u < |s.pcs| ==> !Holds(s.pcs[u], id)
    case Connected(t) => s.pcs[t].Connecting?
    case Talk(t, _) => s.pcs[t].Open?
    case Remove(t) => s.pcs[t].Open?
    case Kick(t, id) => s.pcs[t].Idle?
    case Closed(t) => s.pcs[t].Closing?
  }

  function Removed(s: System, t: nat, id: Id): System
    requires t < |s.pcs|
  {
    if id in s.clients then s.(clients := s.clients - {id}, pcs := s.pcs[t := Closing(id)])
    else s.(pcs := s.pcs[t := Ended])
  }

  function Apply(s: System, a: Action): System
    requires Enabled(s, a)
  {
    match a
    case Register(t, id) => s.(clients := s.clients + {id}, pcs := s.pcs[t := Connecting(id)])
    case Connected(t) => s.(pcs := s.pcs[t := Open(s.pcs[t].id)], frames := s.frames + [Connect(s.pcs[t].id)])
    case Talk(t, data) => s.(frames := s.frames + [Message(s.pcs[t].id, data)])
    case Remove(t) => Removed(s, t, s.pcs[t].id)
    case Kick(t, id) => Removed(s, t, id)
    case Closed(t) => s.(pcs := s.pcs[t := Ended], frames := s.frames + [Close(s.pcs[t].id)])
  }

  ghost predicate IsRun(s: System, run: seq<Action>)
    decreases |run|
  {
    run == [] || (Enabled(s, run[0]) && IsRun(Apply(s, run[0]), run[1..]))
  }

  ghost function After(s: System, run: seq<Action>): System
    requires IsRun(s, run)
    decreases |run|
  {
    if run == [] then s else After(Apply(s, run[0]), run[1..])
  }

  function Begin(goroutines: nat): System {
    System({}, seq(goroutines, _ => Idle), [])
  }

  // --- the two sets ---

  function PhpKeys(s: System): set<Id> {
    SeenAll(s.frames)
  }

  predicate IsConnecting(s: System, id: Id) {
    exists t :: 0 <= t < |s.pcs| && s.pcs[t] == Connecting(id)
  }

  predicate IsClosing(s: System, id: Id) {
    exists t :: 0 <= t < |s.pcs| && s.pcs[t] == Closing(id)
  }

  /** PHP's keys are the clients, without those whose connect is still on the way, and with those whose
      close is. */
  ghost predicate Mirrors(s: System) {
    forall id :: id in PhpKeys(s) <==> (id in s.clients && !IsConnecting(s, id)) || IsClosing(s, id)
  }

  /** A removal by another goroutine before AddConnection has returned for the id. */
  predicate TooEarly(s: System, a: Action) {
    a.Kick? && IsConnecting(s, a.id)
  }

  ghost predicate NeverTooEarly(s: System, run: seq<Action>)
    requires IsRun(s, run)
    decreases |run|
  {
    run == [] || (!TooEarly(s, run[0]) && NeverTooEarly(Apply(s, run[0]), run[1..]))
  }

  ghost predicate AlwaysMirrors(s: System, run: seq<Action>)
    requires IsRun(s, run)
    decreases |run|
  {
    Mirrors(s) && (run == [] || AlwaysMirrors(Apply(s, run[0]), run[1..]))
  }

  // --- what every step keeps ---

  /** Two goroutines that must not both have an id: both as their connection, or both closing it. */
  predicate Clash(p: Pc, q: Pc) {
    !p.Idle? && !p.Ended? && Holds(q, p.id) && (p.Closing? <==> q.Closing?)
  }

  ghost predicate Consistent(s: System) {
    && (forall t, u :: 0 <= t < u < |s.pcs| ==> !Clash(s.pcs[t], s.pcs[u]))
    && (forall t :: 0 <= t < |s.pcs| && s.pcs[t].Connecting? ==> s.pcs[t].id in s.clients)
    && (forall t :: 0 <= t < |s.pcs| && s.pcs[t].Closing? ==> s.pcs[t].id !in s.clients)
  }

  lemma StepKeepsConsistent(s: System, a: Action)
    requires Consistent(s) && Enabled(s, a) && !TooEarly(s, a)
    ensures Consistent(Apply(s, a))
  {
  }

  /** How one step moves the three sides of the equation, for the id it is about and for any other. */
  lemma StepMovesSets(s: System, a: Action, id: Id)
    requires Consistent(s) && Enabled(s, a) && !TooEarly(s, a)
    ensures var s' := Apply(s, a);
      && (IsConnecting(s', id) <==> (a == Register(a.t, id))
                                    || (IsConnecting(s, id) && !(a.Connected? && s.pcs[a.t] == Connecting(id))))
      && (IsClosing(s', id) <==> ((a.Remove? || a.Kick?) && s'.pcs[a.t] == Closing(id))
                                 || (IsClosing(s, id) && !(a.Closed? && s.pcs[a.t] == Closing(id))))
  {
    var s' := Apply(s, a);
    assert forall t :: 0 <= t < |s.pcs| && t != a.t ==> s'.pcs[t] == s.pcs[t];
    if t :| 0 <= t < |s.pcs| && s.pcs[t] == Connecting(id) { assert t != a.t ==> s'.pcs[t] == Connecting(id); }
    if t :| 0 <= t < |s.pcs| && s.pcs[t] == Closing(id) { assert t != a.t ==> s'.pcs[t] == Closing(id); }
    assert s'.pcs[a.t] == Apply(s, a).pcs[a.t];
  }

  lemma StepKeepsMirror(s: System, a: Action)
    requires Consistent(s) && Mirrors(s) && Enabled(s, a) && !TooEarly(s, a)
    ensures Mirrors(Apply(s, a))
  {
    forall id ensures id in PhpKeys(Apply(s, a)) <==>
      (id in Apply(s, a).clients && !IsConnecting(Apply(s, a), id)) || IsClosing(Apply(s, a), id)
    {
      MirrorsOne(s, a, id);
    }
  }

  lemma MirrorsOne(s: System, a: Action, id: Id)
    requires Consistent(s) && Mirrors(s) && Enabled(s, a) && !TooEarly(s, a)
    ensures id in PhpKeys(Apply(s, a)) <==>
      (id in Apply(s, a).clients && !IsConnecting(Apply(s, a), id)) || IsClosing(Apply(s, a), id)
  {
    StepMovesSets(s, a, id);
    var s' := Apply(s, a);
    var pc := s.pcs[a.t];
    if s'.frames != s.frames { OneMoreSeen(s.frames, s'.frames[|s.frames|]); }
    if a.Register? && a.id == id { assert !IsClosing(s, id); }
    if a.Remove? && pc.id == id { assert !IsConnecting(s, id); }
    if a.Connected? && pc.id == id { assert IsConnecting(s, id); }
    if a.Closed? && pc.id == id { assert IsClosing(s, id); }
    assert (IsConnecting(s, id) ==> id in s.clients) && (IsClosing(s, id) ==> id !in s.clients);
    hide Consistent, IsConnecting, IsClosing;
  }

  /** An early removal breaks the equation at once. */
  lemma EarlyRemovalBreaksMirror(s: System, a: Action)
    requires Consistent(s) && Mirrors(s) && Enabled(s, a) && TooEarly(s, a)
    ensures !Mirrors(Apply(s, a))
  {
    assert a.id in s.clients && !IsClosing(s, a.id) && a.id !in PhpKeys(s);
    assert Apply(s, a).pcs[a.t] == Closing(a.id);
    assert IsClosing(Apply(s, a), a.id);
  }

  lemma BeginMirrors(goroutines: nat)
    ensures Consistent(Begin(goroutines)) && Mirrors(Begin(goroutines))
  {
  }

  lemma {:induction false} MirrorsFrom(s: System, run: seq<Action>)
    requires Consistent(s) && Mirrors(s) && IsRun(s, run)
    ensures AlwaysMirrors(s, run) <==> NeverTooEarly(s, run)
    decreases |run|
  {
    hide Consistent, Mirrors, TooEarly, Enabled, Apply;
    if run != [] {
      if TooEarly(s, run[0]) {
        EarlyRemovalBreaksMirror(s, run[0]);
      } else {
        StepKeepsConsistent(s, run[0]);
        StepKeepsMirror(s, run[0]);
        MirrorsFrom(Apply(s, run[0]), run[1..]);
      }
    }
  }

  /** At every step of every interleaving PHP's keys are the clients minus the connects on the way plus the
      closes on the way: exactly when no removal comes before its AddConnection has returned. */
  lemma MirrorsIffNeverTooEarly(goroutines: nat, run: seq<Action>)
    requires IsRun(Begin(goroutines), run)
    ensures AlwaysMirrors(Begin(goroutines), run) <==> NeverTooEarly(Begin(goroutines), run)
  {
    hide AlwaysMirrors, NeverTooEarly, IsRun;
    BeginMirrors(goroutines);
    MirrorsFrom(Begin(goroutines), run);
  }

  /** The frames make sense to PHP: each connect is of an id it does not hold, each close of one it does. */
  ghost predicate Orderly(frames: seq<Event>) {
    forall k :: 0 <= k < |frames| ==>
      && (frames[k].Connect? ==> frames[k].id !in SeenAll(frames[..k]))
      && (frames[k].Close? ==> frames[k].id in SeenAll(frames[..k]))
  }

  lemma StepKeepsOrder(s: System, a: Action)
    requires Consistent(s) && Mirrors(s) && Enabled(s, a) && Orderly(s.frames)
    ensures Orderly(Apply(s, a).frames)
  {
    var frames := Apply(s, a).frames;
    if a.Connected? {
      assert IsConnecting(s, s.pcs[a.t].id);
      assert !IsClosing(s, s.pcs[a.t].id);
    }
    if a.Closed? { assert IsClosing(s, s.pcs[a.t].id); }
    forall k | 0 <= k < |frames| ensures (frames[k].Connect? ==> frames[k].id !in SeenAll(frames[..k]))
                                      && (frames[k].Close? ==> frames[k].id in SeenAll(frames[..k])) {
      if k < |s.frames| {
        assert frames[..k] == s.frames[..k] && frames[k] == s.frames[k];
      } else {
        assert frames[..k] == s.frames;
      }
    }
  }

  /** Nothing is on the way. */
  predicate Quiet(s: System) {
    forall t :: 0 <= t < |s.pcs| ==> !s.pcs[t].Connecting? && !s.pcs[t].Closing?
  }

  lemma {:induction false} OrderFrom(s: System, run: seq<Action>)
    requires Consistent(s) && Mirrors(s) && Orderly(s.frames) && IsRun(s, run) && NeverTooEarly(s, run)
    ensures var end := After(s, run);
      && Orderly(end.frames)
      && (Quiet(end) ==> PhpKeys(end) == end.clients)
    decreases |run|
  {
    hide Consistent, Orderly, TooEarly, Enabled, Apply, PhpKeys;
    if run != [] {
      StepKeepsConsistent(s, run[0]);
      StepKeepsMirror(s, run[0]);
      StepKeepsOrder(s, run[0]);
      OrderFrom(Apply(s, run[0]), run[1..]);
    }
  }

  /** However often and by whomever a connection is removed, PHP sees for each id a connect, then one close,
      then possibly the next connect; and when nothing is on the way both sides hold the same ids. */
  lemma OneCloseForEachConnect(goroutines: nat, run: seq<Action>)
    requires IsRun(Begin(goroutines), run) && NeverTooEarly(Begin(goroutines), run)
    ensures var end := After(Begin(goroutines), run);
      Orderly(end.frames) && (Quiet(end) ==> PhpKeys(end) == end.clients)
  {
    assert Orderly(Begin(goroutines).frames);
    hide NeverTooEarly, IsRun, After, Orderly, Quiet;
    BeginMirrors(goroutines);
    OrderFrom(Begin(goroutines), run);
  }

  // --- messages ---

  /** The messages among what has reached PHP. */
  function Messages(frames: seq<Event>): seq<Event> {
    if frames == [] then []
    else Messages(frames[..|frames| - 1]) + (if frames[|frames| - 1].Message? then [frames[|frames| - 1]] else [])
  }

  /** What the connections' goroutines read in a run, each under its own id. */
  ghost function Spoken(s: System, run: seq<Action>): seq<Event>
    requires IsRun(s, run)
    decreases |run|
  {
    if run == [] then []
    else (if run[0].Talk? then [Message(s.pcs[run[0].t].id, run[0].data)] else []) + Spoken(Apply(s, run[0]), run[1..])
  }

  lemma StepMessages(s: System, a: Action)
    requires Enabled(s, a)
    ensures Messages(Apply(s, a).frames) ==
            Messages(s.frames) + (if a.Talk? then [Message(s.pcs[a.t].id, a.data)] else [])
  {
    var frames := Apply(s, a).frames;
    if frames != s.frames { assert frames[..|frames| - 1] == s.frames; }
    assert Messages(s.frames) + [] == Messages(s.frames);
  }

  /** Every message a connection reads reaches PHP once, under its id, in order, whatever is removed when. */
  lemma {:induction false} MessagesArriveInOrder(s: System, run: seq<Action>)
    requires IsRun(s, run)
    ensures Messages(After(s, run).frames) == Messages(s.frames) + Spoken(s, run)
    decreases |run|
  {
    hide Apply, Enabled, Messages;
    if run == [] {
      assert Messages(s.frames) + [] == Messages(s.frames);
    } else {
      StepMessages(s, run[0]);
      MessagesArriveInOrder(Apply(s, run[0]), run[1..]);
    }
  }

  /** The leak an early removal causes: everything has ended, the manager holds nothing, and PHP holds the
      connection for good. */
  lemma EarlyRemovalLeaks(id: Id)
    ensures var run := [Register(0, id), Kick(1, id), Closed(1), Connected(0), Remove(0)];
      && IsRun(Begin(2), run)
      && var end := After(Begin(2), run);
        end.pcs == [Ended, Ended] && end.clients == {} && PhpKeys(end) == {id}
  {
    var s1, s2, s3, s4, s5 := LeakSteps(id);
    hide *;
    var a0, a1, a2, a3, a4 := Register(0, id), Kick(1, id), Closed(1), Connected(0), Remove(0);
    assert [a4] + [] == [a4] && [a3] + [a4] == [a3, a4] && [a2] + [a3, a4] == [a2, a3, a4];
    assert [a1] + [a2, a3, a4] == [a1, a2, a3, a4] && [a0] + [a1, a2, a3, a4] == [a0, a1, a2, a3, a4];
    NoStep(s5);
    OneMoreStep(s4, a4, []);
    OneMoreStep(s3, a3, [a4]);
    OneMoreStep(s2, a2, [a3, a4]);
    OneMoreStep(s1, a1, [a2, a3, a4]);
    OneMoreStep(Begin(2), a0, [a1, a2, a3, a4]);
  }

  /** The five steps of the leak, one after the other. */
  lemma LeakSteps(id: Id) returns (s1: System, s2: System, s3: System, s4: System, s5: System)
    ensures Enabled(Begin(2), Register(0, id)) && Apply(Begin(2), Register(0, id)) == s1
    ensures Enabled(s1, Kick(1, id)) && Apply(s1, Kick(1, id)) == s2
    ensures Enabled(s2, Closed(1)) && Apply(s2, Closed(1)) == s3
    ensures Enabled(s3, Connected(0)) && Apply(s3, Connected(0)) == s4
    ensures Enabled(s4, Remove(0)) && Apply(s4, Remove(0)) == s5
    ensures s5.pcs == [Ended, Ended] && s5.clients == {} && PhpKeys(s5) == {id}
  {
    s1 := System({id}, [Connecting(id), Idle], []);
    s2 := System({}, [Connecting(id), Closing(id)], []);
    s3 := System({}, [Connecting(id), Ended], [Close(id)]);
    s4 := System({}, [Open(id), Ended], [Close(id), Connect(id)]);
    s5 := System({}, [Ended, Ended], [Close(id), Connect(id)]);
    assert [] + [Close(id)] == [Close(id)];
    OneMoreSeen([], Close(id));
    OneMoreSeen([Close(id)], Connect(id));
  }

  lemma NoStep(s: System)
    ensures IsRun(s, []) && After(s, []) == s
  {
  }

  lemma OneMoreStep(s: System, a: Action, rest: seq<Action>)
    requires Enabled(s, a)
    ensures IsRun(Apply(s, a), rest) ==> IsRun(s, [a] + rest) && After(s, [a] + rest) == After(Apply(s, a), rest)
  {
    assert ([a] + rest)[1..] == rest;
  }
}
