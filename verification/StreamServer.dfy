/** The SDK's WebSocket server: a loop over incoming frames that keeps one Connection per connected id and
    calls the registered handlers. */
module StreamServer {

  type Id = string

  /** What a stream frame's header says, once decoded. */
  datatype Event = Connect(id: Id) | Message(id: Id, data: seq<int>) | Close(id: Id) | Unknown

  /** A frame as the loop tells them apart; a stream frame whose header cannot be decoded is Garbled. */
  datatype Input = Stop | Ping | Stream(event: Event) | Garbled | Ignored

  /** The ids PHP holds a connection for. */
  function Seen(keys: set<Id>, event: Event): set<Id> {
    match event
    case Connect(id) => keys + {id}
    case Close(id) => keys - {id}
    case _ => keys
  }

  function SeenAll(events: seq<Event>): set<Id> {
    if events == [] then {} else Seen(SeenAll(events[..|events| - 1]), events[|events| - 1])
  }

  /** The events of the inputs in front of the first Stop. */
  function Handled(inputs: seq<Input>): seq<Event> {
    if inputs == [] || inputs[0].Stop? then []
    else (if inputs[0].Stream? then [inputs[0].event] else []) + Handled(inputs[1..])
  }

  function Pings(inputs: seq<Input>): nat {
    if inputs == [] || inputs[0].Stop? then 0
    else (if inputs[0].Ping? then 1 else 0) + Pings(inputs[1..])
  }

  /** The first Stop, or the end. */
  function StopAt(inputs: seq<Input>, i: nat): (k: nat)
    requires i <= |inputs|
    ensures i <= k <= |inputs| && (forall j :: i <= j < k ==> !inputs[j].Stop?) && (k < |inputs| ==> inputs[k].Stop?)
    decreases |inputs| - i
  {
    if i == |inputs| || inputs[i].Stop? then i else StopAt(inputs, i + 1)
  }

  /** Where the stream frames and the pings among the inputs from lo to hi stand. */
  function Streams(inputs: seq<Input>, lo: nat, hi: nat): set<nat>
    requires hi <= |inputs|
  {
    set j: nat | lo <= j < hi && inputs[j].Stream?
  }

  function PingsAt(inputs: seq<Input>, lo: nat, hi: nat): set<nat>
    requires hi <= |inputs|
  {
    set j: nat | lo <= j < hi && inputs[j].Ping?
  }

  /** The n-th event handled is that of the stream frame with n others in front of it; every stream frame in
      front of the first Stop is handled, and every ping there is counted. */
  lemma HandledInOrder(inputs: seq<Input>)
    ensures var k := StopAt(inputs, 0);
      && |Handled(inputs)| == |Streams(inputs, 0, k)| && Pings(inputs) == |PingsAt(inputs, 0, k)|
      && forall j :: 0 <= j < k && inputs[j].Stream? ==>
           |Streams(inputs, 0, j)| < |Handled(inputs)|
           && Handled(inputs)[|Streams(inputs, 0, j)|] == inputs[j].event
  {
    assert inputs[0..] == inputs;
    HandledFrom(inputs, 0);
  }

  lemma {:induction false} HandledFrom(inputs: seq<Input>, i: nat)
    requires i <= |inputs|
    ensures var k := StopAt(inputs, i);
      && |Handled(inputs[i..])| == |Streams(inputs, i, k)| && Pings(inputs[i..]) == |PingsAt(inputs, i, k)|
      && forall j :: i <= j < k && inputs[j].Stream? ==>
           |Streams(inputs, i, j)| < |Handled(inputs[i..])|
           && Handled(inputs[i..])[|Streams(inputs, i, j)|] == inputs[j].event
    decreases |inputs| - i
  {
    var k := StopAt(inputs, i);
    if i < k {
      assert inputs[i..][0] == inputs[i] && inputs[i..][1..] == inputs[i + 1..];
      HandledFrom(inputs, i + 1);
      FirstApart(inputs, i, k);
      forall j | i <= j < k && inputs[j].Stream?
        ensures |Streams(inputs, i, j)| < |Handled(inputs[i..])|
        ensures Handled(inputs[i..])[|Streams(inputs, i, j)|] == inputs[j].event
      {
        if j == i { assert Streams(inputs, i, j) == {}; } else { FirstApart(inputs, i, j); }
      }
    } else {
      assert Streams(inputs, i, k) == {} && PingsAt(inputs, i, k) == {};
    }
  }

  lemma FirstApart(inputs: seq<Input>, i: nat, hi: nat)
    requires i < hi <= |inputs|
    ensures |Streams(inputs, i, hi)| == |Streams(inputs, i + 1, hi)| + (if inputs[i].Stream? then 1 else 0)
    ensures |PingsAt(inputs, i, hi)| == |PingsAt(inputs, i + 1, hi)| + (if inputs[i].Ping? then 1 else 0)
  {
    assert Streams(inputs, i, hi) == Streams(inputs, i + 1, hi) + (if inputs[i].Stream? then {i} else {});
    assert PingsAt(inputs, i, hi) == PingsAt(inputs, i + 1, hi) + (if inputs[i].Ping? then {i} else {});
  }

  /** An id is held exactly when its last connect has no close behind it. */
  lemma {:induction false} SeenIffOpen(events: seq<Event>, id: Id)
    ensures id in SeenAll(events) <==>
      exists k :: 0 <= k < |events| && events[k] == Connect(id) && NoCloseFrom(events, k + 1, id)
  {
    if events != [] {
      var n := |events| - 1;
      var front := events[..n];
      SeenIffOpen(front, id);
      if k :| 0 <= k < n && front[k] == Connect(id) && NoCloseFrom(front, k + 1, id) {
        assert events[k] == Connect(id);
        assert events[n] != Close(id) ==> NoCloseFrom(events, k + 1, id);
      }
      if events[n] == Connect(id) { assert NoCloseFrom(events, n + 1, id); }
      if k :| 0 <= k < |events| && events[k] == Connect(id) && NoCloseFrom(events, k + 1, id) {
        assert k < n ==> front[k] == Connect(id) && NoCloseFrom(front, k + 1, id) && events[n] != Close(id);
      }
    }
  }

  ghost predicate NoCloseFrom(events: seq<Event>, from: nat, id: Id) {
    forall k :: from <= k < |events| ==> events[k] != Close(id)
  }

  class Connection {
    const id: Id

    constructor (id: Id)
      ensures this.id == id
    {
      this.id := id;
    }
  }

  /** A handler call: which handler, with which connection object. */
  datatype Call = OnConnect(conn: Connection) | OnMessage(conn: Connection, data: seq<int>) | OnClose(conn: Connection)

  /** The event a handler call answers. */
  function Told(call: Call): Event {
    match call
    case OnConnect(conn) => Connect(conn.id)
    case OnMessage(conn, data) => Message(conn.id, data)
    case OnClose(conn) => Close(conn.id)
  }

  /** The events that have a handler. */
  function Known(events: seq<Event>): seq<Event> {
    if events == [] then []
    else Known(events[..|events| - 1]) + (if events[|events| - 1].Unknown? then [] else [events[|events| - 1]])
  }

  /** One call for each known event, in order. */
  predicate Tells(calls: seq<Call>, events: seq<Event>) {
    |calls| == |Known(events)| && forall k :: 0 <= k < |calls| ==> Told(calls[k]) == Known(events)[k]
  }

  lemma TellsMore(before: seq<Call>, calls: seq<Call>, events: seq<Event>, e: Event)
    requires Tells(before, events)
    requires if e.Unknown? then calls == before
             else |calls| == |before| + 1 && calls[..|before|] == before && Told(calls[|before|]) == e
    ensures Tells(calls, events + [e])
  {
    assert (events + [e])[..|events|] == events;
    assert forall k :: 0 <= k < |before| ==> calls[..|before|][k] == before[k];
  }

  lemma OneMoreSeen(events: seq<Event>, e: Event)
    ensures SeenAll(events + [e]) == Seen(SeenAll(events), e)
  {
    assert (events + [e])[..|events|] == events;
  }

  /** What the input at i adds to what is handled and counted from there on. */
  lemma HandledStep(inputs: seq<Input>, i: nat)
    requires i < |inputs|
    ensures Handled(inputs[i..]) ==
      if inputs[i].Stop? then []
      else (if inputs[i].Stream? then [inputs[i].event] else []) + Handled(inputs[i + 1..])
    ensures Pings(inputs[i..]) ==
      if inputs[i].Stop? then 0 else (if inputs[i].Ping? then 1 else 0) + Pings(inputs[i + 1..])
  {
    assert inputs[i..][0] == inputs[i] && inputs[i..][1..] == inputs[i + 1..];
  }

  lemma Regroup(a: seq<Event>, b: seq<Event>, c: seq<Event>)
    ensures a + (b + c) == (a + b) + c && a + [] == a
  {
  }

  class Server {
    var connections: map<Id, Connection>
    var calls: seq<Call>
    var pongs: nat
    var ready: bool

    constructor ()
      ensures connections == map[] && calls == [] && pongs == 0 && !ready
    {
      connections, calls, pongs, ready := map[], [], 0, false;
    }

    ghost predicate Valid()
      reads this
    {
      forall id :: id in connections ==> connections[id].id == id
    }

    /** One event. A handler that throws is caught behind the change it was called after, so it changes
        nothing here. A known id's handler gets the object kept since its connect; an unknown one's gets a
        new object that is not kept. */
    method HandleStream(event: Event)
      requires Valid()
      modifies this`connections, this`calls
      ensures Valid() && connections.Keys == Seen(old(connections.Keys), event)
      ensures forall id :: id in connections && id in old(connections) && event != Connect(id) ==>
        connections[id] == old(connections[id])
      ensures event.Unknown? ==> calls == old(calls)
      ensures !event.Unknown? ==> |calls| == |old(calls)| + 1 && calls[..|old(calls)|] == old(calls)
      ensures !event.Unknown? ==>
        var call := calls[|calls| - 1];
        && call.conn.id == event.id
        && (event.Connect? ==> call == OnConnect(connections[event.id]) && fresh(call.conn))
        && (event.Message? ==> call == OnMessage(call.conn, event.data))
        && (event.Close? ==> call == OnClose(call.conn))
        && (!event.Connect? ==>
              if event.id in old(connections) then call.conn == old(connections[event.id]) else fresh(call.conn))
    {
      match event {
        case Connect(id) =>
          var conn := new Connection(id);
          connections := connections[id := conn];
          calls := calls + [OnConnect(conn)];
        case Message(id, data) =>
          var conn := Lookup(id);
          calls := calls + [OnMessage(conn, data)];
        case Close(id) =>
          var conn := Lookup(id);
          connections := connections - {id};
          calls := calls + [OnClose(conn)];
        case Unknown =>
      }
    }

    method Lookup(id: Id) returns (conn: Connection)
      requires Valid()
      ensures conn.id == id
      ensures if id in connections then conn == connections[id] else fresh(conn)
    {
      if id in connections {
        conn := connections[id];
      } else {
        conn := new Connection(id);
      }
    }

    /** The loop: it says it is ready, then handles frames until STOP or the end of input. */
    method Run(inputs: seq<Input>)
      requires Valid() && connections == map[] && pongs == 0 && calls == []
      modifies this
      ensures Valid() && ready && Tells(calls, Handled(inputs))
      ensures connections.Keys == SeenAll(Handled(inputs)) && pongs == Pings(inputs)
    {
      assert Tells(calls, []) && inputs[0..] == inputs;
      hide Tells, Handled, Pings, SeenAll, Known;
      ready := true;
      ghost var events := [];
      var i := 0;
      while i < |inputs|
        invariant 0 <= i <= |inputs| && Valid() && ready
        invariant connections.Keys == SeenAll(events) && Tells(calls, events)
        invariant events + Handled(inputs[i..]) == Handled(inputs)
        invariant pongs + Pings(inputs[i..]) == Pings(inputs)
      {
        var frame := inputs[i];
        HandledStep(inputs, i);
        Regroup(events, if frame.Stream? then [frame.event] else [], Handled(inputs[i + 1..]));
        if frame.Stop? { break; }
        if frame.Ping? {
          pongs := pongs + 1;
        } else if frame.Stream? {
          ghost var before := calls;
          HandleStream(frame.event);
          TellsMore(before, calls, events, frame.event);
          OneMoreSeen(events, frame.event);
          events := events + [frame.event];
        }
        i := i + 1;
      }
      assert events + Handled(inputs[i..]) == events;
    }
  }
}
