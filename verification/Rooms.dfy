/** The WebSocket manager's index: clients by id, each with its set of rooms, and rooms by name, each with
    its members. The two sides are kept mutually inverse, and every operation acts on them as on one plain
    relation between ids and rooms. */
module Rooms {

  type Id = string
  type Data = seq<int>

  /** One connection. The Go map from room name to true is a set of names; `sent` is what was handed to
      the socket, which may refuse it. */
  class Client {
    const id: Id
    var rooms: set<string>
    var sent: seq<Data>
    var broken: bool

    constructor (id: Id)
      ensures this.id == id && rooms == {} && sent == []
    {
      this.id, rooms, sent, broken := id, {}, [], false;
    }

    method Send(data: Data) returns (ok: bool)
      modifies this`sent
      ensures sent == old(sent) + [data]
    {
      sent := sent + [data];
      ok := !broken;
    }
  }

  // --- the plain relation ---

  /** Which ids are registered, and who is in which room. */
  datatype Index = Index(ids: set<Id>, pairs: set<(Id, string)>)

  datatype Op = Add(id: Id) | Remove(id: Id) | Join(id: Id, room: string) | Leave(id: Id, room: string)

  function Step(x: Index, op: Op): Index {
    match op
    case Add(id) => Index(x.ids + {id}, x.pairs)
    case Remove(id) => Index(x.ids - {id}, set p | p in x.pairs && p.0 != id)
    case Join(id, room) => if id in x.ids then Index(x.ids, x.pairs + {(id, room)}) else x
    case Leave(id, room) => Index(x.ids, x.pairs - {(id, room)})
  }

  function After(ops: seq<Op>): Index {
    if ops == [] then Index({}, {}) else Step(After(ops[..|ops| - 1]), ops[|ops| - 1])
  }

  /** Connection ids are never handed out twice at the same time. */
  ghost predicate FreshIds(ops: seq<Op>) {
    forall k :: 0 <= k < |ops| && ops[k].Add? ==> ops[k].id !in After(ops[..k]).ids
  }

  /** A registered id: added, and not removed since. */
  ghost predicate Registered(ops: seq<Op>, id: Id) {
    exists a :: 0 <= a < |ops| && ops[a] == Add(id) && NoneFrom(ops, a + 1, {Remove(id)})
  }

  /** A room member: joined while registered, and neither left nor removed since. */
  ghost predicate Member(ops: seq<Op>, id: Id, room: string) {
    exists j :: 0 <= j < |ops| && ops[j] == Join(id, room) && Registered(ops[..j], id)
                && NoneFrom(ops, j + 1, {Leave(id, room), Remove(id)})
  }

  ghost predicate NoneFrom(ops: seq<Op>, from: nat, ending: set<Op>) {
    forall k :: from <= k < |ops| ==> ops[k] !in ending
  }

  lemma RegisteredStep(ops: seq<Op>, op: Op, id: Id)
    ensures Registered(ops + [op], id) <==> op == Add(id) || (op != Remove(id) && Registered(ops, id))
  {
    var all := ops + [op];
    if op == Add(id) { assert all[|ops|] == Add(id) && NoneFrom(all, |ops| + 1, {Remove(id)}); }
    if op != Remove(id) && Registered(ops, id) {
      var a :| 0 <= a < |ops| && ops[a] == Add(id) && NoneFrom(ops, a + 1, {Remove(id)});
      assert all[a] == Add(id) && NoneFrom(all, a + 1, {Remove(id)});
    }
    if Registered(all, id) && op != Add(id) {
      var a :| 0 <= a < |all| && all[a] == Add(id) && NoneFrom(all, a + 1, {Remove(id)});
      assert a != |ops| && all[|ops|] == op;
      assert forall k :: 0 <= k < |ops| ==> ops[k] == all[k];
      assert NoneFrom(ops, a + 1, {Remove(id)});
    }
  }

  lemma NoneFromStep(ops: seq<Op>, op: Op, from: nat, ending: set<Op>)
    requires from <= |ops|
    ensures NoneFrom(ops + [op], from, ending) <==> op !in ending && NoneFrom(ops, from, ending)
  {
    var all := ops + [op];
    assert all[|ops|] == op && forall k :: 0 <= k < |ops| ==> all[k] == ops[k];
  }

  lemma MemberStep(ops: seq<Op>, op: Op, id: Id, room: string)
    ensures Member(ops + [op], id, room) <==>
      || (op == Join(id, room) && Registered(ops, id))
      || (op != Leave(id, room) && op != Remove(id) && Member(ops, id, room))
  {
    if Member(ops + [op], id, room) { MemberBefore(ops, op, id, room); } else { MemberBehind(ops, op, id, room); }
  }

  lemma MemberBefore(ops: seq<Op>, op: Op, id: Id, room: string)
    requires Member(ops + [op], id, room)
    ensures || (op == Join(id, room) && Registered(ops, id))
            || (op != Leave(id, room) && op != Remove(id) && Member(ops, id, room))
  {
    hide Registered;
    var all, ending := ops + [op], {Leave(id, room), Remove(id)};
    var j :| 0 <= j < |all| && all[j] == Join(id, room) && Registered(all[..j], id) && NoneFrom(all, j + 1, ending);
    hide NoneFrom;
    assert all[..j] == ops[..j];
    if j < |ops| { NoneFromStep(ops, op, j + 1, ending); }
  }

  lemma MemberBehind(ops: seq<Op>, op: Op, id: Id, room: string)
    ensures op == Join(id, room) && Registered(ops, id) ==> Member(ops + [op], id, room)
    ensures op != Leave(id, room) && op != Remove(id) && Member(ops, id, room) ==> Member(ops + [op], id, room)
  {
    hide Registered;
    var all, ending := ops + [op], {Leave(id, room), Remove(id)};
    if op == Join(id, room) && Registered(ops, id) {
      assert all[..|ops|] == ops && all[|ops|] == op && NoneFrom(all, |ops| + 1, ending);
    }
    hide NoneFrom;
    if op !in ending && Member(ops, id, room) {
      var j :| 0 <= j < |ops| && ops[j] == Join(id, room) && Registered(ops[..j], id) && NoneFrom(ops, j + 1, ending);
      NoneFromStep(ops, op, j + 1, ending);
      assert all[..j] == ops[..j] && all[j] == ops[j];
    }
  }

  /** After any sequence of operations, who is registered and who is in which room is what the history
      says: the relation has no memory of its own. */
  lemma {:induction false} IndexTellsHistory(ops: seq<Op>, id: Id, room: string)
    ensures id in After(ops).ids <==> Registered(ops, id)
    ensures (id, room) in After(ops).pairs <==> Member(ops, id, room)
  {
    hide Registered, Member;
    if ops == [] {
      NoHistory(id, room);
    } else {
      var front, op := ops[..|ops| - 1], ops[|ops| - 1];
      assert ops == front + [op];
      IndexTellsHistory(front, id, room);
      RegisteredStep(front, op, id);
      MemberStep(front, op, id, room);
    }
  }

  lemma NoHistory(id: Id, room: string)
    ensures !Registered([], id) && !Member([], id, room)
  {
  }

  // --- the two maps as values ---

  type Members = map<Id, Client>

  /** An id is in a room's members exactly when it has the room, and what is stored there is the registered
      client; no room is empty. */
  ghost predicate Inverse(belongs: map<Id, set<string>>, clients: Members, rooms: map<string, Members>) {
    && belongs.Keys == clients.Keys
    && (forall room :: room in rooms ==> rooms[room] != map[])
    && (forall room, id :: room in rooms && id in rooms[room] ==> id in belongs && room in belongs[id])
    && (forall room, id :: room in rooms && id in rooms[room] ==> id in clients && rooms[room][id] == clients[id])
    && (forall id, room :: id in belongs && room in belongs[id] ==> room in rooms && id in rooms[room])
  }

  ghost function Pairs(belongs: map<Id, set<string>>): set<(Id, string)> {
    set id, room | id in belongs && room in belongs[id] :: (id, room)
  }

  /** delete(members, id), and the room with it when that was its last member. */
  function Dropped(rooms: map<string, Members>, room: string, id: Id): map<string, Members> {
    if room !in rooms then rooms
    else if rooms[room] - {id} == map[] then rooms - {room}
    else rooms[room := rooms[room] - {id}]
  }

  lemma JoinKeeps(belongs: map<Id, set<string>>, clients: Members, rooms: map<string, Members>, id: Id, room: string)
    requires Inverse(belongs, clients, rooms) && id in clients
    ensures var belongs' := belongs[id := belongs[id] + {room}];
      var members := if room in rooms then rooms[room] else map[];
      && Inverse(belongs', clients, rooms[room := members[id := clients[id]]])
      && Pairs(belongs') == Pairs(belongs) + {(id, room)}
  {
    var members := if room in rooms then rooms[room] else map[];
    assert id in members[id := clients[id]];
  }

  lemma LeaveKeeps(belongs: map<Id, set<string>>, clients: Members, rooms: map<string, Members>, id: Id, room: string)
    requires Inverse(belongs, clients, rooms) && id in clients
    ensures var belongs' := belongs[id := belongs[id] - {room}];
      Inverse(belongs', clients, Dropped(rooms, room, id)) && Pairs(belongs') == Pairs(belongs) - {(id, room)}
  {
    var belongs', rooms' := belongs[id := belongs[id] - {room}], Dropped(rooms, room, id);
    forall i, r | i in belongs' && r in belongs'[i] ensures r in rooms' && i in rooms'[r] {
      assert r in rooms && i in rooms[r];
      if r == room { assert i in rooms[room] - {id}; }
    }
  }

  /** The room map with the id taken out of some rooms. */
  ghost predicate Cleared(was: map<string, Members>, now: map<string, Members>, id: Id, done: set<string>) {
    && (forall room :: room in now <==> room in was && !(room in done && was[room] - {id} == map[]))
    && (forall room :: room in now ==> now[room] == if room in done then was[room] - {id} else was[room])
  }

  lemma ClearOneMore(was: map<string, Members>, now: map<string, Members>, id: Id, done: set<string>, room: string)
    requires Cleared(was, now, id, done) && room !in done
    ensures Cleared(was, Dropped(now, room, id), id, done + {room})
  {
  }

  lemma RemoveKeeps(belongs: map<Id, set<string>>, clients: Members, was: map<string, Members>, now: map<string,
      Members>, id: Id)
    requires Inverse(belongs, clients, was) && id in clients && Cleared(was, now, id, belongs[id])
    ensures Inverse(belongs - {id}, clients - {id}, now)
    ensures Pairs(belongs - {id}) == set p | p in Pairs(belongs) && p.0 != id
  {
    forall i, r | i in belongs - {id} && r in belongs[i] ensures r in now && i in now[r] {
      assert r in was && i in was[r];
      if r in belongs[id] { assert i in was[r] - {id}; }
    }
  }

  /** Registering under an id: right exactly when nothing was in a room under it. */
  lemma AddKeepsIff(belongs: map<Id, set<string>>, clients: Members, rooms: map<string, Members>, id: Id,
      client: Client)
    requires Inverse(belongs, clients, rooms)
    ensures Inverse(belongs[id := {}], clients[id := client], rooms) <==> id !in belongs || belongs[id] == {}
    ensures id !in belongs ==> Pairs(belongs[id := {}]) == Pairs(belongs)
  {
    if id in belongs && belongs[id] != {} {
      var room :| room in belongs[id];
      assert room in rooms && id in rooms[room] && room !in belongs[id := {}][id];
      assert !Inverse(belongs[id := {}], clients[id := client], rooms);
    } else {
      assert Inverse(belongs[id := {}], clients[id := client], rooms);
    }
  }

  /** A drawn id that is taken by a client in a room leaves the room pointing at the old client. */
  lemma TakenIdBreaksIndex(id: Id, room: string, client: Client, newer: Client)
    ensures Inverse(map[id := {room}], map[id := client], map[room := map[id := client]])
    ensures !Inverse(map[id := {}], map[id := newer], map[room := map[id := client]])
  {
    var (belongs, clients, rooms) := (map[id := {room}], map[id := client], map[room := map[id := client]]);
    assert id in rooms[room] && rooms[room] != map[];
    assert Inverse(belongs, clients, rooms);
    AddKeepsIff(belongs, clients, rooms, id, newer);
    assert belongs[id := {}] == map[id := {}] && clients[id := newer] == map[id := newer];
  }

  // --- the manager ---

  class Manager {
    var clients: Members
    var rooms: map<string, Members>

    /** The rooms each registered client has. */
    ghost function Belongs(): map<Id, set<string>>
      reads this, clients.Values
    {
      map id | id in clients :: clients[id].rooms
    }

    /** Clients sit under their own id, and the room map is the clients' room sets turned around. */
    ghost predicate Valid()
      reads this, clients.Values
    {
      (forall id :: id in clients ==> clients[id].id == id) && Inverse(Belongs(), clients, rooms)
    }

    /** The relation, read off the clients' side. */
    ghost function Abs(): Index
      reads this, clients.Values
    {
      Index(clients.Keys, Pairs(Belongs()))
    }

    constructor ()
      ensures Valid() && Abs() == After([])
    {
      clients, rooms := map[], map[];
    }

    /** Nothing checks the drawn id against the registered ones. The index survives exactly when the id was
        free, or its previous owner was in no room. */
    method AddConnection(id: Id) returns (client: Client)
      requires Valid()
      modifies this
      ensures fresh(client) && client.id == id && client.rooms == {} && client.sent == []
      ensures clients == old(clients)[id := client] && rooms == old(rooms)
      ensures Valid() <==> (id !in old(clients) || old(clients[id].rooms) == {})
      ensures id !in old(clients) ==> Abs() == Step(old(Abs()), Add(id))
    {
      hide Inverse, Pairs;
      client := new Client(id);
      clients := clients[id := client];
      assert Belongs() == old(Belongs())[id := {}];
      AddKeepsIff(old(Belongs()), old(clients), rooms, id, client);
    }

    method DropMember(room: string, id: Id)
      modifies this`rooms
      ensures rooms == Dropped(old(rooms), room, id)
    {
      if room in rooms {
        rooms := rooms[room := rooms[room] - {id}];
        if rooms[room] == map[] { rooms := rooms - {room}; }
      }
    }

    /** Unregisters the id and takes it out of every room; says whether there was anything to do, in which
        case one close frame is sent. */
    method RemoveConnection(id: Id) returns (notify: bool)
      requires Valid()
      modifies this
      ensures Valid() && Abs() == Step(old(Abs()), Remove(id))
      ensures clients == old(clients) - {id}
      ensures notify == (id in old(clients))
    {
      hide Inverse, Cleared, Dropped;
      ghost var belongs := Belongs();
      if id !in clients {
        assert clients == clients - {id};
        assert Abs() == Step(old(Abs()), Remove(id));
        return false;
      }
      var todo := clients[id].rooms;
      NothingCleared(rooms, id);
      assert belongs[id] - todo == {};
      while todo != {}
        invariant clients == old(clients) && id in clients && todo <= belongs[id]
        invariant Cleared(old(rooms), rooms, id, belongs[id] - todo)
        decreases todo
      {
        var room :| room in todo;
        ClearOneMore(old(rooms), rooms, id, belongs[id] - todo, room);
        DropMember(room, id);
        assert belongs[id] - (todo - {room}) == (belongs[id] - todo) + {room};
        todo := todo - {room};
      }
      assert belongs[id] - todo == belongs[id];
      RemoveKeeps(belongs, clients, old(rooms), rooms, id);
      clients := clients - {id};
      assert Belongs() == belongs - {id};
      notify := true;
    }

    method JoinRoom(id: Id, room: string)
      requires Valid()
      modifies this`rooms, (if id in clients then {clients[id]} else {})`rooms
      ensures Valid() && Abs() == Step(old(Abs()), Join(id, room))
    {
      hide Inverse, Pairs;
      if id !in clients { return; }
      var client := clients[id];
      if room !in rooms { rooms := rooms[room := map[]]; }
      rooms := rooms[room := rooms[room][id := client]];
      client.rooms := client.rooms + {room};
      JoinKeeps(old(Belongs()), clients, old(rooms), id, room);
      assert Belongs() == old(Belongs())[id := old(Belongs())[id] + {room}];
      assert room !in old(rooms) ==> rooms == old(rooms)[room := map[id := client]];
    }

    method LeaveRoom(id: Id, room: string)
      requires Valid()
      modifies this`rooms, (if id in clients then {clients[id]} else {})`rooms
      ensures Valid() && Abs() == Step(old(Abs()), Leave(id, room))
    {
      hide Inverse, Dropped;
      if id !in clients {
        assert (id, room) !in Pairs(Belongs());
        return;
      }
      var client := clients[id];
      DropMember(room, id);
      client.rooms := client.rooms - {room};
      LeaveKeeps(old(Belongs()), clients, old(rooms), id, room);
      assert Belongs() == old(Belongs())[id := old(Belongs())[id] - {room}];
    }

    /** The clients of a room, read off the relation, without the excluded one. */
    ghost function Audience(room: string, exclude: Id): set<Client>
      reads this, clients.Values
    {
      set c | c in clients.Values && room in c.rooms && c.id != exclude
    }

    ghost function Everyone(exclude: Id): set<Client>
      reads this
    {
      set c | c in clients.Values && c.id != exclude
    }

    /** The audience is the relation's members of the room, one client for each id. */
    lemma AudienceIsMembers(room: string, exclude: Id)
      requires Valid()
      ensures forall id ::
        (id, room) in Abs().pairs && id != exclude <==> id in clients && clients[id] in Audience(room, exclude)
      ensures forall c :: c in clients.Values ==>
        (c in Audience(room, exclude) <==> (c.id, room) in Abs().pairs && c.id != exclude)
      ensures Audience(room, exclude) <= clients.Values
      ensures forall c, d :: c in Audience(room, exclude) && d in Audience(room, exclude) && c.id == d.id ==> c == d
    {
      RoomShows(room);
    }

    /** The copy of the room's members that the sends work on. */
    method Recipients(room: string, exclude: Id) returns (list: seq<Client>)
      requires Valid()
      ensures forall c :: c in list <==> c in Audience(room, exclude)
      ensures forall i, j :: 0 <= i < j < |list| ==> list[i] != list[j]
    {
      RoomShows(room);
      if room !in rooms { return []; }
      hide Inverse;
      list := Listed(rooms[room], exclude);
    }

    /** One message to each member of the room but the excluded one, and to no other client, whether or not
        some sockets refuse. */
    method BroadcastToRoom(room: string, data: Data, exclude: Id)
      requires Valid()
      modifies Audience(room, exclude)`sent
      ensures forall c :: c in clients.Values ==>
        c.sent == old(c.sent) + (if (c.id, room) in Abs().pairs && c.id != exclude then [data] else [])
    {
      ghost var pairs, audience := Abs().pairs, Audience(room, exclude);
      var list := Recipients(room, exclude);
      AudienceIsMembers(room, exclude);
      hide Valid, Abs, Audience;
      SendAll(list, data);
      assert Abs().pairs == pairs by { assert Belongs() == old(Belongs()); }
    }

    /** A client is in a room by the relation, by its own set and by the room's members alike. */
    lemma RoomShows(room: string)
      requires Valid()
      ensures forall c :: c in clients.Values <==> c.id in clients && clients[c.id] == c
      ensures forall c :: c in clients.Values ==> ((c.id, room) in Abs().pairs <==> room in c.rooms)
      ensures forall c :: c in clients.Values ==> (room in c.rooms <==> room in rooms && c.id in rooms[room])
      ensures room in rooms ==> forall id :: id in rooms[room] ==>
        id in clients && rooms[room][id] == clients[id] && clients[id].id == id
    {
    }

    method Broadcast(data: Data, exclude: Id)
      requires Valid()
      modifies Everyone(exclude)`sent
      ensures forall c :: c in clients.Values ==> c.sent == old(c.sent) + (if c.id != exclude then [data] else [])
    {
      var list := Listed(clients, exclude);
      assert forall c :: c in clients.Values <==> c.id in clients && clients[c.id] == c;
      assert forall c :: c in list <==> c in Everyone(exclude);
      SendAll(list, data);
    }

    method SendToClient(id: Id, data: Data)
      requires Valid()
      modifies (if id in clients then {clients[id]} else {})`sent
      ensures forall c :: c in clients.Values ==> c.sent == old(c.sent) + (if c.id == id then [data] else [])
    {
      if id in clients { var ok := clients[id].Send(data); }
    }

    /** Whom a stream frame from PHP is for: a room if it names one, else a connection. */
    ghost function Addressed(room: string, id: Id): set<Client>
      reads this, clients.Values
    {
      if room != "" then Audience(room, "") else if id != "" && id in clients then {clients[id]} else {}
    }

    /** HandleMessage's routing of the answer: each member of the room it names gets it once; if it names none,
        the connection it names does; and no other registered client gets anything. */
    method RouteReply(room: string, id: Id, data: Data)
      requires Valid()
      modifies Addressed(room, id)`sent
      ensures forall c :: c in clients.Values ==>
        c.sent == old(c.sent) + (if c.id != "" && (if room != "" then (c.id, room) in Abs().pairs else c.id == id)
                                 then [data] else [])
    {
      hide Audience, Inverse, Pairs;
      if room != "" {
        BroadcastToRoom(room, data, "");
      } else if id != "" {
        SendToClient(id, data);
      }
    }
  }

  /** A new manager after any list of operations with fresh ids shows exactly the relation of that list, and
      so, by IndexTellsHistory, its history. */
  method Replay(ops: seq<Op>) returns (m: Manager)
    requires FreshIds(ops)
    ensures fresh(m) && m.Valid() && m.Abs() == After(ops)
  {
    hide Inverse, Pairs, Step;
    m := new Manager();
    var i := 0;
    assert ops[..0] == [];
    while i < |ops|
      invariant 0 <= i <= |ops| && fresh(m) && forall id :: id in m.clients ==> fresh(m.clients[id])
      invariant m.Valid() && m.Abs() == After(ops[..i])
    {
      assert ops[..i + 1][..i] == ops[..i];
      match ops[i] {
        case Add(id) => var client := m.AddConnection(id);
        case Remove(id) => var notify := m.RemoveConnection(id);
        case Join(id, room) => m.JoinRoom(id, room);
        case Leave(id, room) => m.LeaveRoom(id, room);
      }
      i := i + 1;
    }
    assert ops[..i] == ops;
  }

  // --- helpers of the manager ---

  lemma NothingCleared(was: map<string, Members>, id: Id)
    ensures Cleared(was, was, id, {})
  {
  }

  /** The members other than the excluded one, each once, in an arbitrary order. */
  method Listed(members: Members, exclude: Id) returns (list: seq<Client>)
    requires forall id :: id in members ==> members[id].id == id
    ensures forall c :: c in list <==> c.id in members && members[c.id] == c && c.id != exclude
    ensures forall i, j :: 0 <= i < j < |list| ==> list[i] != list[j]
  {
    list := [];
    var todo := members.Keys;
    while todo != {}
      invariant todo <= members.Keys
      invariant forall c :: c in list <==> c.id in members.Keys - todo && members[c.id] == c && c.id != exclude
      invariant forall i, j :: 0 <= i < j < |list| ==> list[i] != list[j]
      decreases todo
    {
      var id :| id in todo;
      var c := members[id];
      if c.id != exclude { list := list + [c]; }
      todo := todo - {id};
    }
  }

  method SendAll(list: seq<Client>, data: Data)
    requires forall i, j :: 0 <= i < j < |list| ==> list[i] != list[j]
    modifies list`sent
    ensures forall c :: c in list ==> c.sent == old(c.sent) + [data]
  {
    var i := 0;
    while i < |list|
      invariant 0 <= i <= |list|
      invariant forall k :: 0 <= k < i ==> list[k].sent == old(list[k].sent) + [data]
      invariant forall k :: i <= k < |list| ==> list[k].sent == old(list[k].sent)
    {
      var ok := list[i].Send(data);
      i := i + 1;
    }
  }
}
