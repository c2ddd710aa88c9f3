/** The tables of the chat server agree with each other, whatever the clients do. */
module ChatRoomsProof {
  import opened ChatRooms

  ghost predicate Listed(r: Room, c: int)
    requires r.memberCount <= |r.members|
  {
    exists k :: 0 <= k < r.memberCount && r.members[k] == c
  }

  ghost predicate Member(t: Tables, r: nat, c: int)
    requires Shaped(t) && r < MAX_GROUPS
  {
    Listed(t.rooms[r], c)
  }

  /** A room lists distinct active clients that all call it their current room; the other cells are -1. */
  ghost predicate RoomOk(clients: seq<Client>, r: Room)
    requires |clients| == MAX_CLIENTS && |r.members| == MAX_GROUP_MEMBERS && r.memberCount <= MAX_GROUP_MEMBERS
  {
    && 0 < |r.name| < MAX_GROUP_NAME_LENGTH
    && (forall k | 0 <= k < r.memberCount ::
          0 <= r.members[k] < MAX_CLIENTS && clients[r.members[k]].active && clients[r.members[k]].currentRoom == r.name)
    && (forall j, k | 0 <= j < k < r.memberCount :: r.members[j] != r.members[k])
    && (forall k | r.memberCount <= k < MAX_GROUP_MEMBERS :: r.members[k] == -1)
  }

  ghost predicate NamesDistinct(t: Tables)
    requires Shaped(t)
  {
    forall i, j | 0 <= i < j < t.roomCount :: t.rooms[i].name != t.rooms[j].name
  }

  ghost predicate SocketsDistinct(clients: seq<Client>) {
    forall i, j | 0 <= i < j < |clients| && clients[i].active && clients[j].active :: clients[i].socket != clients[j].socket
  }

  ghost predicate Inv(t: Tables) {
    && Shaped(t)
    && (forall r | 0 <= r < t.roomCount :: RoomOk(t.clients, t.rooms[r]))
    && NamesDistinct(t)
    && SocketsDistinct(t.clients)
  }

  /** The client is on no room's list. */
  ghost predicate Homeless(t: Tables, c: int)
    requires Shaped(t)
  {
    forall r | 0 <= r < t.roomCount :: !Member(t, r, c)
  }

  // ----- what the invariant means for a client -----

  /** A client is in at most one room, once, and that is its current room; an inactive client is in none. */
  lemma AtMostOneRoom(t: Tables, c: nat)
    requires Inv(t) && c < MAX_CLIENTS
    ensures forall r, q | 0 <= r < t.roomCount && 0 <= q < t.roomCount && Member(t, r, c) && Member(t, q, c) :: r == q
    ensures forall r | 0 <= r < t.roomCount && Member(t, r, c) :: t.clients[c].currentRoom == t.rooms[r].name
    ensures !t.clients[c].active || t.clients[c].currentRoom == "" ==> Homeless(t, c)
  {
    forall r, q | 0 <= r < t.roomCount && 0 <= q < t.roomCount && Member(t, r, c) && Member(t, q, c)
      ensures r == q
    {
      assert RoomOk(t.clients, t.rooms[r]) && RoomOk(t.clients, t.rooms[q]);
      assert t.rooms[r].name == t.clients[c].currentRoom == t.rooms[q].name;
    }
  }

  // ----- the pieces -----

  lemma ClientChange(t: Tables, c: nat, v: Client)
    requires Inv(t) && c < MAX_CLIENTS && Homeless(t, c)
    requires v.active ==> forall i | 0 <= i < MAX_CLIENTS && i != c && t.clients[i].active :: t.clients[i].socket != v.socket
    ensures Inv(t.(clients := t.clients[c := v])) && Homeless(t.(clients := t.clients[c := v]), c)
  {
    var t' := t.(clients := t.clients[c := v]);
    forall r: nat | r < t'.roomCount ensures RoomOk(t'.clients, t'.rooms[r]) && !Member(t', r, c) {
      assert RoomOk(t.clients, t.rooms[r]) && !Member(t, r, c);
      forall k | 0 <= k < t.rooms[r].memberCount ensures t.rooms[r].members[k] != c { }
    }
  }

  lemma LeaveKeepsRoom(clients: seq<Client>, r: Room, c: nat)
    requires |clients| == MAX_CLIENTS && |r.members| == MAX_GROUP_MEMBERS && r.memberCount <= MAX_GROUP_MEMBERS
    requires RoomOk(clients, r)
    ensures var r' := LeaveRoom(r, c);
            && |r'.members| == MAX_GROUP_MEMBERS && r'.memberCount <= MAX_GROUP_MEMBERS && r'.name == r.name
            && RoomOk(clients, r')
            && (forall k | 0 <= k < r'.memberCount :: r'.members[k] != c)
  {
    var r', i := LeaveRoom(r, c), FindMember(r.members, r.memberCount, c, 0);
    if i != -1 {
      forall k | 0 <= k < r'.memberCount
        ensures r'.members[k] == r.members[if k < i then k else k + 1] && r'.members[k] != c
      {
        assert k >= i ==> r.members[i] != r.members[k + 1];
      }
    }
  }

  lemma LeaveKeepsOthers(r: Room, c: nat, d: int)
    requires |r.members| == MAX_GROUP_MEMBERS && r.memberCount <= MAX_GROUP_MEMBERS && d != c
    ensures LeaveRoom(r, c).memberCount <= |LeaveRoom(r, c).members|
    ensures Listed(LeaveRoom(r, c), d) <==> Listed(r, d)
  {
    var r', i := LeaveRoom(r, c), FindMember(r.members, r.memberCount, c, 0);
    if i != -1 {
      if m :| 0 <= m < r.memberCount && r.members[m] == d {
        assert r'.members[if m < i then m else m - 1] == d;
      }
      if m :| 0 <= m < r'.memberCount && r'.members[m] == d {
        assert r.members[if m < i then m else m + 1] == d;
      }
    }
  }

  lemma RemoveFromList(t: Tables, c: nat, r: nat)
    requires Inv(t) && c < MAX_CLIENTS && r < t.roomCount && t.rooms[r].name == t.clients[c].currentRoom
    ensures var t' := t.(rooms := t.rooms[r := LeaveRoom(t.rooms[r], c)]);
            Inv(t') && Homeless(t', c)
  {
    LeaveKeepsRoom(t.clients, t.rooms[r], c);
    var t' := t.(rooms := t.rooms[r := LeaveRoom(t.rooms[r], c)]);
    forall q: nat | q < t.roomCount && q != r ensures !Member(t', q, c) {
      if Member(t, q, c) { AtMostOneRoom(t, c); }
    }
  }

  /** Taking a client out of its room keeps the tables consistent and leaves it in no room at all. */
  lemma RemoveKeeps(t: Tables, c: nat)
    requires Inv(t) && c < MAX_CLIENTS
    ensures Inv(RemoveClient(t, c)) && Homeless(RemoveClient(t, c), c)
    ensures var t' := RemoveClient(t, c);
            t'.clients[c] == t.clients[c].(currentRoom := "") && t'.roomCount == t.roomCount
    ensures forall r | 0 <= r < t.roomCount :: RemoveClient(t, c).rooms[r].name == t.rooms[r].name
  {
    AtMostOneRoom(t, c);
    if t.clients[c].currentRoom != "" {
      var r := FindRoom(t.rooms, t.roomCount, t.clients[c].currentRoom, 0);
      var t' := t;
      if r != -1 {
        RemoveFromList(t, c, r);
        t' := t.(rooms := t.rooms[r := LeaveRoom(t.rooms[r], c)]);
      }
      ClientChange(t', c, t.clients[c].(currentRoom := ""));
    }
  }

  /** Nobody else is taken out of a room, or put in one. */
  lemma RemoveOnlyOne(t: Tables, c: nat, r: nat, d: int)
    requires Inv(t) && c < MAX_CLIENTS && r < t.roomCount && d != c
    ensures Shaped(RemoveClient(t, c))
    ensures Member(RemoveClient(t, c), r, d) <==> Member(t, r, d)
  {
    RemoveKeeps(t, c);
    LeaveKeepsOthers(t.rooms[r], c, d);
  }

  /** The tables with one more, empty, room. */
  ghost function WithRoom(t: Tables, name: string): Tables
    requires Shaped(t) && t.roomCount < MAX_GROUPS
  {
    t.(rooms := t.rooms[t.roomCount := Room(Kept(name, MAX_GROUP_NAME_LENGTH), NO_MEMBERS, 0)], roomCount := t.roomCount + 1)
  }

  lemma CreateKeeps(t: Tables, name: string, c: nat)
    requires Inv(t) && t.roomCount < MAX_GROUPS && 0 < |name| && Homeless(t, c)
    requires forall r | 0 <= r < t.roomCount :: t.rooms[r].name != Kept(name, MAX_GROUP_NAME_LENGTH)
    ensures Inv(WithRoom(t, name)) && Homeless(WithRoom(t, name), c)
  {
    var t' := WithRoom(t, name);
    assert RoomOk(t'.clients, t'.rooms[t.roomCount]);
    forall r: nat | r < t'.roomCount ensures !Member(t', r, c) {
      if r < t.roomCount { assert !Member(t, r, c); }
    }
  }

  lemma EnterKeeps(t: Tables, c: nat, r: nat)
    requires Inv(t) && c < MAX_CLIENTS && t.clients[c].active && Homeless(t, c) && r < t.roomCount
    ensures Inv(t.(rooms := t.rooms[r := EnterRoom(t.rooms[r], c)],
                clients := t.clients[c := t.clients[c].(currentRoom := t.rooms[r].name)]))
  {
    var named := t.(clients := t.clients[c := t.clients[c].(currentRoom := t.rooms[r].name)]);
    ClientChange(t, c, named.clients[c]);
    assert RoomOk(named.clients, named.rooms[r]) && !Member(named, r, c);
    forall k | 0 <= k < t.rooms[r].memberCount ensures t.rooms[r].members[k] != c { }
    assert RoomOk(named.clients, EnterRoom(named.rooms[r], c));
  }

  // ----- the commands -----

  /** The stored form of the name does not clash with a room that already exists. */
  ghost predicate StorableName(t: Tables, name: string)
    requires Shaped(t)
  {
    |name| < MAX_GROUP_NAME_LENGTH || t.roomCount == MAX_GROUPS ||
    forall r | 0 <= r < t.roomCount :: t.rooms[r].name != Kept(name, MAX_GROUP_NAME_LENGTH)
  }

  /** The second half of `/join`, for a client that is out of its old room. */
  ghost function EnterNamed(t: Tables, c: nat, name: string): Tables
    requires Shaped(t) && c < MAX_CLIENTS
  {
    var t' := AddClient(t, c, name);
    t'.(clients := t'.clients[c := t'.clients[c].(currentRoom := Kept(name, MAX_GROUP_NAME_LENGTH))])
  }

  lemma EnterExisting(t: Tables, c: nat, name: string)
    requires Inv(t) && c < MAX_CLIENTS && t.clients[c].active && Homeless(t, c)
    requires FindRoom(t.rooms, t.roomCount, name, 0) != -1
    ensures Inv(EnterNamed(t, c, name))
  {
    var r := FindRoom(t.rooms, t.roomCount, name, 0);
    assert RoomOk(t.clients, t.rooms[r]);
    EnterKeeps(t, c, r);
  }

  lemma EnterNew(t: Tables, c: nat, name: string)
    requires Inv(t) && c < MAX_CLIENTS && t.clients[c].active && Homeless(t, c) && 0 < |name|
    requires FindRoom(t.rooms, t.roomCount, name, 0) == -1 && t.roomCount < MAX_GROUPS
    requires forall r | 0 <= r < t.roomCount :: t.rooms[r].name != Kept(name, MAX_GROUP_NAME_LENGTH)
    ensures Inv(EnterNamed(t, c, name))
  {
    CreateKeeps(t, name, c);
    var made := WithRoom(t, name);
    assert FindOrCreate(t, name) == (made, t.roomCount);
    EnterKeeps(made, c, t.roomCount);
  }

  lemma EnterNowhere(t: Tables, c: nat, name: string)
    requires Inv(t) && c < MAX_CLIENTS && Homeless(t, c)
    requires FindRoom(t.rooms, t.roomCount, name, 0) == -1 && t.roomCount == MAX_GROUPS
    ensures Inv(EnterNamed(t, c, name))
  {
    ClientChange(t, c, t.clients[c].(currentRoom := Kept(name, MAX_GROUP_NAME_LENGTH)));
  }

  lemma JoinKeeps(t: Tables, c: nat, name: string)
    requires Inv(t) && c < MAX_CLIENTS && t.clients[c].active && ValidRoomName(name) && StorableName(t, name)
    ensures Inv(Join(t, c, name))
  {
    RemoveKeeps(t, c);
    var out := RemoveClient(t, c);
    assert Join(t, c, name) == EnterNamed(out, c, name);
    if FindRoom(out.rooms, out.roomCount, name, 0) != -1 {
      EnterExisting(out, c, name);
    } else if out.roomCount < MAX_GROUPS {
      EnterNew(out, c, name);
    } else {
      EnterNowhere(out, c, name);
    }
  }

  lemma JoinKeepsNames(t: Tables, c: nat, name: string)
    requires Inv(t) && c < MAX_CLIENTS
    ensures t.roomCount <= Join(t, c, name).roomCount
    ensures forall r | 0 <= r < t.roomCount :: Join(t, c, name).rooms[r].name == t.rooms[r].name
    ensures ValidRoomName(name) && t.roomCount < MAX_GROUPS && (forall r | 0 <= r < t.roomCount :: t.rooms[r].name != name) ==>
              Join(t, c, name).roomCount == t.roomCount + 1 &&
              Join(t, c, name).rooms[t.roomCount].name == Kept(name, MAX_GROUP_NAME_LENGTH)
  {
    RemoveKeeps(t, c);
  }

  /** Exactly when joining keeps the tables consistent: always for names of up to 31 characters, and
      for the longer ones that are let through, when no new room is made or its stored name is new. */
  lemma JoinIff(t: Tables, c: nat, name: string)
    requires Inv(t) && c < MAX_CLIENTS && t.clients[c].active && ValidRoomName(name)
    ensures Inv(Join(t, c, name)) <==> StorableName(t, name)
  {
    if StorableName(t, name) {
      JoinKeeps(t, c, name);
    } else {
      var kept := Kept(name, MAX_GROUP_NAME_LENGTH);
      var r :| 0 <= r < t.roomCount && t.rooms[r].name == kept;
      forall q | 0 <= q < t.roomCount ensures t.rooms[q].name != name {
        assert RoomOk(t.clients, t.rooms[q]);
      }
      JoinKeepsNames(t, c, name);
      assert Join(t, c, name).rooms[r].name == Join(t, c, name).rooms[t.roomCount].name;
    }
  }

  /** Where a client that joined ended up: on the list of the room with its name, unless that was
      full or could not be made; its current room is noted in every case. */
  lemma {:induction false} JoinedWhere(t: Tables, c: nat, name: string)
    requires Inv(t) && c < MAX_CLIENTS && t.clients[c].active && ValidRoomName(name) && |name| < MAX_GROUP_NAME_LENGTH
    ensures var out, t' := RemoveClient(t, c), Join(t, c, name);
            var r := FindRoom(out.rooms, out.roomCount, name, 0);
            && t'.clients[c].currentRoom == name
            && ((exists q: nat :: q < t'.roomCount && Member(t', q, c)) <==>
                if r != -1 then out.rooms[r].memberCount < MAX_GROUP_MEMBERS else out.roomCount < MAX_GROUPS)
  {
    RemoveKeeps(t, c);
    JoinKeeps(t, c, name);
    var out, t' := RemoveClient(t, c), Join(t, c, name);
    var r := FindRoom(out.rooms, out.roomCount, name, 0);
    forall q: nat | q < out.roomCount && (r == -1 || q != r) ensures !Member(t', q, c) {
      assert !Member(out, q, c) && t'.rooms[q] == out.rooms[q];
    }
    if r != -1 {
      if out.rooms[r].memberCount < MAX_GROUP_MEMBERS {
        assert t'.rooms[r].members[out.rooms[r].memberCount] == c;
        assert Member(t', r, c);
      } else {
        assert !Member(out, r, c) && t'.rooms[r] == out.rooms[r];
      }
    } else if out.roomCount < MAX_GROUPS {
      assert t'.rooms[out.roomCount].members[0] == c;
      assert Member(t', out.roomCount, c);
    }
  }

  lemma DisconnectKeeps(t: Tables, c: nat)
    requires Inv(t) && c < MAX_CLIENTS
    ensures Inv(Disconnect(t, c))
  {
    RemoveKeeps(t, c);
    var out := RemoveClient(t, c);
    ClientChange(out, c, out.clients[c].(active := false, socket := -1));
  }

  ghost predicate FreshSocket(t: Tables, socket: int) {
    forall i | 0 <= i < |t.clients| && t.clients[i].active :: t.clients[i].socket != socket
  }

  lemma AcceptKeeps(t: Tables, socket: int)
    requires Inv(t) && FreshSocket(t, socket)
    ensures Inv(Accept(t, socket).0)
    ensures var (t', c) := Accept(t, socket); c != -1 ==> t'.clients[c].active && Homeless(t', c)
  {
    var c := FindFree(t.clients, 0);
    if c != -1 {
      AtMostOneRoom(t, c);
      ClientChange(t, c, Client(socket, "", "", true));
    }
  }

  // ----- whole runs -----

  /** `AcceptFails` is an accepted client for which no thread could be made. Commands come in on a socket. */
  datatype Event =
    | Accepted(socket: int) | AcceptFails(socket: int)
    | Joins(socket: int, name: string) | Leaves(socket: int) | Renames(socket: int, name: string)
    | Disconnects(c: nat)

  ghost function Apply(t: Tables, e: Event): Tables
    requires Shaped(t)
  {
    match e
    case Accepted(socket) => Accept(t, socket).0
    case AcceptFails(socket) =>
      var (t', c) := Accept(t, socket);
      if c == -1 then t' else t'.(clients := t'.clients[c := t'.clients[c].(active := false)])
    case Joins(socket, name) =>
      var c := FindSocket(t.clients, socket, 0);
      if c == -1 then t else Join(t, c, name)
    case Leaves(socket) =>
      var c := FindSocket(t.clients, socket, 0);
      if c == -1 then t else RemoveClient(t, c)
    case Renames(socket, name) =>
      var c := FindSocket(t.clients, socket, 0);
      if c == -1 then t else SetUsername(t, c, name)
    case Disconnects(c) => if c < MAX_CLIENTS then Disconnect(t, c) else t
  }

  /** The system hands out sockets that are not in use, and no room name is too long to be stored. */
  ghost predicate Allowed(t: Tables, e: Event)
    requires Shaped(t)
  {
    match e
    case Accepted(socket) => FreshSocket(t, socket)
    case AcceptFails(socket) => FreshSocket(t, socket)
    case Joins(_, name) => ValidRoomName(name) ==> StorableName(t, name)
    case _ => true
  }

  lemma RenameKeeps(t: Tables, c: nat, name: string)
    requires Inv(t) && c < MAX_CLIENTS
    ensures Inv(SetUsername(t, c, name))
  {
    var t' := SetUsername(t, c, name);
    forall r: nat | r < t'.roomCount ensures RoomOk(t'.clients, t'.rooms[r]) {
      assert RoomOk(t.clients, t.rooms[r]);
    }
  }

  lemma ApplyKeeps(t: Tables, e: Event)
    requires Inv(t) && Allowed(t, e)
    ensures Inv(Apply(t, e))
  {
    match e {
      case Accepted(socket) => AcceptKeeps(t, socket);
      case AcceptFails(socket) =>
        AcceptKeeps(t, socket);
        var (t', c) := Accept(t, socket);
        if c != -1 { ClientChange(t', c, t'.clients[c].(active := false)); }
      case Joins(socket, name) =>
        var c := FindSocket(t.clients, socket, 0);
        if c != -1 && ValidRoomName(name) { JoinKeeps(t, c, name); }
      case Leaves(socket) =>
        var c := FindSocket(t.clients, socket, 0);
        if c != -1 { RemoveKeeps(t, c); }
      case Renames(socket, name) =>
        var c := FindSocket(t.clients, socket, 0);
        if c != -1 { RenameKeeps(t, c, name); }
      case Disconnects(c) => if c < MAX_CLIENTS { DisconnectKeeps(t, c); }
    }
  }

  ghost predicate Run(t: Tables, events: seq<Event>, t': Tables)
    decreases |events|
  {
    if events == [] then t' == t
    else Shaped(t) && Allowed(t, events[0]) && Run(Apply(t, events[0]), events[1..], t')
  }

  ghost function Empty(): Tables {
    Tables(seq(MAX_CLIENTS, _ => NO_CLIENT), seq(MAX_GROUPS, _ => NO_ROOM), 0)
  }

  lemma {:induction false} RunFrom(t: Tables, events: seq<Event>, t': Tables)
    requires Inv(t) && Run(t, events, t')
    ensures Inv(t')
    decreases |events|
  {
    if events != [] {
      ApplyKeeps(t, events[0]);
      RunFrom(Apply(t, events[0]), events[1..], t');
    }
  }

  /** Consistency over all runs: from the empty server, after any number of accepts, joins, leaves,
      renames and disconnects in any order. */
  lemma AlwaysConsistent(events: seq<Event>, t: Tables)
    requires Run(Empty(), events, t)
    ensures Inv(t)
  {
    RunFrom(Empty(), events, t);
  }

  lemma ApplyKeepsNames(t: Tables, e: Event)
    requires Inv(t) && Allowed(t, e)
    ensures t.roomCount <= Apply(t, e).roomCount
    ensures forall r | 0 <= r < t.roomCount :: Apply(t, e).rooms[r].name == t.rooms[r].name
  {
    match e {
      case Joins(socket, name) =>
        var c := FindSocket(t.clients, socket, 0);
        if c != -1 { JoinKeepsNames(t, c, name); }
      case Leaves(socket) =>
        var c := FindSocket(t.clients, socket, 0);
        if c != -1 { RemoveKeeps(t, c); }
      case Disconnects(c) => if c < MAX_CLIENTS { RemoveKeeps(t, c); }
      case _ =>
    }
  }

  /** A room, once made, is found under its name at the same index ever after. */
  lemma {:induction false} LookupStable(t: Tables, events: seq<Event>, t': Tables, r: nat)
    requires Inv(t) && Run(t, events, t') && r < t.roomCount
    ensures Shaped(t') && r < t'.roomCount && FindRoom(t'.rooms, t'.roomCount, t.rooms[r].name, 0) == r
    decreases |events|
  {
    if events == [] {
      var k := FindRoom(t.rooms, t.roomCount, t.rooms[r].name, 0);
      assert k == r;
    } else {
      ApplyKeeps(t, events[0]);
      ApplyKeepsNames(t, events[0]);
      LookupStable(Apply(t, events[0]), events[1..], t', r);
    }
  }

  // ----- broadcast -----

  /** Some active member from place `i` on, not the sender, has the socket. */
  ghost predicate Reached(clients: seq<Client>, r: Room, sender: int, i: nat, x: int)
    requires r.memberCount <= |r.members|
  {
    x != sender && exists k :: i <= k < r.memberCount && Has(clients, r.members[k], x)
  }

  predicate Has(clients: seq<Client>, m: int, x: int) {
    0 <= m < |clients| && clients[m].active && clients[m].socket == x
  }

  lemma {:induction false} ReceiversReach(clients: seq<Client>, r: Room, sender: int, i: nat, x: int)
    requires i <= r.memberCount <= |r.members|
    ensures x in Receivers(clients, r, sender, i) <==> Reached(clients, r, sender, i, x)
    decreases r.memberCount - i
  {
    if i < r.memberCount {
      ReceiversReach(clients, r, sender, i + 1, x);
      assert x in Receiver(clients, r, sender, i) <==> x != sender && Has(clients, r.members[i], x);
    }
  }

  lemma {:induction false} ReceiversDistinct(clients: seq<Client>, r: Room, sender: int, i: nat)
    requires |clients| == MAX_CLIENTS && |r.members| == MAX_GROUP_MEMBERS && i <= r.memberCount <= MAX_GROUP_MEMBERS
    requires RoomOk(clients, r) && SocketsDistinct(clients)
    ensures forall a, b | 0 <= a < b < |Receivers(clients, r, sender, i)| ::
              Receivers(clients, r, sender, i)[a] != Receivers(clients, r, sender, i)[b]
    decreases r.memberCount - i
  {
    if i < r.memberCount {
      ReceiversDistinct(clients, r, sender, i + 1);
      var socket := clients[r.members[i]].socket;
      ReceiversReach(clients, r, sender, i + 1, socket);
      assert !Reached(clients, r, sender, i + 1, socket);
    }
  }

  /** A broadcast reaches every member of the named room but the sender, each exactly once, and
      nobody else; every socket it goes to belongs to an active client. */
  lemma BroadcastExact(t: Tables, name: string, sender: int, x: int)
    requires Inv(t)
    ensures var sent := Broadcast(t, name, sender);
            && (forall a, b | 0 <= a < b < |sent| :: sent[a] != sent[b])
            && (x in sent <==>
                x != sender &&
                exists r: nat, c: nat ::
                  && r < t.roomCount && c < MAX_CLIENTS && t.rooms[r].name == name
                  && Member(t, r, c) && t.clients[c].active && t.clients[c].socket == x)
  {
    var q := FindRoom(t.rooms, t.roomCount, name, 0);
    if q != -1 {
      var room := t.rooms[q];
      assert RoomOk(t.clients, room);
      ReceiversReach(t.clients, room, sender, 0, x);
      ReceiversDistinct(t.clients, room, sender, 0);
      if Reached(t.clients, room, sender, 0, x) {
        var k :| 0 <= k < room.memberCount && Has(t.clients, room.members[k], x);
        assert Member(t, q, room.members[k]);
      }
      forall r: nat, c: nat
        | r < t.roomCount && c < MAX_CLIENTS && t.rooms[r].name == name && Member(t, r, c) && t.clients[c].socket == x
        ensures x == sender || Reached(t.clients, room, sender, 0, x)
      {
        assert r == q;
        var k :| 0 <= k < room.memberCount && room.members[k] == c;
        assert Has(t.clients, room.members[k], x);
      }
    }
  }

  lemma JoinAddsOne(t: Tables, c: nat, name: string)
    requires Inv(t) && c < MAX_CLIENTS
    ensures Join(t, c, name).roomCount <= t.roomCount + 1 && Join(t, c, name).clients[c].active == t.clients[c].active
  {
    RemoveKeeps(t, c);
  }

  /** The shortest story behind `JoinIff`: a room, and a name of 32 characters that begins with its
      31, are two rooms of one name, and the member of the second one is never taken out of it. */
  lemma LongNameBreaks(t: Tables, c: nat, name: string)
    requires Inv(t) && c < MAX_CLIENTS && t.clients[c].active && ValidRoomName(name) && |name| == MAX_GROUP_NAME_LENGTH
    requires t.roomCount < MAX_GROUPS - 1
    ensures var t1 := Join(t, c, name[..31]);
            Inv(t1) && t1.clients[c].active && !Inv(Join(t1, c, name))
  {
    var short := name[..31];
    JoinKeeps(t, c, short);
    JoinKeepsNames(t, c, short);
    var t1 := Join(t, c, short);
    var r := FindRoom(t.rooms, t.roomCount, short, 0);
    assert t1.rooms[if r != -1 then r else t.roomCount].name == short;
    JoinAddsOne(t, c, short);
    JoinIff(t1, c, name);
  }
}
