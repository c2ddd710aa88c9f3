/** The chat server's client and room tables. */
module ChatRooms {

  const MAX_CLIENTS := 30
  const MAX_GROUPS := 15
  const MAX_GROUP_MEMBERS := 10
  const MAX_USERNAME_LENGTH := 16
  const MAX_GROUP_NAME_LENGTH := 32

  datatype Client = Client(socket: int, username: string, currentRoom: string, active: bool)

  datatype Room = Room(name: string, members: seq<int>, memberCount: nat)

  datatype Tables = Tables(clients: seq<Client>, rooms: seq<Room>, roomCount: nat)

  const NO_CLIENT := Client(-1, "", "", false)
  const NO_MEMBERS := [-1, -1, -1, -1, -1, -1, -1, -1, -1, -1]
  const NO_ROOM := Room("", NO_MEMBERS, 0)

  /** What a fixed-size name field of `size` characters keeps of `s`. */
  function Kept(s: string, size: nat): string
    requires size > 0
  {
    if |s| < size then s else s[..size - 1]
  }

  predicate IsAlnum(c: char) {
    '0' <= c <= '9' || 'A' <= c <= 'Z' || 'a' <= c <= 'z'
  }

  /** The server lets 32 characters through, one more than it can store. */
  predicate ValidRoomName(name: string) {
    0 < |name| <= 32 && forall i | 0 <= i < |name| :: IsAlnum(name[i])
  }

  ghost predicate Shaped(t: Tables) {
    && |t.clients| == MAX_CLIENTS && |t.rooms| == MAX_GROUPS && t.roomCount <= MAX_GROUPS
    && forall r | 0 <= r < MAX_GROUPS ::
         |t.rooms[r].members| == MAX_GROUP_MEMBERS && t.rooms[r].memberCount <= MAX_GROUP_MEMBERS
  }

  // ----- lookups -----

  function FindRoom(rooms: seq<Room>, n: nat, name: string, i: nat): (k: int)
    requires i <= n <= |rooms|
    ensures k == -1 || i <= k < n
    ensures k == -1 ==> forall j | i <= j < n :: rooms[j].name != name
    ensures k != -1 ==> rooms[k].name == name && forall j | i <= j < k :: rooms[j].name != name
    decreases n - i
  {
    if i == n then -1 else if rooms[i].name == name then i else FindRoom(rooms, n, name, i + 1)
  }

  function FindMember(members: seq<int>, n: nat, c: int, i: nat): (k: int)
    requires i <= n <= |members|
    ensures k == -1 || i <= k < n
    ensures k == -1 ==> forall j | i <= j < n :: members[j] != c
    ensures k != -1 ==> members[k] == c && forall j | i <= j < k :: members[j] != c
    decreases n - i
  {
    if i == n then -1 else if members[i] == c then i else FindMember(members, n, c, i + 1)
  }

  function FindFree(clients: seq<Client>, i: nat): (k: int)
    requires i <= |clients|
    ensures k == -1 || i <= k < |clients|
    ensures k == -1 ==> forall j | i <= j < |clients| :: clients[j].active
    ensures k != -1 ==> !clients[k].active && forall j | i <= j < k :: clients[j].active
    decreases |clients| - i
  {
    if i == |clients| then -1 else if !clients[i].active then i else FindFree(clients, i + 1)
  }

  function FindUser(clients: seq<Client>, name: string, i: nat): (k: int)
    requires i <= |clients|
    ensures k == -1 || i <= k < |clients|
    ensures k == -1 ==> forall j | i <= j < |clients| :: !(clients[j].active && clients[j].username == name)
    ensures k != -1 ==> clients[k].active && clients[k].username == name
    decreases |clients| - i
  {
    if i == |clients| then -1
    else if clients[i].active && clients[i].username == name then i
    else FindUser(clients, name, i + 1)
  }

  function FindSocket(clients: seq<Client>, socket: int, i: nat): (k: int)
    requires i <= |clients|
    ensures k == -1 || i <= k < |clients|
    ensures k == -1 ==> forall j | i <= j < |clients| :: !(clients[j].active && clients[j].socket == socket)
    ensures k != -1 ==> clients[k].active && clients[k].socket == socket
    decreases |clients| - i
  {
    if i == |clients| then -1
    else if clients[i].active && clients[i].socket == socket then i
    else FindSocket(clients, socket, i + 1)
  }

  // ----- what the operations do to the tables -----

  /** A member list of which the first `n` are in use, with the `i`th taken out. */
  function Without(members: seq<int>, n: nat, i: nat): (m: seq<int>)
    requires i < n <= |members|
    ensures |m| == |members|
    ensures forall k | 0 <= k < |m| :: m[k] == if k < i then members[k] else if k < n - 1 then members[k + 1]
                                               else if k == n - 1 then -1 else members[k]
  {
    members[..i] + members[i + 1..n] + [-1] + members[n..]
  }

  /** The gap at `i` has moved up to `j`. */
  ghost predicate Shifted(members: seq<int>, m: seq<int>, i: nat, j: nat) {
    && i <= j < |members| == |m|
    && (forall k | i <= k < j :: m[k] == members[k + 1])
    && (forall k | 0 <= k < |m| && !(i <= k < j) :: m[k] == members[k])
  }

  function LeaveRoom(r: Room, c: int): Room
    requires r.memberCount <= |r.members|
  {
    var k := FindMember(r.members, r.memberCount, c, 0);
    if k == -1 then r else Room(r.name, Without(r.members, r.memberCount, k), r.memberCount - 1)
  }

  ghost function RemoveClient(t: Tables, c: nat): Tables
    requires Shaped(t) && c < MAX_CLIENTS
  {
    if t.clients[c].currentRoom == "" then t
    else
      var r := FindRoom(t.rooms, t.roomCount, t.clients[c].currentRoom, 0);
      Tables(t.clients[c := t.clients[c].(currentRoom := "")],
             if r == -1 then t.rooms else t.rooms[r := LeaveRoom(t.rooms[r], c)],
             t.roomCount)
  }

  ghost function FindOrCreate(t: Tables, name: string): (Tables, int)
    requires Shaped(t)
  {
    var r := FindRoom(t.rooms, t.roomCount, name, 0);
    if r != -1 then (t, r)
    else if t.roomCount < MAX_GROUPS then
      (t.(rooms := t.rooms[t.roomCount := Room(Kept(name, MAX_GROUP_NAME_LENGTH), NO_MEMBERS, 0)],
       roomCount := t.roomCount + 1),
       t.roomCount)
    else (t, -1)
  }

  function EnterRoom(r: Room, c: int): Room
    requires |r.members| == MAX_GROUP_MEMBERS && r.memberCount <= MAX_GROUP_MEMBERS
  {
    if r.memberCount < MAX_GROUP_MEMBERS then Room(r.name, r.members[r.memberCount := c], r.memberCount + 1) else r
  }

  ghost function AddClient(t: Tables, c: nat, name: string): Tables
    requires Shaped(t)
  {
    var (t', r) := FindOrCreate(t, name);
    if r == -1 then t' else t'.(rooms := t'.rooms[r := EnterRoom(t'.rooms[r], c)])
  }

  /** `/join`: out of the old room, into the new one if there is room, and the name is noted either way. */
  ghost function Join(t: Tables, c: nat, name: string): Tables
    requires Shaped(t) && c < MAX_CLIENTS
  {
    if !ValidRoomName(name) then t
    else
      var t' := AddClient(RemoveClient(t, c), c, name);
      t'.(clients := t'.clients[c := t'.clients[c].(currentRoom := Kept(name, MAX_GROUP_NAME_LENGTH))])
  }

  /** `/username`: refused if an active client already has exactly this name. */
  ghost function SetUsername(t: Tables, c: nat, name: string): Tables
    requires Shaped(t) && c < MAX_CLIENTS
  {
    if FindUser(t.clients, name, 0) != -1 then t
    else t.(clients := t.clients[c := t.clients[c].(username := Kept(name, MAX_USERNAME_LENGTH))])
  }

  ghost function Accept(t: Tables, socket: int): (Tables, int)
    requires Shaped(t)
  {
    var c := FindFree(t.clients, 0);
    (if c == -1 then t else t.(clients := t.clients[c := Client(socket, "", "", true)]), c)
  }

  /** The end of a client's thread; `/exit` is this too. */
  ghost function Disconnect(t: Tables, c: nat): Tables
    requires Shaped(t) && c < MAX_CLIENTS
  {
    var t' := RemoveClient(t, c);
    t'.(clients := t'.clients[c := t'.clients[c].(active := false, socket := -1)])
  }

  /** Whether, and to which socket, a broadcast goes for member `i`. */
  function Receiver(clients: seq<Client>, r: Room, sender: int, i: nat): seq<int>
    requires i < r.memberCount <= |r.members|
  {
    var m := r.members[i];
    if 0 <= m < |clients| && clients[m].active && clients[m].socket != sender then [clients[m].socket] else []
  }

  /** The sockets a broadcast is sent to, in order, looking at members `i` and on. */
  function Receivers(clients: seq<Client>, r: Room, sender: int, i: nat): seq<int>
    requires i <= r.memberCount <= |r.members|
    decreases r.memberCount - i
  {
    if i == r.memberCount then [] else Receiver(clients, r, sender, i) + Receivers(clients, r, sender, i + 1)
  }

  lemma Regroup(a: seq<int>, b: seq<int>, c: seq<int>)
    ensures (a + b) + c == a + (b + c) && a + [] == a
  {
  }

  ghost function Broadcast(t: Tables, name: string, sender: int): seq<int>
    requires Shaped(t)
  {
    var r := FindRoom(t.rooms, t.roomCount, name, 0);
    if r == -1 then [] else Receivers(t.clients, t.rooms[r], sender, 0)
  }

  // ----- the tables in memory -----

  class Server {
    const clients: array<Client>
    const rooms: array<Room>
    var roomCount: nat

    ghost predicate Valid()
      reads this, clients, rooms
    {
      Shaped(Abs())
    }

    ghost function Abs(): Tables
      reads this, clients, rooms
    {
      Tables(clients[..], rooms[..], roomCount)
    }

    constructor ()
      ensures Valid() && fresh(clients) && fresh(rooms)
      ensures Abs() == Tables(seq(MAX_CLIENTS, _ => NO_CLIENT), seq(MAX_GROUPS, _ => NO_ROOM), 0)
    {
      clients := new Client[MAX_CLIENTS](_ => NO_CLIENT);
      rooms := new Room[MAX_GROUPS](_ => NO_ROOM);
      roomCount := 0;
    }

    method FindRoomIndex(name: string) returns (k: int)
      requires Valid()
      ensures k == FindRoom(rooms[..], roomCount, name, 0)
    {
      for i := 0 to roomCount
        invariant FindRoom(rooms[..], roomCount, name, 0) == FindRoom(rooms[..], roomCount, name, i)
      {
        if rooms[i].name == name {
          return i;
        }
      }
      return -1;
    }

    method FindOrCreateRoom(name: string) returns (k: int)
      requires Valid()
      modifies this, rooms
      ensures Valid() && (Abs(), k) == FindOrCreate(old(Abs()), name)
    {
      k := FindRoomIndex(name);
      if k != -1 {
        return;
      }
      if roomCount < MAX_GROUPS {
        rooms[roomCount] := Room(Kept(name, MAX_GROUP_NAME_LENGTH), NO_MEMBERS, 0);
        assert rooms[..] == old(rooms[..])[roomCount := rooms[roomCount]];
        roomCount := roomCount + 1;
        return roomCount - 1;
      }
    }

    /** The inner loop: moves the members behind place `i` one place down. */
    method ShiftDown(r: nat, i: nat, n: nat)
      requires r < rooms.Length && i < n <= |rooms[r].members|
      modifies rooms
      ensures rooms[..] == old(rooms[..])[r := old(rooms[r]).(members := rooms[r].members)]
      ensures Shifted(old(rooms[r]).members, rooms[r].members, i, n - 1)
    {
      ghost var before, room := rooms[..], rooms[r];
      for j := i to n - 1
        invariant rooms[..] == before[r := room.(members := rooms[r].members)]
        invariant Shifted(room.members, rooms[r].members, i, j)
      {
        assert rooms[r] == room.(members := rooms[r].members);
        rooms[r] := rooms[r].(members := rooms[r].members[j := rooms[r].members[j + 1]]);
      }
    }

    /** The loops over the member list of one room: find the client, close the gap, clear the last cell. */
    method CloseGap(r: nat, c: nat)
      requires Valid() && r < roomCount
      modifies rooms
      ensures Valid() && Abs() == old(Abs()).(rooms := old(rooms[..])[r := LeaveRoom(old(rooms[r]), c)])
    {
      ghost var before := rooms[..];
      var room := rooms[r];
      var n := room.memberCount;
      for i := 0 to n
        invariant rooms[..] == before
        invariant FindMember(room.members, n, c, 0) == FindMember(room.members, n, c, i)
      {
        if rooms[r].members[i] == c {
          ShiftDown(r, i, n);
          assert rooms[r] == room.(members := rooms[r].members);
          rooms[r] := rooms[r].(memberCount := n - 1);
          rooms[r] := rooms[r].(members := rooms[r].members[n - 1 := -1]);
          assert rooms[r].members == Without(room.members, n, i);
          return;
        }
      }
    }

    method RemoveClientFromRoom(c: nat)
      requires Valid() && c < MAX_CLIENTS
      modifies clients, rooms
      ensures Valid() && Abs() == RemoveClient(old(Abs()), c)
    {
      if |clients[c].currentRoom| == 0 {
        return;
      }
      var r := FindRoomIndex(clients[c].currentRoom);
      if r != -1 {
        CloseGap(r, c);
      }
      clients[c] := clients[c].(currentRoom := "");
      assert clients[..] == old(clients[..])[c := clients[c]];
    }

    method AddClientToRoom(c: nat, name: string)
      requires Valid()
      modifies this, rooms
      ensures Valid() && Abs() == AddClient(old(Abs()), c, name)
    {
      var r := FindOrCreateRoom(name);
      if r != -1 && rooms[r].memberCount < MAX_GROUP_MEMBERS {
        ghost var before := rooms[..];
        rooms[r] := rooms[r].(members := rooms[r].members[rooms[r].memberCount := c]);
        rooms[r] := rooms[r].(memberCount := rooms[r].memberCount + 1);
        assert rooms[..] == before[r := EnterRoom(before[r], c)];
      } else {
        assert r != -1 ==> rooms[..] == rooms[..][r := EnterRoom(rooms[r], c)];
      }
    }

    method JoinRoom(c: nat, name: string)
      requires Valid() && c < MAX_CLIENTS
      modifies this, clients, rooms
      ensures Valid() && Abs() == Join(old(Abs()), c, name)
    {
      if !ValidRoomName(name) {
        return;
      }
      RemoveClientFromRoom(c);
      AddClientToRoom(c, name);
      ghost var before := clients[..];
      clients[c] := clients[c].(currentRoom := Kept(name, MAX_GROUP_NAME_LENGTH));
      assert clients[..] == before[c := clients[c]];
    }

    method LeaveCommand(c: nat)
      requires Valid() && c < MAX_CLIENTS
      modifies clients, rooms
      ensures Valid() && Abs() == RemoveClient(old(Abs()), c)
    {
      if |clients[c].currentRoom| > 0 {
        RemoveClientFromRoom(c);
        ghost var before := clients[..];
        clients[c] := clients[c].(currentRoom := "");
        assert clients[..] == before;
      }
    }

    method FindClientByUsername(name: string) returns (k: int)
      requires Valid()
      ensures k == FindUser(clients[..], name, 0)
    {
      for i := 0 to MAX_CLIENTS
        invariant FindUser(clients[..], name, 0) == FindUser(clients[..], name, i)
      {
        if clients[i].active && clients[i].username == name {
          return i;
        }
      }
      return -1;
    }

    method UsernameCommand(c: nat, name: string)
      requires Valid() && c < MAX_CLIENTS
      modifies clients
      ensures Valid() && Abs() == SetUsername(old(Abs()), c, name)
    {
      var taken := FindClientByUsername(name);
      if taken == -1 {
        clients[c] := clients[c].(username := Kept(name, MAX_USERNAME_LENGTH));
        assert clients[..] == old(clients[..])[c := clients[c]];
      }
    }

    method AcceptClient(socket: int) returns (c: int)
      requires Valid()
      modifies clients
      ensures Valid() && (Abs(), c) == Accept(old(Abs()), socket)
    {
      for i := 0 to MAX_CLIENTS
        invariant clients[..] == old(clients[..])
        invariant FindFree(clients[..], 0) == FindFree(clients[..], i)
      {
        if !clients[i].active {
          clients[i] := Client(socket, "", "", true);
          assert clients[..] == old(clients[..])[i := clients[i]];
          return i;
        }
      }
      return -1;
    }

    method Cleanup(c: nat)
      requires Valid() && c < MAX_CLIENTS
      modifies clients, rooms
      ensures Valid() && Abs() == Disconnect(old(Abs()), c)
    {
      RemoveClientFromRoom(c);
      ghost var before := clients[..];
      clients[c] := clients[c].(active := false);
      clients[c] := clients[c].(socket := -1);
      assert clients[..] == before[c := clients[c]];
    }

    method BroadcastToRoom(name: string, sender: int) returns (sent: seq<int>)
      requires Valid()
      ensures sent == Broadcast(Abs(), name, sender)
    {
      sent := [];
      var r := FindRoomIndex(name);
      if r != -1 {
        for i := 0 to rooms[r].memberCount
          invariant sent + Receivers(clients[..], rooms[r], sender, i) == Receivers(clients[..], rooms[r], sender, 0)
        {
          Regroup(sent, Receiver(clients[..], rooms[r], sender, i), Receivers(clients[..], rooms[r], sender, i + 1));
          var m := rooms[r].members[i];
          if 0 <= m < clients.Length && clients[m].active && clients[m].socket != sender {
            sent := sent + [clients[m].socket];
          }
        }
      }
    }
  }
}
