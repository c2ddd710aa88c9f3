/** What each command of the chat server does to the client who gave it, and that it does nothing to
    anybody else. */
module ChatEffects {
  import opened ChatRooms
  import opened ChatRoomsProof

  /** The members of a room, in order. */
  function Members(r: Room): seq<int>
    requires r.memberCount <= |r.members|
  {
    r.members[..r.memberCount]
  }

  /** A list without a client. */
  function Except(members: seq<int>, c: int): seq<int> {
    if members == [] then []
    else Except(members[..|members| - 1], c) + if members[|members| - 1] == c then [] else [members[|members| - 1]]
  }

  /** Nobody's data but the client's own, and of those only the current room. */
  predicate OnlyRoomChanged(before: seq<Client>, after: seq<Client>, c: nat) {
    && |after| == |before|
    && (forall d | 0 <= d < |before| && d != c :: after[d] == before[d])
    && (c < |before| ==>
          after[c].socket == before[c].socket && after[c].username == before[c].username && after[c].active == before[c].active)
  }

  // ----- lists -----

  lemma ExceptSnoc(members: seq<int>, x: int, c: int)
    ensures Except(members + [x], c) == Except(members, c) + if x == c then [] else [x]
  {
    assert (members + [x])[..|members|] == members;
  }

  lemma {:induction false} ExceptHas(members: seq<int>, c: int, d: int)
    ensures d in Except(members, c) <==> d in members && d != c
  {
    if members != [] {
      var before, x := members[..|members| - 1], members[|members| - 1];
      ExceptHas(before, c, d);
      assert members == before + [x];
    }
  }

  lemma {:induction false} ExceptNobody(members: seq<int>, c: int)
    requires c !in members
    ensures Except(members, c) == members
  {
    if members != [] {
      var before, x := members[..|members| - 1], members[|members| - 1];
      ExceptNobody(before, c);
      ExceptSnoc(before, x, c);
      assert members == before + [x];
    }
  }

  lemma Longer(a: seq<int>, b: seq<int>, x: int)
    ensures a + (b + [x]) == (a + b) + [x]
  {
  }

  lemma {:induction false} ExceptOne(a: seq<int>, c: int, b: seq<int>)
    requires c !in a && c !in b
    ensures Except((a + [c]) + b, c) == a + b
    decreases |b|
  {
    if b == [] {
      ExceptSnoc(a, c, c);
      ExceptNobody(a, c);
      assert (a + [c]) + b == a + [c];
    } else {
      var before, x := b[..|b| - 1], b[|b| - 1];
      ExceptOne(a, c, before);
      assert b == before + [x];
      Longer(a + [c], before, x);
      ExceptSnoc((a + [c]) + before, x, c);
      Longer(a, before, x);
    }
  }

  /** The list of the first `n` cells, once place `i` is closed. */
  lemma ClosedList(members: seq<int>, n: nat, i: nat)
    requires i < n <= |members|
    ensures Without(members, n, i)[..n - 1] == members[..i] + members[i + 1..n]
    ensures members[..n] == members[..i] + [members[i]] + members[i + 1..n]
  {
  }

  lemma LeavingList(r: Room, c: nat)
    requires |r.members| == MAX_GROUP_MEMBERS && r.memberCount <= MAX_GROUP_MEMBERS
    requires forall j, k | 0 <= j < k < r.memberCount :: r.members[j] != r.members[k]
    ensures LeaveRoom(r, c).memberCount <= |LeaveRoom(r, c).members|
    ensures Members(LeaveRoom(r, c)) == Except(Members(r), c)
  {
    var i, n := FindMember(r.members, r.memberCount, c, 0), r.memberCount;
    if i == -1 {
      ExceptNobody(Members(r), c);
    } else {
      ClosedList(r.members, n, i);
      forall k | 0 <= k < n && k != i ensures r.members[k] != c { }
      ExceptOne(r.members[..i], c, r.members[i + 1..n]);
    }
  }

  // ----- leaving -----

  /** A removal takes the client off the list it is on, and changes no other list, nor their order. */
  lemma RemoveMeans(t: Tables, c: nat, r: nat)
    requires Inv(t) && c < MAX_CLIENTS && r < t.roomCount
    ensures Inv(RemoveClient(t, c)) && RemoveClient(t, c).roomCount == t.roomCount
    ensures Members(RemoveClient(t, c).rooms[r]) == Except(Members(t.rooms[r]), c)
    ensures OnlyRoomChanged(t.clients, RemoveClient(t, c).clients, c) && RemoveClient(t, c).clients[c].currentRoom == ""
  {
    RemoveKeeps(t, c);
    assert RoomOk(t.clients, t.rooms[r]);
    LeavingList(t.rooms[r], c);
    var t' := RemoveClient(t, c);
    if t'.rooms[r] == t.rooms[r] {
      assert !Member(t', r, c);
      ExceptNobody(Members(t.rooms[r]), c);
    }
  }

  // ----- joining -----

  /** Where the client is looked for and put: the room of that name, or the next free place. */
  ghost function Target(t: Tables, name: string): int
    requires Shaped(t)
  {
    var r := FindRoom(t.rooms, t.roomCount, name, 0);
    if r != -1 then r else t.roomCount
  }

  lemma JoinShape(t: Tables, c: nat, name: string)
    requires Inv(t) && c < MAX_CLIENTS && ValidRoomName(name)
    ensures var t' := Join(t, c, name);
            && Shaped(t') && OnlyRoomChanged(t.clients, t'.clients, c)
            && t'.roomCount == (if Target(t, name) == t.roomCount < MAX_GROUPS then t.roomCount + 1 else t.roomCount)
            && (t'.roomCount > t.roomCount ==> Members(t'.rooms[t.roomCount]) == [c])
  {
    RemoveKeeps(t, c);
    SameTarget(t, RemoveClient(t, c), name);
  }

  /** Joining takes the client off its old list and puts it behind the others on the new one, if there
      is room; every other list is as it was, and a new room has the client alone. */
  lemma JoinMeans(t: Tables, c: nat, name: string, r: nat)
    requires Inv(t) && c < MAX_CLIENTS && ValidRoomName(name)
    ensures var t' := Join(t, c, name);
            && Shaped(t') && t.roomCount <= t'.roomCount <= t.roomCount + 1
            && OnlyRoomChanged(t.clients, t'.clients, c)
            && (r < t.roomCount ==>
                  var others := Except(Members(t.rooms[r]), c);
                  Members(t'.rooms[r]) == if r == Target(t, name) && |others| < MAX_GROUP_MEMBERS then others + [c] else others)
            && (t'.roomCount > t.roomCount <==> Target(t, name) == t.roomCount < MAX_GROUPS)
            && (t.roomCount == r < t'.roomCount ==> Members(t'.rooms[r]) == [c])
  {
    JoinShape(t, c, name);
    if r < t.roomCount { JoinedList(t, c, name, r); }
  }

  lemma JoinedList(t: Tables, c: nat, name: string, r: nat)
    requires Inv(t) && c < MAX_CLIENTS && ValidRoomName(name) && r < t.roomCount
    ensures var t', others := Join(t, c, name), Except(Members(t.rooms[r]), c);
            && Shaped(t')
            && Members(t'.rooms[r]) == if r == Target(t, name) && |others| < MAX_GROUP_MEMBERS then others + [c] else others
  {
    RemoveMeans(t, c, r);
    RemoveKeeps(t, c);
    SameTarget(t, RemoveClient(t, c), name);
    EnteringList(RemoveClient(t, c), c, name, r);
  }

  lemma SameTarget(t: Tables, out: Tables, name: string)
    requires Shaped(t) && Shaped(out) && out.roomCount == t.roomCount
    requires forall r | 0 <= r < t.roomCount :: out.rooms[r].name == t.rooms[r].name
    ensures Target(out, name) == Target(t, name)
  {
  }

  lemma EnteringList(out: Tables, c: nat, name: string, r: nat)
    requires Shaped(out) && r < out.roomCount
    ensures var t' := AddClient(out, c, name);
            && Shaped(t')
            && Members(t'.rooms[r]) ==
               if r == Target(out, name) && |Members(out.rooms[r])| < MAX_GROUP_MEMBERS
               then Members(out.rooms[r]) + [c] else Members(out.rooms[r])
  {
  }

  /** So nobody else is put in a room or thrown out of one. */
  lemma JoinKeepsOthers(t: Tables, c: nat, name: string, r: nat, d: int)
    requires Inv(t) && c < MAX_CLIENTS && r < t.roomCount && d != c
    ensures Shaped(Join(t, c, name))
    ensures Member(Join(t, c, name), r, d) <==> Member(t, r, d)
  {
    if ValidRoomName(name) {
      JoinMeans(t, c, name, r);
      ListedIs(t.rooms[r], d);
      ExceptHas(Members(t.rooms[r]), c, d);
      ListedIs(Join(t, c, name).rooms[r], d);
    }
  }

  lemma ListedIs(r: Room, d: int)
    requires r.memberCount <= |r.members|
    ensures Listed(r, d) <==> d in Members(r)
  {
  }

  /** A room that a join has made has the joiner in it and nobody else. */
  lemma NewRoomHasJoiner(t: Tables, c: nat, name: string, d: int)
    requires Inv(t) && c < MAX_CLIENTS && ValidRoomName(name)
    ensures var t' := Join(t, c, name);
            Shaped(t') && (t'.roomCount > t.roomCount ==> t.roomCount < MAX_GROUPS && (Member(t', t.roomCount, d) <==> d == c))
  {
    JoinMeans(t, c, name, t.roomCount);
    if Join(t, c, name).roomCount > t.roomCount { ListedIs(Join(t, c, name).rooms[t.roomCount], d); }
  }

  // ----- coming, going, and being called -----

  /** A new client gets a slot nobody is using, if there is one, and comes without a name or a room. */
  lemma AcceptMeans(t: Tables, socket: int)
    requires Inv(t) && FreshSocket(t, socket)
    ensures var (t', c) := Accept(t, socket);
            && (c == -1 <==> forall i | 0 <= i < MAX_CLIENTS :: t.clients[i].active)
            && t'.rooms == t.rooms && t'.roomCount == t.roomCount && |t'.clients| == MAX_CLIENTS
            && (forall d | 0 <= d < MAX_CLIENTS && d != c :: t'.clients[d] == t.clients[d])
            && (c != -1 ==>
                  && 0 <= c < MAX_CLIENTS && !t.clients[c].active && FindSocket(t'.clients, socket, 0) == c
                  && t'.clients[c].username == "" && t'.clients[c].currentRoom == "" && Homeless(t', c))
  {
    AcceptKeeps(t, socket);
  }

  /** A client that has gone is in no room, and its slot can be given to somebody else. */
  lemma DisconnectMeans(t: Tables, c: nat, r: nat, d: int)
    requires Inv(t) && c < MAX_CLIENTS && r < t.roomCount && d != c
    ensures var t' := Disconnect(t, c);
            && Inv(t') && t'.roomCount == t.roomCount
            && !t'.clients[c].active && t'.clients[c].socket == -1 && Homeless(t', c)
            && FindFree(t'.clients, 0) != -1
            && (0 <= d < MAX_CLIENTS ==> t'.clients[d] == t.clients[d])
            && (Member(t', r, d) <==> Member(t, r, d))
  {
    DisconnectKeeps(t, c);
    RemoveKeeps(t, c);
    RemoveOnlyOne(t, c, r, d);
    var out := RemoveClient(t, c);
    ClientChange(out, c, out.clients[c].(active := false, socket := -1));
  }

  /** A name is given unless an active client has exactly that name; a name that can be kept whole is
      how the client is found from then on. */
  lemma RenameMeans(t: Tables, c: nat, name: string)
    requires Inv(t) && c < MAX_CLIENTS && t.clients[c].active
    ensures var t' := SetUsername(t, c, name);
            var taken := exists i :: 0 <= i < MAX_CLIENTS && t.clients[i].active && t.clients[i].username == name;
            && t'.rooms == t.rooms && t'.roomCount == t.roomCount && |t'.clients| == MAX_CLIENTS
            && (forall d | 0 <= d < MAX_CLIENTS && d != c :: t'.clients[d] == t.clients[d])
            && t'.clients[c].socket == t.clients[c].socket && t'.clients[c].active
            && t'.clients[c].currentRoom == t.clients[c].currentRoom
            && (taken ==> t' == t)
            && (!taken && |name| < 16 ==> FindUser(t'.clients, name, 0) == c)
            && (!taken && |name| >= 16 ==> t'.clients[c].username == name[..15])
  {
  }

  // ----- events -----

  /** What an event brings about for the client it comes from. */
  lemma EventMeans(t: Tables, e: Event)
    requires Inv(t) && Allowed(t, e)
    ensures var t' := Apply(t, e);
            Inv(t') &&
            match e
            case Accepted(socket) =>
              (exists i :: 0 <= i < MAX_CLIENTS && !t.clients[i].active) <==> FindSocket(t'.clients, socket, 0) != -1
            case AcceptFails(socket) => FindSocket(t'.clients, socket, 0) == -1
            case Joins(socket, name) =>
              var c := FindSocket(t.clients, socket, 0);
              c != -1 && ValidRoomName(name) && |name| < 32 ==> t'.clients[c].currentRoom == name
            case Leaves(socket) =>
              var c := FindSocket(t.clients, socket, 0);
              c != -1 ==> t'.clients[c].active && t'.clients[c].currentRoom == "" && Homeless(t', c)
            case Renames(socket, name) =>
              var c := FindSocket(t.clients, socket, 0);
              c != -1 && |name| < 16 ==> FindUser(t'.clients, name, 0) != -1
            case Disconnects(c) => c < MAX_CLIENTS ==> !t'.clients[c].active && Homeless(t', c)
  {
    ApplyKeeps(t, e);
    match e {
      case Accepted(socket) => AcceptMeans(t, socket);
      case AcceptFails(socket) => AcceptMeans(t, socket);
      case Joins(socket, name) =>
      case Leaves(socket) =>
        var c := FindSocket(t.clients, socket, 0);
        if c != -1 { RemoveKeeps(t, c); }
      case Renames(socket, name) =>
        var c := FindSocket(t.clients, socket, 0);
        if c != -1 { RenameMeans(t, c, name); }
      case Disconnects(c) => if c < MAX_CLIENTS { Gone(t, c); }
    }
  }

  lemma Gone(t: Tables, c: nat)
    requires Inv(t) && c < MAX_CLIENTS
    ensures !Disconnect(t, c).clients[c].active && Inv(Disconnect(t, c)) && Homeless(Disconnect(t, c), c)
  {
    DisconnectKeeps(t, c);
    AtMostOneRoom(Disconnect(t, c), c);
  }

  // ----- names -----

  /** The `n` characters from the given one on. */
  function Alphabet(first: char, n: nat): string
    requires first as int + n <= 128
  {
    seq(n, i requires 0 <= i < n => (first as int + i) as char)
  }

  lemma InAlphabet(c: char, first: char, n: nat)
    requires first as int + n <= 128
    ensures c in Alphabet(first, n) <==> first as int <= c as int < first as int + n
  {
    if first as int <= c as int < first as int + n { assert Alphabet(first, n)[c as int - first as int] == c; }
  }

  /** Room names are of 1 to 32 letters and digits. */
  lemma RoomNameRule(name: string)
    ensures ValidRoomName(name) <==>
            1 <= |name| <= 32 &&
            forall c | c in name :: c in Alphabet('A', 26) || c in Alphabet('a', 26) || c in Alphabet('0', 10)
  {
    forall c: char
      ensures IsAlnum(c) <==> c in Alphabet('A', 26) || c in Alphabet('a', 26) || c in Alphabet('0', 10)
    {
      InAlphabet(c, 'A', 26);
      InAlphabet(c, 'a', 26);
      InAlphabet(c, '0', 10);
    }
    assert forall i | 0 <= i < |name| :: name[i] in name;
  }
}
