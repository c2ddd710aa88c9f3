/** Where the chat server's promises end, on runs from the empty server. */
module ChatLimits {
  import opened ChatRooms
  import opened ChatRoomsProof
  import ChatUserNames

  lemma RunCons(t: Tables, e: Event, more: seq<Event>, t': Tables)
    requires Shaped(t) && Allowed(t, e) && Run(Apply(t, e), more, t')
    ensures Run(t, [e] + more, t')
  {
    assert ([e] + more)[1..] == more;
  }

  lemma FirstClient() returns (t: Tables)
    ensures Allowed(Empty(), Accepted(4)) && t == Apply(Empty(), Accepted(4))
    ensures Inv(t) && t.roomCount == 0 && t.clients[0] == Client(4, "", "", true)
    ensures forall i | 1 <= i < MAX_CLIENTS :: !t.clients[i].active
  {
    t := Apply(Empty(), Accepted(4));
    AcceptKeeps(Empty(), 4);
    assert FindFree(Empty().clients, 0) == 0;
  }

  // ----- two rooms of one name -----

  lemma FirstRoom(t: Tables, name: string)
    requires Inv(t) && t.roomCount == 0 && t.clients[0] == Client(4, "", "", true)
    requires ValidRoomName(name) && |name| == MAX_GROUP_NAME_LENGTH
    ensures var e := Joins(4, name[..31]);
            && Allowed(t, e) && Inv(Apply(t, e))
            && Shaped(Apply(t, e)) && !Inv(Apply(Apply(t, e), Joins(4, name)))
  {
    LongNameBreaks(t, 0, name);
    assert FindSocket(t.clients, 4, 0) == 0;
    var t1 := Join(t, 0, name[..31]);
    JoinKeeps(t, 0, name[..31]);
    SocketStays(t, 0, name[..31]);
    assert FindSocket(t1.clients, 4, 0) == 0;
  }

  lemma SocketStays(t: Tables, c: nat, name: string)
    requires Inv(t) && c < MAX_CLIENTS
    ensures Join(t, c, name).clients[c].socket == t.clients[c].socket
    ensures Join(t, c, name).clients[c].active == t.clients[c].active
  {
    RemoveKeeps(t, c);
  }

  lemma TwoEvents(a: Event, b: Event, t: Tables)
    requires Allowed(Empty(), a) && Inv(Apply(Empty(), a)) && Allowed(Apply(Empty(), a), b)
    requires t == Apply(Apply(Empty(), a), b)
    ensures Run(Empty(), [a] + ([b] + []), t)
  {
    RunCons(Apply(Empty(), a), b, [], t);
    RunCons(Empty(), a, [b] + [], t);
  }

  /** One client is enough: it joins a room with a name of 31 characters, and then one of 32 that begins
      with it. */
  lemma TwinRoomsAreReached(name: string)
    requires ValidRoomName(name) && |name| == MAX_GROUP_NAME_LENGTH
    ensures exists events: seq<Event>, t: Tables ::
              Run(Empty(), events, t) && Inv(t) && !Inv(Apply(t, Joins(4, name)))
  {
    var t1 := FirstClient();
    FirstRoom(t1, name);
    var e := Joins(4, name[..31]);
    TwoEvents(Accepted(4), e, Apply(t1, e));
  }

  // ----- two users of one name -----

  /** The server with two nameless clients. */
  ghost predicate TwoClients(t: Tables) {
    && Inv(t)
    && t.clients[0] == Client(4, "", "", true) && t.clients[1] == Client(5, "", "", true)
    && forall i | 2 <= i < MAX_CLIENTS :: !t.clients[i].active
  }

  lemma TwoClientsCome() returns (t1: Tables, t2: Tables)
    ensures Inv(t1) && Allowed(Empty(), Accepted(4)) && t1 == Apply(Empty(), Accepted(4))
    ensures Allowed(t1, Accepted(5)) && t2 == Apply(t1, Accepted(5)) && TwoClients(t2)
  {
    t1 := FirstClient();
    t2 := Apply(t1, Accepted(5));
    AcceptKeeps(t1, 5);
    assert FindFree(t1.clients, 0) == 1;
  }

  lemma TwoClientsClash(t: Tables, name: string) returns (events: seq<Event>, t': Tables)
    requires TwoClients(t) && |name| == MAX_USERNAME_LENGTH
    ensures Run(t, events, t') && !ChatUserNames.NamesOfUsersDistinct(t'.clients)
  {
    ChatUserNames.LongUserNameClashes(t, 0, 1, name);
    var t1 := SetUsername(t, 0, name[..15]);
    t' := SetUsername(t1, 1, name);
    assert FindSocket(t.clients, 4, 0) == 0 && FindSocket(t1.clients, 5, 0) == 1;
    var e, f := Renames(4, name[..15]), Renames(5, name);
    assert Apply(t, e) == t1 && Apply(t1, f) == t';
    assert Run(t', [], t');
    RunCons(t1, f, [], t');
    RunCons(t, e, [f] + [], t');
    events := [e] + ([f] + []);
  }

  /** The server can get there: two clients are enough. */
  lemma ClashIsReached()
    ensures exists events: seq<Event>, t: Tables :: Run(Empty(), events, t) && !ChatUserNames.NamesOfUsersDistinct(t.clients)
  {
    var t1, t2 := TwoClientsCome();
    var events, t := TwoClientsClash(t2, "abcdefghijklmnop");
    RunCons(t1, Accepted(5), events, t);
    RunCons(Empty(), Accepted(4), [Accepted(5)] + events, t);
  }
}
