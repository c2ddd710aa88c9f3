/** When the chat server's user names stay distinct. */
module ChatUserNames {
  import opened ChatRooms
  import opened ChatRoomsProof

  ghost predicate NamesOfUsersDistinct(clients: seq<Client>) {
    forall i, j | 0 <= i < j < |clients| && clients[i].active && clients[j].active && clients[i].username != "" ::
      clients[i].username != clients[j].username
  }

  /** The request is turned down, or what the table keeps of the name is nobody else's. */
  ghost predicate SafeName(t: Tables, c: nat, name: string)
    requires Shaped(t)
  {
    || FindUser(t.clients, name, 0) != -1
    || forall i | 0 <= i < MAX_CLIENTS && i != c && t.clients[i].active ::
         t.clients[i].username != Kept(name, MAX_USERNAME_LENGTH)
  }

  /** Exactly when giving a user a name keeps the names distinct: the check looks at the full name,
      the table keeps 15 characters of it. */
  lemma RenameIff(t: Tables, c: nat, name: string)
    requires Inv(t) && c < MAX_CLIENTS && t.clients[c].active && name != ""
    requires NamesOfUsersDistinct(t.clients)
    ensures NamesOfUsersDistinct(SetUsername(t, c, name).clients) <==> SafeName(t, c, name)
    ensures |name| < MAX_USERNAME_LENGTH ==> SafeName(t, c, name)
  {
    var kept := Kept(name, MAX_USERNAME_LENGTH);
    if FindUser(t.clients, name, 0) == -1 {
      var clients := SetUsername(t, c, name).clients;
      if i :| 0 <= i < MAX_CLIENTS && i != c && t.clients[i].active && t.clients[i].username == kept {
        assert clients[i].username == clients[c].username == kept;
        assert !NamesOfUsersDistinct(clients);
      }
    }
  }

  // ----- whole runs -----

  /** A request for a name comes with a name. */
  predicate Named(e: Event) {
    e.Renames? ==> e.name != ""
  }

  ghost predicate SafeEvent(t: Tables, e: Event)
    requires Shaped(t)
  {
    e.Renames? && FindSocket(t.clients, e.socket, 0) != -1 ==> SafeName(t, FindSocket(t.clients, e.socket, 0), e.name)
  }

  /** Every name given is safe when it is given. */
  ghost predicate SafeRun(t: Tables, events: seq<Event>)
    decreases |events|
  {
    events == [] || (Shaped(t) && SafeEvent(t, events[0]) && SafeRun(Apply(t, events[0]), events[1..]))
  }

  /** Every client has the name it had, if it is active at all. */
  ghost predicate SameNames(before: seq<Client>, after: seq<Client>) {
    && |after| == |before|
    && forall i | 0 <= i < |after| && after[i].active :: before[i].active && after[i].username == before[i].username
  }

  lemma OthersKeepNames(t: Tables, e: Event)
    requires Inv(t) && Allowed(t, e) && (e.Joins? || e.Leaves? || e.Disconnects?)
    ensures SameNames(t.clients, Apply(t, e).clients)
  {
  }

  lemma AcceptKeepsNames(t: Tables, e: Event)
    requires Inv(t) && (e.Accepted? || e.AcceptFails?) && NamesOfUsersDistinct(t.clients)
    ensures NamesOfUsersDistinct(Apply(t, e).clients)
  {
  }

  lemma EventKeepsNames(t: Tables, e: Event)
    requires Inv(t) && Allowed(t, e) && Named(e) && NamesOfUsersDistinct(t.clients)
    ensures NamesOfUsersDistinct(Apply(t, e).clients) <==> SafeEvent(t, e)
  {
    match e {
      case Renames(socket, name) =>
        var c := FindSocket(t.clients, socket, 0);
        if c != -1 { RenameIff(t, c, name); }
      case Accepted(_) => AcceptKeepsNames(t, e);
      case AcceptFails(_) => AcceptKeepsNames(t, e);
      case _ => OthersKeepNames(t, e);
    }
  }

  /** While every name given is safe, the names stay distinct; by `EventKeepsNames`, the first one
      that is not safe ends that. */
  lemma {:induction false} SafeRunsKeepNames(t: Tables, events: seq<Event>, t': Tables)
    requires Inv(t) && Run(t, events, t') && NamesOfUsersDistinct(t.clients)
    requires SafeRun(t, events) && forall e | e in events :: Named(e)
    ensures NamesOfUsersDistinct(t'.clients)
    decreases |events|
  {
    if events != [] {
      EventKeepsNames(t, events[0]);
      ApplyKeeps(t, events[0]);
      SafeRunsKeepNames(Apply(t, events[0]), events[1..], t');
    }
  }

  /** Nobody asks for more than the table can keep. */
  predicate ShortNames(events: seq<Event>) {
    forall k | 0 <= k < |events| && events[k].Renames? :: 0 < |events[k].name| < MAX_USERNAME_LENGTH
  }

  /** In particular names of up to 15 characters stay distinct, from the empty server on. */
  lemma {:induction false} ShortNamesStayDistinct(t: Tables, events: seq<Event>, t': Tables)
    requires Inv(t) && Run(t, events, t') && NamesOfUsersDistinct(t.clients) && ShortNames(events)
    ensures NamesOfUsersDistinct(t'.clients)
    decreases |events|
  {
    if events != [] {
      var e := events[0];
      if e.Renames? && FindSocket(t.clients, e.socket, 0) != -1 {
        RenameIff(t, FindSocket(t.clients, e.socket, 0), e.name);
      }
      EventKeepsNames(t, e);
      ApplyKeeps(t, e);
      ShortNamesStayDistinct(Apply(t, e), events[1..], t');
    }
  }

  // ----- a clash -----

  /** Someone takes a name of 15 characters, someone else then asks for one of 16 that begins with it. */
  lemma LongUserNameClashes(t: Tables, c: nat, d: nat, name: string)
    requires Inv(t) && c < MAX_CLIENTS && d < MAX_CLIENTS && c != d && t.clients[c].active && t.clients[d].active
    requires NamesOfUsersDistinct(t.clients) && |name| == MAX_USERNAME_LENGTH
    requires forall i | 0 <= i < MAX_CLIENTS && t.clients[i].active ::
               t.clients[i].username != name && t.clients[i].username != name[..15]
    ensures var t1 := SetUsername(t, c, name[..15]);
            && Inv(t1) && NamesOfUsersDistinct(t1.clients)
            && !NamesOfUsersDistinct(SetUsername(t1, d, name).clients)
  {
    var short := name[..15];
    var t1 := SetUsername(t, c, short);
    RenameKeeps(t, c, short);
    RenameIff(t, c, short);
    assert FindUser(t1.clients, name, 0) == -1;
    assert t1.clients[c].username == Kept(name, MAX_USERNAME_LENGTH);
    RenameIff(t1, d, name);
  }
}
