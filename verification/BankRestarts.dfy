/** Whole lives of the bank: requests, with any number of saves and reloads in between. */
module BankRestarts {
  import opened BankLog
  import opened BankLogRoundTrip
  import opened Ledger

  /** A restart prints the log under the given header line and reads it back. */
  datatype Event = Request(t: Transaction) | Restart(header: string)

  /** The accounts in the log. The new server has them if its table holds them all. */
  function Reloaded(header: string, db: seq<Client>): seq<Client> {
    LoadedAll(ParseLog(LogOnDisk(header, StoredAll(db))))
  }

  predicate TableHolds(header: string, db: seq<Client>) {
    |ParseLog(LogOnDisk(header, StoredAll(db)))| <= INITIAL_CLIENTS
  }

  function Replay(events: seq<Event>): (seq<Client>, seq<Response>) {
    if events == [] then ([], [])
    else
      var (db, rs) := Replay(events[..|events| - 1]);
      match events[|events| - 1]
      case Restart(header) => (Reloaded(header, db), rs)
      case Request(t) => var (db', answer) := Serve(db, t); (db', rs + [answer])
  }

  function Requests(events: seq<Event>): seq<Transaction> {
    if events == [] then []
    else
      var before := Requests(events[..|events| - 1]);
      match events[|events| - 1]
      case Restart(_) => before
      case Request(t) => before + [t]
  }

  ghost predicate LinesFit(db: seq<Client>) {
    forall i | 0 <= i < |db| :: |Line(Stored(db[i]))| <= MAX_LINE
  }

  ghost predicate InOrderAfter(db: seq<Client>, e: Event) {
    match e
    case Restart(header) => IsHeader(header) && LinesFit(db) && |db| <= INITIAL_CLIENTS
    case Request(t) => WellFormed(t)
  }

  ghost predicate InOrder(events: seq<Event>, k: nat)
    requires k < |events|
  {
    InOrderAfter(Replay(events[..k]).0, events[k])
  }

  /** Deposits and withdrawals only, and no restart while an account's line is too long to be read back,
      or while there are more accounts than a new server's table holds. */
  ghost predicate Orderly(events: seq<Event>) {
    forall k | 0 <= k < |events| :: InOrder(events, k)
  }

  lemma OrderlyPrefix(events: seq<Event>, k: nat)
    requires Orderly(events) && k <= |events|
    ensures Orderly(events[..k])
  {
    forall m | 0 <= m < k ensures InOrder(events[..k], m) {
      assert events[..k][..m] == events[..m] && InOrder(events, m);
    }
  }

  lemma OrderlyLast(events: seq<Event>)
    requires Orderly(events) && events != []
    ensures Orderly(events[..|events| - 1])
    ensures InOrderAfter(Replay(events[..|events| - 1]).0, events[|events| - 1])
  {
    OrderlyPrefix(events, |events| - 1);
    assert InOrder(events, |events| - 1);
  }

  // ----- a restart -----

  lemma StoredIsView(db: seq<Client>)
    requires Inv(db)
    ensures StoredAll(db) == Views(db)
    ensures AllKept(Views(db))
  {
    forall i | 0 <= i < |db| ensures Stored(db[i]) == View(db[i]) && Kept(View(db[i])) { KeptView(db[i], i); }
  }

  lemma LogGivesViews(header: string, db: seq<Client>)
    requires Inv(db) && IsHeader(header) && LinesFit(db)
    ensures ParseLog(LogOnDisk(header, StoredAll(db))) == Views(db)
  {
    StoredIsView(db);
    RoundTripIff(header, StoredAll(db));
  }

  ghost predicate Loadable(vs: seq<Account>) {
    forall i | 0 <= i < |vs| ::
      vs[i].bankId == NewId(i) && vs[i].credits == Balance(vs[i].history) && |vs[i].history| <= MAX_TX_PER_CLIENT
  }

  lemma ViewsLoadable(db: seq<Client>)
    requires Inv(db)
    ensures Loadable(Views(db))
  {
    assert forall i | 0 <= i < |db| :: Views(db)[i] == View(db[i]);
  }

  lemma LoadedAllViews(vs: seq<Account>)
    requires Loadable(vs)
    ensures Inv(LoadedAll(vs)) && Views(LoadedAll(vs)) == vs
  {
    forall i | 0 <= i < |vs| ensures Sound(LoadedAll(vs)[i]) && View(LoadedAll(vs)[i]) == vs[i] { LoadedIsSound(vs[i]); }
  }

  /** Two stores that hold the same accounts, however their slots came about. */
  ghost predicate Alike(a: seq<Client>, b: seq<Client>) {
    Inv(a) && Inv(b) && Views(a) == Views(b)
  }

  lemma {:induction false} ReloadKeeps(header: string, db: seq<Client>)
    requires Inv(db) && IsHeader(header) && LinesFit(db)
    ensures Alike(Reloaded(header, db), db)
    ensures TableHolds(header, db) <==> |db| <= INITIAL_CLIENTS
  {
    LogGivesViews(header, db);
    ViewsLoadable(db);
    LoadedAllViews(Views(db));
  }

  /** The log can be written, the new server's table holds what it says, and nothing has changed. */
  ghost predicate Survives(header: string, db: seq<Client>) {
    PrintsAll(StoredAll(db)) && TableHolds(header, db) && Alike(Reloaded(header, db), db)
  }

  lemma ShortIsPrinted(db: seq<Client>)
    requires LinesFit(db)
    ensures PrintsAll(StoredAll(db))
  {
    forall i | 0 <= i < |db| ensures LineFits(StoredAll(db)[i]) {
      assert |Line(Stored(db[i]))| <= MAX_LINE;
    }
  }

  lemma CountedAfter(header: string, db: seq<Client>)
    requires Inv(db) && IsHeader(header) && PrintsAll(StoredAll(db))
    ensures |Reloaded(header, db)| == |db| + LongLines(StoredAll(db))
  {
    StoredIsView(db);
    LogCounted(header, StoredAll(db));
  }

  lemma NoLongLines(db: seq<Client>)
    requires LongLines(StoredAll(db)) == 0
    ensures LinesFit(db)
  {
    forall i | 0 <= i < |db| ensures |Line(Stored(db[i]))| <= MAX_LINE {
      assert StoredAll(db)[i] == Stored(db[i]);
    }
  }

  lemma AlikeCount(a: seq<Client>, b: seq<Client>)
    requires Alike(a, b)
    ensures |a| == |b|
  {
    assert |Views(a)| == |Views(b)|;
  }

  /** Exactly when the ledger invariant and every account survive a save and a restart: no line is too
      long, and there are at most 1024 accounts. */
  lemma {:induction false} SurvivesIff(header: string, db: seq<Client>)
    requires Inv(db) && IsHeader(header)
    ensures Survives(header, db) <==> LinesFit(db) && |db| <= INITIAL_CLIENTS
  {
    if LinesFit(db) {
      ShortIsPrinted(db);
      ReloadKeeps(header, db);
    } else if Survives(header, db) {
      CountedAfter(header, db);
      AlikeCount(Reloaded(header, db), db);
      NoLongLines(db);
    }
  }

  // ----- equal accounts are served equally -----

  lemma NamesUnique(id: string, n: nat, i: int, j: int)
    requires Names(id, n, i) && Names(id, n, j)
    ensures i == j
  {
    if 0 <= i && 0 <= j { NewIdInjective(i, j); }
  }

  lemma FitsFromViews(a: seq<Client>, b: seq<Client>, t: Transaction)
    requires Inv(a) && Inv(b) && Views(a) == Views(b) && WellFormed(t)
    requires GetOrCreate(a, t.bankId).1 == GetOrCreate(b, t.bankId).1
    requires Fits(Serve(b, t).0)
    ensures Fits(Serve(a, t).0)
  {
    forall i | 0 <= i < |a| ensures a[i].transactionCount == b[i].transactionCount && a[i].credits == b[i].credits {
      assert Views(a)[i] == Views(b)[i];
      assert |View(a[i]).history| == |View(b[i]).history|;
    }
    var i := GetOrCreate(a, t.bankId).1;
    if i != -1 {
      assert Serve(b, t).0[i].transactionCount <= MAX_TX_PER_CLIENT;
    }
  }

  lemma SameViewsServe(a: seq<Client>, b: seq<Client>, t: Transaction)
    requires Inv(a) && Inv(b) && Views(a) == Views(b) && WellFormed(t)
    requires Fits(Serve(b, t).0)
    ensures Inv(Serve(a, t).0) && Inv(Serve(b, t).0)
    ensures Views(Serve(a, t).0) == Views(Serve(b, t).0)
    ensures Serve(a, t).1 == Serve(b, t).1
  {
    assert |a| == |Views(a)| == |b|;
    FindIsCanonical(a, t.bankId);
    FindIsCanonical(b, t.bankId);
    NamesUnique(t.bankId, |a|, GetOrCreate(a, t.bankId).1, GetOrCreate(b, t.bankId).1);
    FitsFromViews(a, b, t);
    ServeRefines(a, t);
    ServeRefines(b, t);
  }

  lemma {:induction false} AlikeRun(a: seq<Client>, b: seq<Client>, ts: seq<Transaction>)
    requires Alike(a, b) && Fits(Run(a, ts).0)
    requires forall t | t in ts :: WellFormed(t)
    ensures Alike(Run(a, ts).0, Run(b, ts).0) && Run(a, ts).1 == Run(b, ts).1
  {
    if ts != [] {
      var before, t := ts[..|ts| - 1], ts[|ts| - 1];
      ServeMonotone(Run(a, before).0, t);
      AlikeRun(a, b, before);
      SameViewsServe(Run(b, before).0, Run(a, before).0, t);
    }
  }

  // ----- whole lives -----

  lemma {:induction false} RequestsWellFormed(events: seq<Event>)
    requires Orderly(events)
    ensures forall t | t in Requests(events) :: WellFormed(t)
  {
    if events != [] {
      OrderlyLast(events);
      RequestsWellFormed(events[..|events| - 1]);
    }
  }

  lemma RunStep(ts: seq<Transaction>, t: Transaction)
    ensures Run([], ts + [t]) == (Serve(Run([], ts).0, t).0, Run([], ts).1 + [Serve(Run([], ts).0, t).1])
    ensures Fits(Run([], ts + [t]).0) ==> Fits(Run([], ts).0)
  {
    RunSnoc([], ts, t);
    ServeMonotone(Run([], ts).0, t);
  }

  /** Same accounts and same answers as one server that got all the requests. */
  ghost predicate AsIfNeverStopped(events: seq<Event>) {
    Alike(Replay(events).0, Run([], Requests(events)).0) && Replay(events).1 == Run([], Requests(events)).1
  }

  /** Restarts cannot be told apart from their absence: the accounts, and every answer ever
      given, are those of the same requests served by one server that never stopped. */
  lemma {:induction false} RestartsInvisible(events: seq<Event>)
    requires Orderly(events) && Fits(Run([], Requests(events)).0)
    ensures AsIfNeverStopped(events)
  {
    RequestsWellFormed(events);
    RunInvIff(Requests(events));
    if events != [] {
      var before, last := events[..|events| - 1], events[|events| - 1];
      OrderlyLast(events);
      match last {
        case Restart(header) =>
          RestartsInvisible(before);
          ReloadKeeps(header, Replay(before).0);
        case Request(t) =>
          RunStep(Requests(before), t);
          RestartsInvisible(before);
          SameViewsServe(Replay(before).0, Run([], Requests(before)).0, t);
      }
    }
  }

  lemma {:induction false} RunGrows(ts: seq<Transaction>, k: nat)
    requires k <= |ts|
    ensures |Run([], ts[..k]).0| <= |Run([], ts).0|
  {
    if k == |ts| {
      assert ts[..k] == ts;
    } else {
      RunGrows(ts[..|ts| - 1], k);
      assert ts[..|ts| - 1][..k] == ts[..k];
      ServeMonotone(Run([], ts[..|ts| - 1]).0, ts[|ts| - 1]);
    }
  }

  lemma {:induction false} RequestsOfPrefix(events: seq<Event>, k: nat)
    requires k <= |events|
    ensures |Requests(events[..k])| <= |Requests(events)|
    ensures Requests(events)[..|Requests(events[..k])|] == Requests(events[..k])
  {
    if k == |events| {
      assert events[..k] == events;
    } else {
      RequestsOfPrefix(events[..|events| - 1], k);
      assert events[..|events| - 1][..k] == events[..k];
    }
  }

  lemma {:induction false} FitsPrefix(ts: seq<Transaction>, k: nat)
    requires k <= |ts| && Fits(Run([], ts).0)
    ensures Fits(Run([], ts[..k]).0)
  {
    if k == |ts| {
      assert ts[..k] == ts;
    } else {
      ServeMonotone(Run([], ts[..|ts| - 1]).0, ts[|ts| - 1]);
      FitsPrefix(ts[..|ts| - 1], k);
      assert ts[..|ts| - 1][..k] == ts[..k];
    }
  }

  /** The accounts bear the canonical ids in order, and "N" means a new one. */
  ghost predicate Numbered(db: seq<Client>) {
    && (forall j | 0 <= j < |db| :: db[j].bankId == NewId(j))
    && GetOrCreate(db, "N") == (db + [NewClient(|db|)], |db|)
  }

  ghost predicate Unused(db: seq<Client>, id: string) {
    forall j | 0 <= j < |db| :: db[j].bankId != id
  }

  /** Account identity across requests and restarts: the `j`th account always bears the `j`th
      id, so ids are distinct, and a request for "N" opens an account under an id that no
      account had at any earlier moment. */
  lemma {:induction false} NewIdNeverUsed(events: seq<Event>, k: nat)
    requires Orderly(events) && Fits(Run([], Requests(events)).0) && k <= |events|
    ensures Numbered(Replay(events).0)
    ensures Unused(Replay(events[..k]).0, NewId(|Replay(events).0|))
  {
    var db, past := Replay(events).0, Replay(events[..k]).0;
    RestartsInvisible(events);
    RequestsOfPrefix(events, k);
    OrderlyPrefix(events, k);
    var m := |Requests(events[..k])|;
    FitsPrefix(Requests(events), m);
    RestartsInvisible(events[..k]);
    RunGrows(Requests(events), m);
    assert |past| == |Views(past)| <= |Views(db)| == |db|;
    FindIsCanonical(db, "N");
    forall i | 0 <= i < |db| ensures NewId(i) != "N" { NewIdInjective(i, i); }
    forall j | 0 <= j < |past| ensures past[j].bankId != NewId(|db|) { NewIdInjective(j, |db|); }
  }
}
