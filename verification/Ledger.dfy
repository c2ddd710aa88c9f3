/** The bank's accounts, and how the server applies one request to them. */
module Ledger {
  import Decimal

  const DEPOSIT := 1
  const WITHDRAW := 2
  const MAX_TX_PER_CLIENT := 1024

  /** A request. The operation is the raw number that arrived over the FIFO; in an
      account's slots 0 marks an empty one. */
  datatype Transaction = Transaction(bankId: string, op: int, amount: int)

  const EMPTY := Transaction("", 0, 0)

  datatype Code = Initialize | Success | Failure | AccountDeleted | InsufficientCredits

  datatype Response = Response(code: Code, bankId: string)

  /** An account as stored: a table of slots and a separate count. */
  datatype Client = Client(bankId: string, credits: int, transactions: seq<Transaction>, transactionCount: nat)

  // ----- one request -----

  /** The first slot at or after `i` that is empty, or the length of the table. */
  function FirstEmpty(slots: seq<Transaction>, i: nat): (k: nat)
    requires i <= |slots|
    ensures i <= k <= |slots|
    ensures forall j | i <= j < k :: slots[j].op != 0
    ensures k < |slots| ==> slots[k].op == 0
    decreases |slots| - i
  {
    if i == |slots| || slots[i].op == 0 then i else FirstEmpty(slots, i + 1)
  }

  function Recorded(slots: seq<Transaction>, t: Transaction): seq<Transaction> {
    var k := FirstEmpty(slots, 0);
    if k < |slots| then slots[k := t] else slots
  }

  predicate Rejected(c: Client, t: Transaction) {
    t.op == WITHDRAW && c.credits < t.amount
  }

  function NewCredits(credits: int, t: Transaction): int {
    if t.op == DEPOSIT then credits + t.amount
    else if t.op == WITHDRAW then credits - t.amount
    else credits
  }

  function Update(c: Client, t: Transaction): (Client, Response) {
    if Rejected(c, t) then (c, Response(InsufficientCredits, c.bankId))
    else
      var c' := Client(c.bankId, NewCredits(c.credits, t), Recorded(c.transactions, t), c.transactionCount + 1);
      (c', Response(if c'.credits == 0 then AccountDeleted else Success, c.bankId))
  }

  function NewId(i: nat): string {
    "BankID_" + Decimal.Print(i + 1)
  }

  function NewClient(i: nat): Client {
    Client(NewId(i), 0, seq(MAX_TX_PER_CLIENT, _ => EMPTY), 0)
  }

  /** The first account with this id, or -1. */
  function FindFrom(db: seq<Client>, id: string, i: nat): (k: int)
    requires i <= |db|
    ensures k == -1 || i <= k < |db|
    ensures k == -1 ==> forall j | i <= j < |db| :: db[j].bankId != id
    ensures k != -1 ==> db[k].bankId == id && forall j | i <= j < k :: db[j].bankId != id
    decreases |db| - i
  {
    if i == |db| then -1 else if db[i].bankId == id then i else FindFrom(db, id, i + 1)
  }

  function GetOrCreate(db: seq<Client>, id: string): (r: (seq<Client>, int))
    ensures r.1 == -1 || 0 <= r.1 < |r.0|
  {
    var i := FindFrom(db, id, 0);
    if i != -1 then (db, i)
    else if id == "N" then (db + [NewClient(|db|)], |db|)
    else (db, -1)
  }

  /** What the server does with the request it finds in the shared slot. */
  function Serve(db: seq<Client>, t: Transaction): (seq<Client>, Response) {
    var (db', i) := GetOrCreate(db, t.bankId);
    if i == -1 then (db', Response(Failure, ""))
    else
      var (c, answer) := Update(db'[i], t);
      (db'[i := c], answer)
  }

  // ----- the abstract account -----

  datatype Op = Deposit | Withdraw
  datatype Entry = Entry(op: Op, amount: int)

  /** An account as an id, a balance and the list of what happened to it. */
  datatype Account = Account(bankId: string, credits: int, history: seq<Entry>)

  /** Everything that is not a deposit counts as a withdrawal once it is in the record. */
  function EntryOf(t: Transaction): Entry {
    Entry(if t.op == DEPOSIT then Deposit else Withdraw, t.amount)
  }

  function EntriesOf(ts: seq<Transaction>): seq<Entry> {
    seq(|ts|, i requires 0 <= i < |ts| => EntryOf(ts[i]))
  }

  function Signed(e: Entry): int {
    if e.op == Deposit then e.amount else -e.amount
  }

  /** Deposits minus withdrawals. */
  function Balance(h: seq<Entry>): int {
    if h == [] then 0 else Balance(h[..|h| - 1]) + Signed(h[|h| - 1])
  }

  /** The slots and the stored balance agree: the used slots are exactly the first
      `transactionCount` ones, and the balance is what they add up to. */
  ghost predicate Sound(c: Client) {
    && |c.transactions| == MAX_TX_PER_CLIENT
    && c.transactionCount <= MAX_TX_PER_CLIENT
    && (forall i | 0 <= i < |c.transactions| :: c.transactions[i].op == 0 <==> c.transactionCount <= i)
    && c.credits == Balance(EntriesOf(c.transactions[..c.transactionCount]))
  }

  ghost function View(c: Client): Account
    requires Sound(c)
  {
    Account(c.bankId, c.credits, EntriesOf(c.transactions[..c.transactionCount]))
  }

  ghost predicate NeverOverdrawn(h: seq<Entry>) {
    forall k | 0 <= k <= |h| :: Balance(h[..k]) >= 0
  }

  /** The `i`th account has the `i`th canonical id, and every account is sound. */
  ghost predicate Inv(db: seq<Client>) {
    forall i | 0 <= i < |db| :: db[i].bankId == NewId(i) && Sound(db[i])
  }

  /** No history has outgrown its table. */
  ghost predicate Fits(db: seq<Client>) {
    forall i | 0 <= i < |db| :: db[i].transactionCount <= MAX_TX_PER_CLIENT
  }

  ghost function Views(db: seq<Client>): (vs: seq<Account>)
    requires Inv(db)
    ensures |vs| == |db|
  {
    seq(|db|, i requires 0 <= i < |db| => View(db[i]))
  }

  // ----- one account -----

  lemma BalanceSnoc(h: seq<Entry>, e: Entry)
    ensures Balance(h + [e]) == Balance(h) + Signed(e)
  {
    assert (h + [e])[..|h|] == h;
  }

  /** The search for an empty slot always stops at the count. */
  lemma FirstEmptyIsCount(c: Client)
    requires Sound(c)
    ensures FirstEmpty(c.transactions, 0) == c.transactionCount
  {
    var n := c.transactionCount;
    assert n < |c.transactions| ==> c.transactions[n].op == 0;
  }

  lemma RecordAppends(c: Client, t: Transaction)
    requires Sound(c) && c.transactionCount < MAX_TX_PER_CLIENT
    ensures var r, n := Recorded(c.transactions, t), c.transactionCount;
            && |r| == MAX_TX_PER_CLIENT
            && r == c.transactions[n := t]
            && EntriesOf(r[..n + 1]) == EntriesOf(c.transactions[..n]) + [EntryOf(t)]
            && Balance(EntriesOf(r[..n + 1])) == c.credits + Signed(EntryOf(t))
  {
    FirstEmptyIsCount(c);
    var r, n := Recorded(c.transactions, t), c.transactionCount;
    assert EntriesOf(r[..n + 1]) == EntriesOf(c.transactions[..n]) + [EntryOf(t)];
    BalanceSnoc(EntriesOf(c.transactions[..n]), EntryOf(t));
  }

  lemma SlotsAfterRecord(c: Client, t: Transaction)
    requires Sound(c) && c.transactionCount < MAX_TX_PER_CLIENT
    ensures var slots := Recorded(c.transactions, t);
            (forall i | 0 <= i < |slots| :: slots[i].op == 0 <==> c.transactionCount + 1 <= i) <==> t.op != 0
  {
    RecordAppends(c, t);
    assert Recorded(c.transactions, t)[c.transactionCount] == t;
  }

  /** When a request leaves the account's record sound, for every request and every sound
      account: when it is turned down, or when there is a free slot and the operation is a
      deposit or a withdrawal (or some other non-zero code that moves nothing). */
  lemma UpdateSoundIff(c: Client, t: Transaction)
    requires Sound(c)
    ensures Sound(Update(c, t).0) <==>
            Rejected(c, t) ||
            (c.transactionCount < MAX_TX_PER_CLIENT &&
             (t.op == DEPOSIT || t.op == WITHDRAW || (t.op != 0 && t.amount == 0)))
  {
    if !Rejected(c, t) && c.transactionCount < MAX_TX_PER_CLIENT {
      RecordAppends(c, t);
      SlotsAfterRecord(c, t);
    }
  }

  predicate WellFormed(t: Transaction) {
    t.op == DEPOSIT || t.op == WITHDRAW
  }

  lemma NeverOverdrawnSnoc(h: seq<Entry>, e: Entry)
    requires NeverOverdrawn(h)
    ensures NeverOverdrawn(h + [e]) <==> Balance(h) + Signed(e) >= 0
  {
    BalanceSnoc(h, e);
    assert (h + [e])[..|h| + 1] == h + [e];
    forall k | 0 <= k <= |h| ensures (h + [e])[..k] == h[..k] { }
  }

  /** A withdrawal can never overdraw; a deposit does only if its amount is negative
      and larger than what is there. */
  lemma UpdateOverdrawnIff(c: Client, t: Transaction)
    requires Sound(c) && WellFormed(t) && c.transactionCount < MAX_TX_PER_CLIENT
    requires NeverOverdrawn(View(c).history)
    ensures Sound(Update(c, t).0)
    ensures NeverOverdrawn(View(Update(c, t).0).history) <==> !(t.op == DEPOSIT && c.credits + t.amount < 0)
  {
    UpdateSoundIff(c, t);
    if !Rejected(c, t) {
      RecordAppends(c, t);
      NeverOverdrawnSnoc(View(c).history, EntryOf(t));
    }
  }

  // ----- the abstract server -----

  function UpdateAccount(a: Account, t: Transaction): (Account, Response) {
    if t.op == WITHDRAW && a.credits < t.amount then (a, Response(InsufficientCredits, a.bankId))
    else
      var a' := Account(a.bankId, NewCredits(a.credits, t), a.history + [EntryOf(t)]);
      (a', Response(if a'.credits == 0 then AccountDeleted else Success, a.bankId))
  }

  /** The account a request means: the canonical number in its id, or a new one for "N". */
  ghost predicate Names(id: string, n: nat, i: int) {
    if id == "N" then i == n
    else if exists k :: 0 <= k < n && id == NewId(k) then 0 <= i < n && id == NewId(i)
    else i == -1
  }

  /** The request applied to a list of histories; `i` is the account it names. */
  function ServeAt(vs: seq<Account>, t: Transaction, i: int): (seq<Account>, Response)
    requires -1 <= i <= |vs|
  {
    if i == -1 then (vs, Response(Failure, ""))
    else
      var vs' := if i == |vs| then vs + [Account(NewId(i), 0, [])] else vs;
      var (a, answer) := UpdateAccount(vs'[i], t);
      (vs'[i := a], answer)
  }

  lemma NewIdInjective(i: nat, j: nat)
    ensures NewId(i) == NewId(j) <==> i == j
    ensures NewId(i) != "N"
  {
    Decimal.PrintInjective(i + 1, j + 1);
    assert NewId(i)[7..] == Decimal.Print(i + 1) && NewId(j)[7..] == Decimal.Print(j + 1);
  }

  /** Lookup succeeds exactly on the canonical id of an existing account. */
  lemma FindIsCanonical(db: seq<Client>, id: string)
    requires Inv(db)
    ensures Names(id, |db|, GetOrCreate(db, id).1)
    ensures FindFrom(db, id, 0) != -1 <==> exists k :: 0 <= k < |db| && id == NewId(k)
  {
    NewIdInjective(0, 0);
    forall k | 0 <= k < |db| ensures NewId(k) != "N" { NewIdInjective(k, k); }
    var i := FindFrom(db, id, 0);
    if k :| 0 <= k < |db| && id == NewId(k) {
      assert db[k].bankId == id;
    }
  }

  lemma NewClientSound(i: nat)
    ensures Sound(NewClient(i)) && View(NewClient(i)) == Account(NewId(i), 0, [])
  {
  }

  lemma UpdateRefines(c: Client, t: Transaction)
    requires Sound(c) && WellFormed(t) && Update(c, t).0.transactionCount <= MAX_TX_PER_CLIENT
    ensures Sound(Update(c, t).0)
    ensures View(Update(c, t).0) == UpdateAccount(View(c), t).0
    ensures Update(c, t).1 == UpdateAccount(View(c), t).1
  {
    UpdateSoundIff(c, t);
    if !Rejected(c, t) { RecordAppends(c, t); }
  }

  lemma GetOrCreateRefines(db: seq<Client>, id: string)
    requires Inv(db)
    ensures var (db', i) := GetOrCreate(db, id);
            && -1 <= i <= |db| && Names(id, |db|, i)
            && Inv(db')
            && Views(db') == if i == |db| then Views(db) + [Account(NewId(i), 0, [])] else Views(db)
  {
    FindIsCanonical(db, id);
    NewClientSound(|db|);
  }

  lemma ViewsOfUpdate(db: seq<Client>, i: nat, c: Client)
    requires Inv(db) && i < |db| && Sound(c) && c.bankId == db[i].bankId
    ensures Inv(db[i := c]) && Views(db[i := c]) == Views(db)[i := View(c)]
  {
  }

  /** The slot table refines the list of histories: as long as the account in question has a
      free slot, a deposit or withdrawal does to the stored accounts what it does to the
      abstract ones, and the answer is the same. */
  lemma ServeRefines(db: seq<Client>, t: Transaction)
    requires Inv(db) && WellFormed(t) && Fits(Serve(db, t).0)
    ensures Inv(Serve(db, t).0)
    ensures var i := GetOrCreate(db, t.bankId).1;
            && -1 <= i <= |db|
            && Names(t.bankId, |db|, i)
            && Views(Serve(db, t).0) == ServeAt(Views(db), t, i).0
            && Serve(db, t).1 == ServeAt(Views(db), t, i).1
  {
    GetOrCreateRefines(db, t.bankId);
    var (db', i) := GetOrCreate(db, t.bankId);
    if i != -1 {
      assert Serve(db, t).0[i] == Update(db'[i], t).0;
      UpdateRefines(db'[i], t);
      ViewsOfUpdate(db', i, Update(db'[i], t).0);
    }
  }

  // ----- runs -----

  function Run(db: seq<Client>, ts: seq<Transaction>): (r: (seq<Client>, seq<Response>))
    ensures |r.1| == |ts|
  {
    if ts == [] then (db, [])
    else
      var (db1, rs) := Run(db, ts[..|ts| - 1]);
      var (db2, answer) := Serve(db1, ts[|ts| - 1]);
      (db2, rs + [answer])
  }

  lemma RunSnoc(db: seq<Client>, ts: seq<Transaction>, t: Transaction)
    ensures var (before, answers) := Run(db, ts);
            Run(db, ts + [t]) == (Serve(before, t).0, answers + [Serve(before, t).1])
  {
    assert (ts + [t])[..|ts|] == ts;
  }

  /** Accounts are never removed or renamed, and their counts never go down. */
  lemma ServeMonotone(db: seq<Client>, t: Transaction)
    ensures |db| <= |Serve(db, t).0|
    ensures forall i | 0 <= i < |db| ::
              var c, c' := db[i], Serve(db, t).0[i];
              c'.bankId == c.bankId && c.transactionCount <= c'.transactionCount
  {
  }

  /** The ledger invariant over all runs: from an empty bank, after any deposits and
      withdrawals of any amounts, the invariant holds exactly if no history outgrew its table. */
  lemma {:induction false} RunInvIff(ts: seq<Transaction>)
    requires forall t | t in ts :: WellFormed(t)
    ensures Inv(Run([], ts).0) <==> Fits(Run([], ts).0)
  {
    if ts != [] {
      var before, t := Run([], ts[..|ts| - 1]).0, ts[|ts| - 1];
      RunInvIff(ts[..|ts| - 1]);
      ServeMonotone(before, t);
      if Fits(Run([], ts).0) {
        assert Fits(before);
        ServeRefines(before, t);
      }
    }
  }

  /** How many of the requests name this id. */
  function Asks(ts: seq<Transaction>, id: string): nat {
    if ts == [] then 0 else Asks(ts[..|ts| - 1], id) + if ts[|ts| - 1].bankId == id then 1 else 0
  }

  /** An account counts the request that opened it and the later ones that name it, at most. */
  ghost predicate CountsAsked(db: seq<Client>, ts: seq<Transaction>) {
    forall i | 0 <= i < |db| :: db[i].bankId == NewId(i) && db[i].transactionCount <= 1 + Asks(ts, NewId(i))
  }

  lemma ServeCounts(db: seq<Client>, ts: seq<Transaction>, t: Transaction)
    requires CountsAsked(db, ts)
    ensures CountsAsked(Serve(db, t).0, ts + [t])
  {
    assert (ts + [t])[..|ts|] == ts;
    forall i | 0 <= i < |db| ensures NewId(i) != "N" { NewIdInjective(i, i); }
  }

  lemma {:induction false} RunCounts(ts: seq<Transaction>)
    ensures CountsAsked(Run([], ts).0, ts)
  {
    if ts != [] {
      var before, t := ts[..|ts| - 1], ts[|ts| - 1];
      RunCounts(before);
      ServeCounts(Run([], before).0, before, t);
      assert before + [t] == ts;
    }
  }

  /** A condition on the requests alone: deposits and withdrawals of which fewer than 1024 name any one
      account keep the ledger invariant. */
  lemma FewRequestsKeepInv(ts: seq<Transaction>)
    requires forall t | t in ts :: WellFormed(t)
    requires forall i: nat :: Asks(ts, NewId(i)) < MAX_TX_PER_CLIENT
    ensures Inv(Run([], ts).0)
  {
    RunCounts(ts);
    RunInvIff(ts);
  }

  /** And a negative deposit is enough to overdraw an account. */
  lemma NegativeDepositOverdraws(amount: int)
    requires amount < 0
    ensures var db := Run([], [Transaction("N", DEPOSIT, amount)]).0;
            Inv(db) && |db| == 1 && !NeverOverdrawn(View(db[0]).history)
  {
    var t := Transaction("N", DEPOSIT, amount);
    NewClientSound(0);
    RunSnoc([], [], t);
    assert [] + [t] == [t];
    assert FindFrom([], "N", 0) == -1;
    assert NeverOverdrawn([]);
    var db := Run([], [t]).0;
    assert db == [Update(NewClient(0), t).0];
    UpdateOverdrawnIff(NewClient(0), t);
  }

  /** With amounts that are not negative, no account was ever in the red at any point of its history. */
  lemma {:induction false} RunNeverOverdrawn(ts: seq<Transaction>)
    requires forall t | t in ts :: WellFormed(t) && t.amount >= 0
    requires Fits(Run([], ts).0)
    ensures Inv(Run([], ts).0) && AllSolvent(Run([], ts).0)
  {
    RunInvIff(ts);
    if ts != [] {
      var before, t := Run([], ts[..|ts| - 1]).0, ts[|ts| - 1];
      ServeMonotone(before, t);
      assert Fits(before);
      RunNeverOverdrawn(ts[..|ts| - 1]);
      ServeKeepsSolvent(before, t);
    }
  }

  lemma UpdateKeepsSolvent(c: Client, t: Transaction)
    requires Sound(c) && WellFormed(t) && t.amount >= 0 && Update(c, t).0.transactionCount <= MAX_TX_PER_CLIENT
    requires NeverOverdrawn(View(c).history)
    ensures Sound(Update(c, t).0) && NeverOverdrawn(View(Update(c, t).0).history)
  {
    var h := View(c).history;
    assert Balance(h[..|h|]) >= 0 && h[..|h|] == h;
    if !Rejected(c, t) { UpdateOverdrawnIff(c, t); }
  }

  ghost predicate AllSolvent(db: seq<Client>)
    requires Inv(db)
  {
    forall i | 0 <= i < |db| :: NeverOverdrawn(View(db[i]).history)
  }

  lemma ServeKeepsSolvent(db: seq<Client>, t: Transaction)
    requires Inv(db) && WellFormed(t) && t.amount >= 0 && Fits(Serve(db, t).0) && AllSolvent(db)
    ensures Inv(Serve(db, t).0) && AllSolvent(Serve(db, t).0)
  {
    ServeRefines(db, t);
    NewClientSound(|db|);
    var (db', i) := GetOrCreate(db, t.bankId);
    if i != -1 {
      assert Serve(db, t).0[i] == Update(db'[i], t).0;
      UpdateKeepsSolvent(db'[i], t);
    }
  }

  /** A request that is turned down changes no existing account; only "N" may add an empty one. */
  lemma RejectedChangesNothing(db: seq<Client>, t: Transaction)
    ensures Serve(db, t).1.code in {Failure, InsufficientCredits} ==>
              Serve(db, t).0 == if t.bankId == "N" && FindFrom(db, "N", 0) == -1 then db + [NewClient(|db|)] else db
  {
    var (db', i) := GetOrCreate(db, t.bankId);
    if i != -1 && Rejected(db'[i], t) {
      assert db'[i := db'[i]] == db';
    }
  }
}
