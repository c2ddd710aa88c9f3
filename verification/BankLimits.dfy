/** Where the bank's promises end, on lives the bank can lead: one customer who keeps paying in 1, and
    any number of customers who try to withdraw from a new account. */
module BankLimits {
  import opened BankLog
  import opened BankLogRoundTrip
  import opened BankRestarts
  import Decimal
  import opened Ledger

  /** A new account, and then deposits to it, all of 1. */
  function Deposits(n: nat): seq<Transaction> {
    seq(n, k => Transaction(if k == 0 then "N" else NewId(0), DEPOSIT, 1))
  }

  function Ones(n: nat): seq<Entry> {
    seq(n, _ => Entry(Deposit, 1))
  }

  function Saver(n: nat): Account {
    Account(NewId(0), n, Ones(n))
  }

  lemma FoundAndFits(db: seq<Client>, n: nat)
    requires Inv(db) && n < MAX_TX_PER_CLIENT
    requires if n == 0 then db == [] else Views(db) == [Saver(n)]
    ensures GetOrCreate(db, if n == 0 then "N" else NewId(0)).1 == 0
    ensures |db| == (if n == 0 then 0 else 1) && forall c | c in db :: c.transactionCount == n
  {
    NewIdInjective(0, 0);
    if n > 0 {
      assert |db| == |Views(db)| && View(db[0]) == Views(db)[0];
      assert |View(db[0]).history| == |Saver(n).history|;
    }
  }

  lemma StillFits(db: seq<Client>, n: nat, t: Transaction)
    requires n < MAX_TX_PER_CLIENT && forall c | c in db :: c.transactionCount == n
    ensures Fits(Serve(db, t).0)
  {
    assert forall i | 0 <= i < |db| :: db[i] in db;
  }

  lemma OneMore(db: seq<Client>, n: nat, t: Transaction)
    requires Inv(db) && n < MAX_TX_PER_CLIENT
    requires if n == 0 then db == [] else Views(db) == [Saver(n)]
    requires t == Transaction(if n == 0 then "N" else NewId(0), DEPOSIT, 1)
    ensures Inv(Serve(db, t).0) && Views(Serve(db, t).0) == [Saver(n + 1)]
  {
    FoundAndFits(db, n);
    StillFits(db, n, t);
    ServeRefines(db, t);
    assert Ones(n + 1) == Ones(n) + [Entry(Deposit, 1)];
  }

  /** Up to 1024 deposits the account is exactly what was paid in. */
  lemma {:induction false} Saved(n: nat)
    requires n <= MAX_TX_PER_CLIENT
    ensures Inv(Run([], Deposits(n)).0)
    ensures if n == 0 then Run([], Deposits(n)).0 == [] else Views(Run([], Deposits(n)).0) == [Saver(n)]
  {
    if n > 0 {
      Saved(n - 1);
      assert Deposits(n) == Deposits(n - 1) + [Deposits(n)[n - 1]];
      RunSnoc([], Deposits(n - 1), Deposits(n)[n - 1]);
      OneMore(Run([], Deposits(n - 1)).0, n - 1, Deposits(n)[n - 1]);
    }
  }

  /** A deposit of 1 to a lone account with a full table moves balance and count, and nothing else. */
  lemma FullTableDeposit(c: Client)
    requires c.bankId == NewId(0) && c.credits >= 0 && FirstEmpty(c.transactions, 0) == |c.transactions|
    ensures var c' := c.(credits := c.credits + 1, transactionCount := c.transactionCount + 1);
            Serve([c], Transaction(NewId(0), DEPOSIT, 1)) == ([c'], Response(Success, NewId(0)))
  {
    var t := Transaction(NewId(0), DEPOSIT, 1);
    var c' := c.(credits := c.credits + 1, transactionCount := c.transactionCount + 1);
    assert FindFrom([c], NewId(0), 0) == 0;
    assert Update(c, t) == (c', Response(Success, NewId(0)));
    assert [c][0 := c'] == [c'];
  }

  lemma {:induction false} DepositOnFull(ts: seq<Transaction>, c: Client)
    requires Run([], ts).0 == [c]
    requires c.bankId == NewId(0) && c.credits >= 0 && FirstEmpty(c.transactions, 0) == |c.transactions|
    ensures var (after, answers) := Run([], ts + [Transaction(NewId(0), DEPOSIT, 1)]);
            && after == [c.(credits := c.credits + 1, transactionCount := c.transactionCount + 1)]
            && answers[|ts|].code == Success
  {
    FullTableDeposit(c);
    RunSnoc([], ts, Transaction(NewId(0), DEPOSIT, 1));
  }

  lemma OneDepositMore(n: nat)
    requires n > 0
    ensures Deposits(n + 1) == Deposits(n) + [Transaction(NewId(0), DEPOSIT, 1)]
  {
  }

  lemma OneAccount(n: nat)
    requires 0 < n <= MAX_TX_PER_CLIENT
    ensures var db := Run([], Deposits(n)).0;
            Inv(db) && |db| == 1 && db[0].transactionCount == n && db[0].credits == n
  {
    var db := Run([], Deposits(n)).0;
    Saved(n);
    assert |Views(db)| == |db| && View(db[0]) == Views(db)[0] == Saver(n);
    assert |View(db[0]).history| == n;
  }

  /** The account after `n` deposits, with every slot of its table in use. */
  predicate IsFull(c: Client, n: nat) {
    && c.bankId == NewId(0) && c.credits == c.transactionCount == n
    && |c.transactions| == MAX_TX_PER_CLIENT && FirstEmpty(c.transactions, 0) == |c.transactions|
  }

  ghost predicate LonePayer(db: seq<Client>, n: nat) {
    |db| == 1 && IsFull(db[0], n)
  }

  lemma JustFull(n: nat)
    requires n == MAX_TX_PER_CLIENT
    ensures LonePayer(Run([], Deposits(n)).0, n)
  {
    OneAccount(n);
    FirstEmptyIsCount(Run([], Deposits(n)).0[0]);
  }

  lemma {:induction false} PayOn(n: nat)
    requires n > 0 && LonePayer(Run([], Deposits(n)).0, n)
    ensures LonePayer(Run([], Deposits(n + 1)).0, n + 1)
  {
    var c := Run([], Deposits(n)).0[0];
    assert Run([], Deposits(n)).0 == [c];
    DepositOnFull(Deposits(n), c);
    OneDepositMore(n);
  }

  /** From then on every deposit moves balance and count, but leaves no record. */
  lemma {:induction false} StillPaying(m: nat, n: nat)
    requires 0 < m <= n && LonePayer(Run([], Deposits(m)).0, m)
    ensures LonePayer(Run([], Deposits(n)).0, n)
    decreases n
  {
    if m < n {
      StillPaying(m, n - 1);
      PayOn(n - 1);
    }
  }

  /** The 1025th deposit is answered and moves the balance, but leaves no record: the ledger's
      invariant holds before it and not after it. */
  lemma FullTableBreaks()
    ensures var before, after := Run([], Deposits(MAX_TX_PER_CLIENT)).0, Run([], Deposits(MAX_TX_PER_CLIENT + 1)).0;
            && Inv(before) && !Inv(after) && |before| == |after| == 1
            && after[0].credits == before[0].credits + 1 && after[0].transactions == before[0].transactions
    ensures Run([], Deposits(MAX_TX_PER_CLIENT + 1)).1[MAX_TX_PER_CLIENT].code == Success
  {
    OneAccount(MAX_TX_PER_CLIENT);
    JustFull(MAX_TX_PER_CLIENT);
    var c := Run([], Deposits(MAX_TX_PER_CLIENT)).0[0];
    assert Run([], Deposits(MAX_TX_PER_CLIENT)).0 == [c];
    DepositOnFull(Deposits(MAX_TX_PER_CLIENT), c);
    OneDepositMore(MAX_TX_PER_CLIENT);
    assert !Sound(Run([], Deposits(MAX_TX_PER_CLIENT + 1)).0[0]);
  }

  lemma {:induction false} LengthOfOnes(n: nat)
    ensures |EntryText(Ones(n))| == 4 * n
  {
    if n > 0 {
      assert Ones(n)[1..] == Ones(n - 1);
      assert EntryWord(Entry(Deposit, 1)) == " D 1";
      LengthOfOnes(n - 1);
    }
  }

  lemma LengthOfPrint(n: nat)
    requires n < 10000
    ensures |Decimal.Print(n)| == if n < 10 then 1 else if n < 100 then 2 else if n < 1000 then 3 else 4
  {
    if n >= 10 { LengthOfPrint(n / 10); }
  }

  lemma LengthOfLine(n: nat)
    requires n > 0
    ensures |Line(Saver(n))| == 9 + 4 * n + |Decimal.Print(n)|
  {
    LengthOfOnes(n);
    assert NewId(0) == "BankID_1";
  }

  lemma StoredSaver(n: nat)
    requires 0 < n <= MAX_TX_PER_CLIENT
    ensures StoredAll(Run([], Deposits(n)).0) == [Saver(n)] && AllKept([Saver(n)])
  {
    Saved(n);
    StoredIsView(Run([], Deposits(n)).0);
  }

  lemma SaverRead(header: string, n: nat)
    requires IsHeader(header) && 0 < n <= MAX_TX_PER_CLIENT && AllKept([Saver(n)])
    ensures PrintsAll([Saver(n)]) <==> n <= 124
    ensures RoundTrips(header, [Saver(n)]) <==> n <= 61
    ensures 61 < n <= 124 ==> |ParseLog(LogText(header, [Saver(n)]))| == 2
    ensures 124 < n ==> ParseLog(CutLog(header, [Saver(n)])) == []
  {
    LengthOfPrint(n);
    LengthOfLine(n);
    RoundTripIff(header, [Saver(n)]);
    if n <= 124 {
      LogCounted(header, [Saver(n)]);
    } else {
      CutLogLoses(header, [Saver(n)]);
    }
  }

  /** An account that has outgrown its table is lost at the next restart. */
  lemma OutgrownIsLost(header: string, c: Client)
    requires IsHeader(header) && Tabled(c) && c.transactionCount > |c.transactions|
    ensures !PrintsAll(StoredAll([c])) && Reloaded(header, [c]) == []
  {
    OutgrownDoesNotFit(c);
    var vs := StoredAll([c]);
    assert vs == [Stored(c)] && Written(vs) == 0 && vs[..0] == [];
    CutLogLoses(header, vs);
  }

  lemma PayerIsLost(header: string, n: nat)
    requires IsHeader(header) && n > MAX_TX_PER_CLIENT
    ensures var db := Run([], Deposits(n)).0;
            |db| == 1 && !Inv(db) && !PrintsAll(StoredAll(db)) && Reloaded(header, db) == []
  {
    JustFull(MAX_TX_PER_CLIENT);
    StillPaying(MAX_TX_PER_CLIENT, n);
    var db := Run([], Deposits(n)).0;
    assert db == [db[0]];
    OutgrownIsLost(header, db[0]);
    assert !Sound(db[0]);
  }

  /** What a restart makes of this customer's account, for every number of deposits: up to 61 it
      survives; up to 124 its line can be printed but is read back as two accounts; after more than that
      it cannot be printed, and the file that is left holds no account at all. */
  lemma SaverReloaded(header: string, n: nat)
    requires IsHeader(header) && 0 < n
    ensures var db := Run([], Deposits(n)).0;
            && |db| == 1 && (Inv(db) <==> n <= MAX_TX_PER_CLIENT)
            && (PrintsAll(StoredAll(db)) <==> n <= 124)
            && (RoundTrips(header, StoredAll(db)) <==> n <= 61)
            && (61 < n <= 124 ==> |Reloaded(header, db)| == 2)
            && (124 < n ==> Reloaded(header, db) == [])
  {
    if n <= MAX_TX_PER_CLIENT {
      OneAccount(n);
      StoredSaver(n);
      SaverRead(header, n);
    } else {
      PayerIsLost(header, n);
    }
  }

  // ----- many customers -----

  /** Withdrawals from accounts that are opened for them, and turned down. */
  function Openings(n: nat): seq<Transaction> {
    seq(n, _ => Transaction("N", WITHDRAW, 1))
  }

  function EmptyAccounts(n: nat): (db: seq<Client>)
    ensures |db| == n
  {
    seq(n, i requires 0 <= i < n => NewClient(i))
  }

  lemma OneMoreAccount(n: nat)
    ensures Serve(EmptyAccounts(n), Transaction("N", WITHDRAW, 1)).0 == EmptyAccounts(n + 1)
  {
    var db := EmptyAccounts(n);
    forall i | 0 <= i < n ensures db[i].bankId != "N" { NewIdInjective(i, i); }
    var db' := db + [NewClient(n)];
    assert GetOrCreate(db, "N") == (db', n);
    assert db'[n := db'[n]] == db' == EmptyAccounts(n + 1);
  }

  lemma {:induction false} Opened(n: nat)
    ensures Run([], Openings(n)).0 == EmptyAccounts(n)
  {
    if n > 0 {
      Opened(n - 1);
      assert Openings(n) == Openings(n - 1) + [Transaction("N", WITHDRAW, 1)];
      RunSnoc([], Openings(n - 1), Transaction("N", WITHDRAW, 1));
      OneMoreAccount(n - 1);
    }
  }

  lemma EmptyLine(i: nat)
    requires i < 9999
    ensures |Line(Stored(NewClient(i)))| <= MAX_LINE
  {
    LengthOfPrint(i + 1);
    assert Stored(NewClient(i)).history == [];
    assert |NewId(i)| <= 11;
  }

  lemma EmptyAccountsInv(n: nat)
    ensures Inv(EmptyAccounts(n))
    ensures n < 9999 ==> LinesFit(EmptyAccounts(n))
  {
    forall i | 0 <= i < n ensures Sound(NewClient(i)) { NewClientSound(i); }
    forall i | 0 <= i < n && n < 9999 ensures |Line(Stored(NewClient(i)))| <= MAX_LINE { EmptyLine(i); }
  }

  /** Nothing is wrong with any one of these accounts, but more than 1024 of them do not survive a
      restart: the log has them all, and the new server's table does not hold them. */
  lemma ManyAccounts(header: string, n: nat)
    requires IsHeader(header)
    ensures var db := Run([], Openings(n)).0;
            && |db| == n && Inv(db)
            && (Survives(header, db) <==> n <= INITIAL_CLIENTS)
            && (n < 9999 ==> LinesFit(db) && Alike(Reloaded(header, db), db))
  {
    Opened(n);
    EmptyAccountsInv(n);
    SurvivesIff(header, EmptyAccounts(n));
    if n < 9999 { ReloadKeeps(header, EmptyAccounts(n)); }
  }
}
