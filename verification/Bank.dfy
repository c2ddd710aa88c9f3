/** The server's account table, changed in place. */
module Bank {
  import opened BankLog
  import opened Ledger

  class Server {
    var clients: array<Client>
    var count: nat

    /** The accounts fit the table, and each has its own table of at least 1024 slots. */
    ghost predicate Valid()
      reads this, clients
    {
      && count <= clients.Length && 0 < clients.Length
      && forall i | 0 <= i < count :: Tabled(clients[i])
    }

    /** The accounts in use. */
    ghost function Db(): seq<Client>
      reads this, clients
      requires Valid()
    {
      clients[..count]
    }

    constructor ()
      ensures Valid() && Db() == [] && fresh(clients)
    {
      clients := new Client[INITIAL_CLIENTS](_ => Client("", 0, [], 0));
      count := 0;
    }

    /** The accounts of an existing log. The table has room for 1024 of them; with more, the count is
        that of an array the server has lost sight of, and the table does not hold the accounts. */
    constructor FromLog(text: string)
      ensures fresh(clients) && clients.Length == INITIAL_CLIENTS && count == |ParseLog(text)|
      ensures Valid() <==> |ParseLog(text)| <= INITIAL_CLIENTS
      ensures Valid() ==> Db() == LoadedAll(ParseLog(text))
    {
      clients := new Client[INITIAL_CLIENTS](_ => Client("", 0, [], 0));
      count := 0;
      new;
      count := ParseClientsLog(text, clients);
      LoadedAllTabled(ParseLog(text));
    }

    /** Rewrites the log from the table, which stays as it is. */
    method SaveLog(header: string) returns (ok: bool, text: string)
      requires Valid()
      ensures ok <==> PrintsAll(StoredAll(Db()))
      ensures text == LogOnDisk(header, StoredAll(Db()))
    {
      ok, text := UpdateLogFile(header, clients[..count]);
    }

    /** Index of the first account with this id, or -1. */
    method FindClientIndex(id: string) returns (k: int)
      requires Valid()
      ensures k == FindFrom(Db(), id, 0)
    {
      for i := 0 to count
        invariant FindFrom(Db(), id, 0) == FindFrom(Db(), id, i)
      {
        if clients[i].bankId == id {
          return i;
        }
      }
      return -1;
    }

    /** Finds the account, or for "N" opens one; the table doubles when it is full. */
    method GetOrCreateClient(id: string) returns (k: int)
      requires Valid()
      modifies this, clients
      ensures Valid() && (clients == old(clients) || fresh(clients))
      ensures (Db(), k) == GetOrCreate(old(Db()), id)
    {
      k := FindClientIndex(id);
      if k != -1 {
        return;
      }
      if id != "N" {
        return -1;
      }
      ghost var db := Db();
      if count >= clients.Length {
        clients := Doubled(clients, count);
      }
      assert Db() == db;
      clients[count] := NewClient(count);
      assert clients[..count + 1] == db + [NewClient(|db|)];
      count := count + 1;
      k := count - 1;
    }

    /** Applies one request to account `k`: refused withdrawals leave it alone, anything else is
        put in the first empty slot, if there is one, and counted. */
    method UpdateClient(k: nat, t: Transaction) returns (res: Response)
      requires Valid() && k < count
      modifies clients
      ensures Valid()
      ensures Db() == old(Db())[k := Update(old(Db())[k], t).0]
      ensures res == Update(old(Db())[k], t).1
    {
      ghost var db := Db();
      var c := clients[k];
      if t.op == DEPOSIT {
        clients[k] := clients[k].(credits := clients[k].credits + t.amount);
      } else if t.op == WITHDRAW {
        if clients[k].credits < t.amount {
          return Response(InsufficientCredits, c.bankId);
        }
        clients[k] := clients[k].(credits := clients[k].credits - t.amount);
      }
      ghost var moved := clients[k];
      var i := 0;
      while i < |clients[k].transactions|
        invariant i <= |c.transactions|
        invariant Db() == db[k := moved]
        invariant FirstEmpty(c.transactions, 0) == FirstEmpty(c.transactions, i)
        decreases |c.transactions| - i
      {
        if clients[k].transactions[i].op == 0 {
          clients[k] := clients[k].(transactions := clients[k].transactions[i := t]);
          break;
        }
        i := i + 1;
      }
      assert clients[k] == moved.(transactions := Recorded(c.transactions, t));
      clients[k] := clients[k].(transactionCount := clients[k].transactionCount + 1);
      res := Response(if clients[k].credits == 0 then AccountDeleted else Success, c.bankId);
    }

    /** One turn of the batch loop on the request in the shared slot. */
    method ServeSlot(t: Transaction) returns (answer: Response)
      requires Valid()
      modifies this, clients
      ensures Valid() && (clients == old(clients) || fresh(clients))
      ensures (Db(), answer) == Serve(old(Db()), t)
    {
      var k := GetOrCreateClient(t.bankId);
      if k == -1 {
        answer := Response(Failure, "");
      } else {
        answer := UpdateClient(k, t);
      }
    }
  }
}
