/** What the bank's answers mean, and what a request does to the accounts. */
module BankAnswers {
  import opened Ledger
  import opened TellerSlot

  predicate Refused(c: Client, t: Transaction) {
    t.op == WITHDRAW && c.credits < t.amount
  }

  /** Every answer, read off the accounts before and after. */
  lemma AnswerMeans(db: seq<Client>, t: Transaction)
    ensures var (found, i) := GetOrCreate(db, t.bankId);
            var (after, answer) := Serve(db, t);
            && (answer.code == Failure <==> i == -1)
            && |after| == |found|
            && (i != -1 ==>
                  && answer.bankId == found[i].bankId
                  && (answer.code == InsufficientCredits <==> Refused(found[i], t))
                  && (answer.code == AccountDeleted <==> !Refused(found[i], t) && after[i].credits == 0)
                  && (answer.code == Success <==> !Refused(found[i], t) && after[i].credits != 0))
  {
  }

  // ----- answers in terms of the accounts alone -----

  /** The account a request names, as it is before it is served; `-1` is none. */
  ghost function Named(vs: seq<Account>, i: int): Account
    requires -1 < i <= |vs|
  {
    if i < |vs| then vs[i] else Account(NewId(i), 0, [])
  }

  /** The balance the request asks for. */
  function Asked(credits: int, t: Transaction): int {
    if t.op == WITHDRAW then credits - t.amount else credits + t.amount
  }

  /** The right answer to a deposit or withdrawal, given the accounts: an unknown id fails; more than
      there is cannot be withdrawn; an account that comes to nothing counts as deleted. */
  ghost predicate Right(vs: seq<Account>, t: Transaction, answer: Response) {
    forall i | -1 <= i <= |vs| && Names(t.bankId, |vs|, i) ::
      if i == -1 then answer.code == Failure
      else
        var a := Named(vs, i);
        && answer.bankId == a.bankId
        && answer.code == if t.op == WITHDRAW && a.credits < t.amount then InsufficientCredits
                          else if Asked(a.credits, t) == 0 then AccountDeleted else Success
  }

  /** What the request leaves: the named account with the new balance and one more entry, or everything
      as it was. */
  ghost predicate Effected(vs: seq<Account>, t: Transaction, after: seq<Account>) {
    forall i | -1 <= i <= |vs| && Names(t.bankId, |vs|, i) ::
      if i == -1 then after == vs
      else
        var a := Named(vs, i);
        var refused := t.op == WITHDRAW && a.credits < t.amount;
        && |after| == (if i == |vs| then |vs| + 1 else |vs|)
        && (forall j | 0 <= j < |vs| && j != i :: after[j] == vs[j])
        && after[i].bankId == a.bankId
        && after[i].credits == (if refused then a.credits else Asked(a.credits, t))
        && after[i].history == if refused then a.history
                               else if t.op == DEPOSIT then a.history + [Entry(Deposit, t.amount)]
                               else a.history + [Entry(Withdraw, t.amount)]
  }

  lemma NamesOne(id: string, n: nat, i: int, j: int)
    requires Names(id, n, i) && Names(id, n, j)
    ensures i == j
  {
    if 0 <= i && 0 <= j { NewIdInjective(i, j); }
  }

  lemma ServeAtMeans(vs: seq<Account>, t: Transaction, i: int)
    requires -1 <= i <= |vs| && Names(t.bankId, |vs|, i) && WellFormed(t)
    requires forall k | 0 <= k < |vs| :: vs[k].bankId == NewId(k)
    ensures Right(vs, t, ServeAt(vs, t, i).1) && Effected(vs, t, ServeAt(vs, t, i).0)
  {
    forall j | -1 <= j <= |vs| && Names(t.bankId, |vs|, j) ensures j == i { NamesOne(t.bankId, |vs|, i, j); }
  }

  /** Every request is answered rightly and has exactly its effect. */
  lemma ServedRightly(db: seq<Client>, t: Transaction)
    requires Ledger.Inv(db) && WellFormed(t) && Fits(Serve(db, t).0)
    ensures Ledger.Inv(Serve(db, t).0)
    ensures Right(Views(db), t, Serve(db, t).1) && Effected(Views(db), t, Views(Serve(db, t).0))
  {
    ServeRefines(db, t);
    ServeAtMeans(Views(db), t, GetOrCreate(db, t.bankId).1);
  }

  // ----- whole runs -----

  lemma {:induction false} RunAt(db: seq<Client>, ts: seq<Transaction>, k: nat)
    requires k < |ts|
    ensures Run(db, ts).1[k] == Serve(Run(db, ts[..k]).0, ts[k]).1
    ensures Run(db, ts[..k + 1]).0 == Serve(Run(db, ts[..k]).0, ts[k]).0
    ensures Fits(Run(db, ts).0) ==> Fits(Run(db, ts[..k + 1]).0)
  {
    var before := ts[..|ts| - 1];
    if k == |ts| - 1 {
      assert ts[..k + 1] == ts;
    } else {
      RunAt(db, before, k);
      assert before[..k] == ts[..k] && before[..k + 1] == ts[..k + 1];
      ServeMonotone(Run(db, before).0, ts[|ts| - 1]);
    }
  }

  lemma {:induction false} RunFromKeeps(db: seq<Client>, ts: seq<Transaction>)
    requires Ledger.Inv(db) && Fits(Run(db, ts).0) && forall t | t in ts :: WellFormed(t)
    ensures Ledger.Inv(Run(db, ts).0)
  {
    if ts != [] {
      var before, t := ts[..|ts| - 1], ts[|ts| - 1];
      ServeMonotone(Run(db, before).0, t);
      RunFromKeeps(db, before);
      ServeRefines(Run(db, before).0, t);
    }
  }

  /** In a run of deposits and withdrawals every request is answered rightly for the accounts as the
      earlier requests have left them. */
  lemma {:induction false} RunRightly(db: seq<Client>, ts: seq<Transaction>, k: nat)
    requires Ledger.Inv(db) && Fits(Run(db, ts).0) && k < |ts|
    requires forall t | t in ts :: WellFormed(t)
    ensures Ledger.Inv(Run(db, ts[..k]).0)
    ensures Right(Views(Run(db, ts[..k]).0), ts[k], Run(db, ts).1[k])
  {
    RunAt(db, ts, k);
    ServeMonotone(Run(db, ts[..k]).0, ts[k]);
    RunFromKeeps(db, ts[..k]);
    ServedRightly(Run(db, ts[..k]).0, ts[k]);
  }

  /** So every teller of a finished batch gets the right answer to its own transaction, for the accounts
      as the tellers served before it have left them. */
  lemma {:induction false} TellersToldRightly(jobs: seq<Transaction>, m: Memory, schedule: seq<Actor>, k: nat)
    requires Ready(m) && Ledger.Inv(m.db) && k < |jobs| && forall t | t in jobs :: WellFormed(t)
    ensures var s := Execute(jobs, Open(m, |jobs|), schedule);
            s.turn == |jobs| && Fits(s.db) ==>
              && IsOrder(s.served, |jobs|)
              && var earlier := Run(m.db, JobsOf(jobs, s.served)[..k]).0;
              Ledger.Inv(earlier) && Right(Views(earlier), jobs[s.served[k]], s.responses[s.served[k]])
  {
    Serializable(jobs, m, schedule);
    var s := Execute(jobs, Open(m, |jobs|), schedule);
    if s.turn == |jobs| && Fits(s.db) {
      var order := JobsOf(jobs, s.served);
      forall t | t in order ensures WellFormed(t) { assert t in jobs; }
      RunRightly(m.db, order, k);
    }
  }
}
