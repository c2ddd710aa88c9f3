/** Whole lives of the bank: batches of concurrent tellers, with saves and reloads in between.
    Seen from outside it is one sequential server that never stops. */
module BankLives {
  import BankLog
  import opened BankRestarts
  import opened Ledger
  import Sums
  import opened TellerSlot

  /** A batch has its jobs, and an interleaving of its processes. */
  datatype Chapter = Batch(jobs: seq<Transaction>, schedule: seq<Actor>) | Reboot(header: string)

  const CLEARED := Slot(-1, EMPTY)

  /** The shared memory as a starting server sets it up. */
  function Boot(db: seq<Client>): (m: Memory)
    ensures Ready(m)
  {
    Memory(db, 1, true, CLEARED)
  }

  function After(m: Memory, c: Chapter): (s: State)
    requires c.Batch?
    ensures |s.tellers| == |s.responses| == |c.jobs|
  {
    Execute(c.jobs, Open(m, |c.jobs|), c.schedule)
  }

  /** Batches find the memory as the last one left it; a new server sets it up afresh. */
  function Live(life: seq<Chapter>): Memory {
    if life == [] then Boot([])
    else
      var m := Live(life[..|life| - 1]);
      match life[|life| - 1]
      case Batch(_, _) => Left(After(m, life[|life| - 1]))
      case Reboot(header) => Boot(Reloaded(header, m.db))
  }

  predicate Finishes(life: seq<Chapter>, k: nat)
    requires k < |life|
  {
    match life[k]
    case Batch(jobs, _) => After(Live(life[..k]), life[k]).turn == |jobs|
    case Reboot(header) => TableHolds(header, Live(life[..k]).db)
  }

  /** In every batch the server has left its loop, and at every reboot its table holds the log. */
  ghost predicate Complete(life: seq<Chapter>) {
    forall k | 0 <= k < |life| :: Finishes(life, k)
  }

  function Asked(ts: seq<Transaction>): seq<Event> {
    seq(|ts|, k requires 0 <= k < |ts| => Request(ts[k]))
  }

  /** The batch that ended in `s` is the part of the story behind `early`: its jobs in the order
      `served`, with every teller's answer the one at its place in the story. */
  ghost predicate Tells(s: State, jobs: seq<Transaction>, served: seq<nat>, early: seq<Event>, story: seq<Event>) {
    && |s.tellers| == |s.responses| == |jobs|
    && IsOrder(served, |jobs|)
    && story == early + Asked(JobsOf(jobs, served))
    && |Replay(early).1| <= |Replay(story).1|
    && AnsweredInOrder(s, served, Replay(story).1[|Replay(early).1|..])
  }

  ghost predicate BatchTells(s: State, jobs: seq<Transaction>, early: seq<Event>, story: seq<Event>) {
    exists served: seq<nat> :: Tells(s, jobs, served, early, story)
  }

  /** What a chapter that begins in memory `m` adds to the story so far. */
  ghost predicate Adds(m: Memory, c: Chapter, early: seq<Event>, story: seq<Event>) {
    match c
    case Batch(jobs, _) => BatchTells(After(m, c), jobs, early, story)
    case Reboot(header) => story == early + [Restart(header)]
  }

  /** A sequential story that accounts for a life: chapter by chapter, the jobs of each batch in
      some order, the restarts between the batches where they were, all accounts the same and all
      answers those given. */
  ghost predicate Explains(life: seq<Chapter>, story: seq<Event>) {
    && Live(life).db == Replay(story).0
    && if life == [] then story == []
       else
         var before := life[..|life| - 1];
         exists early: seq<Event> :: Explains(before, early) && Adds(Live(before), life[|life| - 1], early, story)
  }

  // ----- from requests in a batch to requests in a story -----

  lemma ReplaySnoc(early: seq<Event>, t: Transaction)
    ensures var (db, answers) := Replay(early);
            Replay(early + [Request(t)]) == (Serve(db, t).0, answers + [Serve(db, t).1])
    ensures Requests(early + [Request(t)]) == Requests(early) + [t]
  {
    assert (early + [Request(t)])[..|early|] == early;
  }

  lemma RequestsRestart(early: seq<Event>, header: string)
    ensures Requests(early + [Restart(header)]) == Requests(early)
    ensures Replay(early + [Restart(header)]).0 == Reloaded(header, Replay(early).0)
  {
    assert (early + [Restart(header)])[..|early|] == early;
  }

  lemma AskedSnoc(early: seq<Event>, ts: seq<Transaction>)
    requires ts != []
    ensures early + Asked(ts) == (early + Asked(ts[..|ts| - 1])) + [Request(ts[|ts| - 1])]
  {
  }

  lemma Longer<T>(a: seq<T>, b: seq<T>, x: T)
    ensures (a + b) + [x] == a + (b + [x])
  {
  }

  lemma {:induction false} ReplayAsked(early: seq<Event>, ts: seq<Transaction>)
    ensures Replay(early + Asked(ts)).0 == Run(Replay(early).0, ts).0
    ensures Replay(early + Asked(ts)).1 == Replay(early).1 + Run(Replay(early).0, ts).1
  {
    if ts == [] {
      assert early + Asked(ts) == early;
      assert Run(Replay(early).0, ts) == (Replay(early).0, []);
    } else {
      var before, t := ts[..|ts| - 1], ts[|ts| - 1];
      var (db, answers) := Run(Replay(early).0, before);
      ReplayAsked(early, before);
      AskedSnoc(early, ts);
      ReplaySnoc(early + Asked(before), t);
      assert Run(Replay(early).0, ts) == (Serve(db, t).0, answers + [Serve(db, t).1]);
      Longer(Replay(early).1, answers, Serve(db, t).1);
    }
  }

  lemma {:induction false} RequestsAsked(early: seq<Event>, ts: seq<Transaction>)
    ensures Requests(early + Asked(ts)) == Requests(early) + ts
  {
    if ts == [] {
      assert early + Asked(ts) == early;
    } else {
      var before, t := ts[..|ts| - 1], ts[|ts| - 1];
      RequestsAsked(early, before);
      AskedSnoc(early, ts);
      ReplaySnoc(early + Asked(before), t);
      Longer(Requests(early), before, t);
    }
  }

  lemma CompletePrefix(life: seq<Chapter>, k: nat)
    requires Complete(life) && k <= |life|
    ensures Complete(life[..k])
  {
    forall m | 0 <= m < k ensures Finishes(life[..k], m) {
      assert life[..k][..m] == life[..m] && Finishes(life, m);
    }
  }

  lemma CompleteLast(life: seq<Chapter>)
    requires Complete(life) && life != []
    ensures Complete(life[..|life| - 1]) && Finishes(life, |life| - 1)
  {
    CompletePrefix(life, |life| - 1);
  }

  lemma BatchTold(life: seq<Chapter>, early: seq<Event>) returns (story: seq<Event>)
    requires life != [] && life[|life| - 1].Batch? && Finishes(life, |life| - 1)
    requires Ready(Live(life[..|life| - 1])) && Explains(life[..|life| - 1], early)
    ensures Explains(life, story) && Ready(Live(life))
  {
    var before, last := life[..|life| - 1], life[|life| - 1];
    var s := After(Live(before), last);
    Serializable(last.jobs, Live(before), last.schedule);
    var order := JobsOf(last.jobs, s.served);
    story := early + Asked(order);
    ReplayAsked(early, order);
    assert Tells(s, last.jobs, s.served, early, story);
    assert Adds(Live(before), last, early, story);
  }

  lemma RebootTold(life: seq<Chapter>, early: seq<Event>) returns (story: seq<Event>)
    requires life != [] && life[|life| - 1].Reboot? && Explains(life[..|life| - 1], early)
    ensures Explains(life, story) && Ready(Live(life))
  {
    var before, last := life[..|life| - 1], life[|life| - 1];
    story := early + [Restart(last.header)];
    RequestsRestart(early, last.header);
    assert Adds(Live(before), last, early, story);
  }

  /** A story of the earlier chapters goes on with the last one. */
  lemma ChapterTold(life: seq<Chapter>, early: seq<Event>)
    requires life != []
    ensures var before := life[..|life| - 1];
            Finishes(life, |life| - 1) && Ready(Live(before)) && Explains(before, early) ==>
              Ready(Live(life)) && exists story :: Explains(life, story)
  {
    var before := life[..|life| - 1];
    if Finishes(life, |life| - 1) && Ready(Live(before)) && Explains(before, early) {
      if life[|life| - 1].Batch? {
        var story := BatchTold(life, early);
      } else {
        var story := RebootTold(life, early);
      }
    }
  }

  /** However the processes of however many batches are interleaved, and wherever the bank is
      stopped and started again between them, a sequential story accounts for everything. */
  lemma {:induction false} LifeIsSequential(life: seq<Chapter>)
    requires Complete(life)
    ensures Ready(Live(life)) && exists story :: Explains(life, story)
  {
    if life == [] {
      assert Explains([], []);
    } else {
      CompleteLast(life);
      LifeIsSequential(life[..|life| - 1]);
      var early :| Explains(life[..|life| - 1], early);
      ChapterTold(life, early);
    }
  }

  // ----- a batch is served in some order of its jobs -----

  lemma TakeOut<T>(s: seq<T>, k: nat)
    requires k < |s|
    ensures multiset(s) == multiset(s[..k] + s[k + 1..]) + multiset{s[k]}
  {
    assert s == s[..k] + ([s[k]] + s[k + 1..]);
  }

  /** Without the place of the greatest number, an order of `n` is an order of `n - 1`. */
  lemma ShorterOrder(served: seq<nat>, k: nat)
    requires IsOrder(served, |served|) && k < |served| && served[k] == |served| - 1
    ensures IsOrder(served[..k] + served[k + 1..], |served| - 1)
  {
    var n, rest := |served|, served[..k] + served[k + 1..];
    RestCovers(served, k);
    if m :| 0 <= m < |rest| && rest[m] >= n - 1 {
      var fewer := rest[..m] + rest[m + 1..];
      forall i: nat | i < n - 1 ensures i in fewer {
        assert i in rest;
        var r :| 0 <= r < |rest| && rest[r] == i;
        assert fewer[if r < m then r else r - 1] == i;
      }
      Sums.Covered(fewer, n - 1);
      assert false;
    }
  }

  lemma RestCovers(served: seq<nat>, k: nat)
    requires IsOrder(served, |served|) && k < |served| && served[k] == |served| - 1
    ensures var rest := served[..k] + served[k + 1..]; forall i: nat | i < |served| - 1 :: i in rest
  {
    var rest := served[..k] + served[k + 1..];
    forall i: nat | i < |served| - 1 ensures i in rest {
      assert i in served;
      var m :| 0 <= m < |served| && served[m] == i;
      assert rest[if m < k then m else m - 1] == i;
    }
  }

  lemma JobsWithout(jobs: seq<Transaction>, served: seq<nat>, k: nat)
    requires IsOrder(served, |jobs|) && k < |jobs| && served[k] == |jobs| - 1
    ensures IsOrder(served[..k] + served[k + 1..], |jobs| - 1)
    ensures JobsOf(jobs, served)[..k] + JobsOf(jobs, served)[k + 1..] ==
            JobsOf(jobs[..|jobs| - 1], served[..k] + served[k + 1..])
  {
    ShorterOrder(served, k);
  }

  /** The jobs served in a batch are the jobs of the batch, in some order. */
  lemma {:induction false} ServedIsPermutation(jobs: seq<Transaction>, served: seq<nat>)
    requires IsOrder(served, |jobs|)
    ensures multiset(JobsOf(jobs, served)) == multiset(jobs)
    decreases |jobs|
  {
    var n := |jobs|;
    if n > 0 {
      assert n - 1 in served;
      var k :| 0 <= k < n && served[k] == n - 1;
      JobsWithout(jobs, served, k);
      ServedIsPermutation(jobs[..n - 1], served[..k] + served[k + 1..]);
      TakeOut(JobsOf(jobs, served), k);
      assert jobs == jobs[..n - 1] + [jobs[n - 1]];
    }
  }

  // ----- as if never stopped -----

  ghost predicate ChapterAllowed(db: seq<Client>, c: Chapter) {
    match c
    case Batch(jobs, _) => forall t | t in jobs :: WellFormed(t)
    case Reboot(header) => BankLog.IsHeader(header) && LinesFit(db) && |db| <= BankLog.INITIAL_CLIENTS && Fits(db)
  }

  ghost predicate ChapterInOrder(life: seq<Chapter>, k: nat)
    requires k < |life|
  {
    ChapterAllowed(Live(life[..k]).db, life[k])
  }

  /** Deposits and withdrawals only, and no restart while a history has outgrown its table or its line,
      or the accounts the table of a new server. */
  ghost predicate OrderlyLife(life: seq<Chapter>) {
    forall k | 0 <= k < |life| :: ChapterInOrder(life, k)
  }

  lemma OrderlyLifePrefix(life: seq<Chapter>, k: nat)
    requires OrderlyLife(life) && k <= |life|
    ensures OrderlyLife(life[..k])
  {
    forall m | 0 <= m < k ensures ChapterInOrder(life[..k], m) {
      assert life[..k][..m] == life[..m] && ChapterInOrder(life, m);
    }
  }

  lemma OrderlyLast(life: seq<Chapter>)
    requires OrderlyLife(life) && life != []
    ensures OrderlyLife(life[..|life| - 1])
    ensures ChapterAllowed(Live(life[..|life| - 1]).db, life[|life| - 1])
  {
    OrderlyLifePrefix(life, |life| - 1);
    assert ChapterInOrder(life, |life| - 1);
  }

  lemma OrderlySnoc(early: seq<Event>, e: Event)
    requires Orderly(early)
    requires InOrderAfter(Replay(early).0, e)
    ensures Orderly(early + [e])
  {
    var story := early + [e];
    forall k | 0 <= k < |story| ensures InOrder(story, k) {
      if k < |early| {
        assert story[..k] == early[..k] && InOrder(early, k);
      } else {
        assert story[..k] == early;
      }
    }
  }

  lemma {:induction false} OrderlyAsked(early: seq<Event>, ts: seq<Transaction>)
    requires Orderly(early) && forall t | t in ts :: WellFormed(t)
    ensures Orderly(early + Asked(ts))
  {
    if ts == [] {
      assert early + Asked(ts) == early;
    } else {
      var before := ts[..|ts| - 1];
      OrderlyAsked(early, before);
      OrderlySnoc(early + Asked(before), Request(ts[|ts| - 1]));
      AskedSnoc(early, ts);
    }
  }

  lemma {:induction false} RunMonotone(db: seq<Client>, ts: seq<Transaction>)
    ensures Fits(Run(db, ts).0) ==> Fits(db)
  {
    if ts != [] {
      RunMonotone(db, ts[..|ts| - 1]);
      ServeMonotone(Run(db, ts[..|ts| - 1]).0, ts[|ts| - 1]);
    }
  }

  lemma {:induction false} RunAppend(a: seq<Transaction>, b: seq<Transaction>)
    ensures Run([], a + b).0 == Run(Run([], a).0, b).0
    ensures Run([], a + b).1 == Run([], a).1 + Run(Run([], a).0, b).1
  {
    if b == [] {
      assert a + b == a;
    } else {
      RunAppend(a, b[..|b| - 1]);
      Longer(a, b[..|b| - 1], b[|b| - 1]);
      assert b[..|b| - 1] + [b[|b| - 1]] == b;
      RunSnoc([], a + b[..|b| - 1], b[|b| - 1]);
      RunSnoc(Run([], a).0, b[..|b| - 1], b[|b| - 1]);
      var answers := Run(Run([], a).0, b[..|b| - 1]).1;
      Longer(Run([], a).1, answers, Serve(Run([], a + b[..|b| - 1]).0, b[|b| - 1]).1);
    }
  }

  /** An orderly story in which no table is too small. */
  ghost predicate Sane(story: seq<Event>) {
    Orderly(story) && Fits(Run([], Requests(story)).0)
  }

  /** More requests after a sane story: the same as if the bank had never been stopped before them. */
  lemma SaneOn(early: seq<Event>, ts: seq<Transaction>)
    requires Sane(early) && Fits(Replay(early + Asked(ts)).0) && forall t | t in ts :: WellFormed(t)
    ensures Sane(early + Asked(ts))
  {
    ReplayAsked(early, ts);
    RequestsAsked(early, ts);
    OrderlyAsked(early, ts);
    RestartsInvisible(early);
    AlikeRun(Replay(early).0, Run([], Requests(early)).0, ts);
    RunAppend(Requests(early), ts);
  }

  lemma SaneRestart(early: seq<Event>, header: string)
    requires Sane(early) && InOrderAfter(Replay(early).0, Restart(header))
    ensures Sane(early + [Restart(header)])
  {
    OrderlySnoc(early, Restart(header));
    RequestsRestart(early, header);
  }

  lemma FitsBefore(early: seq<Event>, ts: seq<Transaction>)
    requires Fits(Replay(early + Asked(ts)).0)
    ensures Fits(Replay(early).0)
  {
    ReplayAsked(early, ts);
    RunMonotone(Replay(early).0, ts);
  }

  lemma LastChapter(life: seq<Chapter>, story: seq<Event>) returns (early: seq<Event>)
    requires Explains(life, story) && life != []
    ensures Explains(life[..|life| - 1], early)
    ensures Live(life[..|life| - 1]).db == Replay(early).0 && Live(life).db == Replay(story).0
    ensures Adds(Live(life[..|life| - 1]), life[|life| - 1], early, story)
  {
    var before := life[..|life| - 1];
    early :| Explains(before, early) && Adds(Live(before), life[|life| - 1], early, story);
  }

  /** In requests, a batch adds its jobs. */
  lemma BatchAdds(s: State, jobs: seq<Transaction>, early: seq<Event>, story: seq<Event>) returns (ts: seq<Transaction>)
    ensures BatchTells(s, jobs, early, story) ==> story == early + Asked(ts) && multiset(ts) == multiset(jobs)
  {
    if served: seq<nat> :| Tells(s, jobs, served, early, story) {
      ts := JobsOf(jobs, served);
      ServedIsPermutation(jobs, served);
    } else {
      ts := [];
    }
  }

  /** One more chapter keeps the story sane. */
  lemma ChapterIsSane(m: Memory, c: Chapter, early: seq<Event>, story: seq<Event>)
    ensures Adds(m, c, early, story) && m.db == Replay(early).0 && ChapterAllowed(m.db, c) && Fits(Replay(story).0) ==>
              Fits(m.db) && (Sane(early) ==> Sane(story))
  {
    if Adds(m, c, early, story) && m.db == Replay(early).0 && ChapterAllowed(m.db, c) && Fits(Replay(story).0) {
      if c.Batch? {
        var ts := BatchAdds(After(m, c), c.jobs, early, story);
        FitsBefore(early, ts);
        forall t | t in ts ensures WellFormed(t) { assert t in multiset(ts); }
        if Sane(early) { SaneOn(early, ts); }
      } else if Sane(early) {
        SaneRestart(early, c.header);
      }
    }
  }

  lemma NothingIsSane()
    ensures Sane([])
  {
  }

  /** The story of an orderly life is orderly, and nobody's table is too small in it. */
  lemma {:induction false} StoryIsSane(life: seq<Chapter>, story: seq<Event>)
    requires Explains(life, story) && OrderlyLife(life) && Fits(Live(life).db)
    ensures Sane(story)
  {
    if life == [] {
      NothingIsSane();
    } else {
      var before, last := life[..|life| - 1], life[|life| - 1];
      OrderlyLast(life);
      var early := LastChapter(life, story);
      ChapterIsSane(Live(before), last, early, story);
      StoryIsSane(before, early);
    }
  }

  function AllJobs(life: seq<Chapter>): seq<Transaction> {
    if life == [] then []
    else AllJobs(life[..|life| - 1]) + if life[|life| - 1].Batch? then life[|life| - 1].jobs else []
  }

  /** Nothing is lost, made up or done twice on the way from a life to its story. */
  lemma {:induction false} StoryHasAllJobs(life: seq<Chapter>, story: seq<Event>)
    requires Explains(life, story)
    ensures multiset(Requests(story)) == multiset(AllJobs(life))
  {
    if life != [] {
      var before, last := life[..|life| - 1], life[|life| - 1];
      var early := LastChapter(life, story);
      StoryHasAllJobs(before, early);
      if last.Reboot? {
        RequestsRestart(early, last.header);
        assert AllJobs(life) == AllJobs(before);
      } else {
        var ts := BatchAdds(After(Live(before), last), last.jobs, early, story);
        RequestsAsked(early, ts);
      }
    }
  }

  /** Without reboots the story is one run of all jobs, whatever their operations and amounts. */
  lemma {:induction false} StoryOfBatches(life: seq<Chapter>, story: seq<Event>)
    requires Explains(life, story) && forall c | c in life :: c.Batch?
    ensures Replay(story) == Run([], Requests(story))
  {
    if life != [] {
      var before, last := life[..|life| - 1], life[|life| - 1];
      var early := LastChapter(life, story);
      StoryOfBatches(before, early);
      assert last in life;
      var ts := BatchAdds(After(Live(before), last), last.jobs, early, story);
      ReplayAsked(early, ts);
      RequestsAsked(early, ts);
      RunAppend(Requests(early), ts);
    }
  }

  /** Concurrency and restarts together cannot be told apart from their absence: a life of batches
      and reboots has a story, with each batch's jobs in some order, whose accounts and answers are
      those of one sequential server that gets the requests one by one and never stops. */
  lemma {:induction false} LifeAsIfNeverStopped(life: seq<Chapter>)
    requires Complete(life) && OrderlyLife(life) && Fits(Live(life).db)
    ensures exists story :: Explains(life, story) && AsIfNeverStopped(story)
  {
    LifeIsSequential(life);
    var story :| Explains(life, story);
    StoryIsSane(life, story);
    RestartsInvisible(story);
  }

  lemma SolventAlike(a: seq<Client>, b: seq<Client>)
    requires Alike(a, b) && forall i | 0 <= i < |b| :: NeverOverdrawn(View(b[i]).history)
    ensures forall i | 0 <= i < |a| :: NeverOverdrawn(View(a[i]).history)
  {
    assert |Views(a)| == |Views(b)|;
    forall i | 0 <= i < |a| ensures View(a[i]) == View(b[i]) { assert Views(a)[i] == Views(b)[i]; }
  }

  /** So the ledger's promises hold for the concurrent bank: if no amount is negative, then at the end
      of any such life every balance is what its history adds up to, ids are canonical, and nobody was
      ever overdrawn. */
  lemma {:induction false} LifeKeepsLedger(life: seq<Chapter>)
    requires Complete(life) && OrderlyLife(life) && Fits(Live(life).db)
    requires forall t | t in AllJobs(life) :: t.amount >= 0
    ensures Ledger.Inv(Live(life).db)
    ensures forall i | 0 <= i < |Live(life).db| :: NeverOverdrawn(View(Live(life).db[i]).history)
  {
    LifeAsIfNeverStopped(life);
    var story :| Explains(life, story) && AsIfNeverStopped(story);
    StoryHasAllJobs(life, story);
    var ts := Requests(story);
    StoryIsSane(life, story);
    RequestsWellFormed(story);
    forall t | t in ts ensures WellFormed(t) && t.amount >= 0 {
      assert t in multiset(ts);
    }
    RunNeverOverdrawn(ts);
    SolventAlike(Live(life).db, Run([], ts).0);
  }
}
