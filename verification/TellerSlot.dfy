/** One batch of tellers handing their transactions to the server through one shared slot.
    The slot is guarded by a semaphore, a flag says whose turn it is, and every teller
    polls its own response cell. Accounts, semaphore, flag and slot outlive the batch. */
module TellerSlot {
  import opened Ledger
  import opened Sums

  /** Where a teller is: before `sem_wait`, inside the critical section before or after the
      check, polling its cell, or done with what it read there. */
  datatype Teller = Wanting | Checking | Leaving(written: bool) | Polling | Answered(response: Response)

  datatype Server = Idle | Looking | Closing(updated: bool)

  datatype Slot = Slot(tellerId: int, transaction: Transaction)

  /** What one batch leaves to the next. */
  datatype Memory = Memory(db: seq<Client>, semaphore: nat, serverRead: bool, slot: Slot)

  /** `served` records, in order, whose transactions the server has applied. */
  datatype State = State(
    db: seq<Client>,
    tellers: seq<Teller>,
    server: Server,
    turn: nat,
    semaphore: nat,
    serverRead: bool,
    slot: Slot,
    responses: seq<Response>,
    served: seq<nat>)

  datatype Actor = TheServer | ATeller(i: nat)

  /** A batch of `n` tellers begins in the memory as it is. */
  function Open(m: Memory, n: nat): State {
    State(m.db, seq(n, _ => Wanting), Idle, 0, m.semaphore, m.serverRead, m.slot,
          seq(n, _ => Response(Initialize, "")), [])
  }

  /** What it leaves behind. */
  function Left(s: State): Memory {
    Memory(s.db, s.semaphore, s.serverRead, s.slot)
  }

  /** The slot is free and nobody is inside. */
  predicate Ready(m: Memory) {
    m.semaphore == 1 && m.serverRead
  }

  /** One atomic step; an actor that cannot move, or only polls, changes nothing. */
  function Step(jobs: seq<Transaction>, s: State, actor: Actor): State
    requires |s.tellers| == |s.responses| == |jobs|
  {
    match actor
    case TheServer => ServerStep(jobs, s)
    case ATeller(i) => if i < |jobs| then TellerStep(jobs, s, i) else s
  }

  function TellerStep(jobs: seq<Transaction>, s: State, i: nat): State
    requires |s.tellers| == |s.responses| == |jobs| && i < |jobs|
  {
    match s.tellers[i]
    case Wanting =>
      if s.semaphore > 0 then s.(semaphore := s.semaphore - 1, tellers := s.tellers[i := Checking]) else s
    case Checking =>
      if s.serverRead then s.(slot := Slot(i, jobs[i]), serverRead := false, tellers := s.tellers[i := Leaving(true)])
      else s.(tellers := s.tellers[i := Leaving(false)])
    case Leaving(written) =>
      s.(semaphore := s.semaphore + 1, tellers := s.tellers[i := if written then Polling else Wanting])
    case Polling =>
      if s.responses[i].code == Initialize then s else s.(tellers := s.tellers[i := Answered(s.responses[i])])
    case Answered(_) => s
  }

  function ServerStep(jobs: seq<Transaction>, s: State): State
    requires |s.tellers| == |s.responses| == |jobs|
  {
    match s.server
    case Idle =>
      if s.turn < |jobs| && s.semaphore > 0 then s.(semaphore := s.semaphore - 1, server := Looking) else s
    case Looking =>
      if !s.serverRead && 0 <= s.slot.tellerId < |jobs| then
        var (db, answer) := Serve(s.db, s.slot.transaction);
        s.(db := db, responses := s.responses[s.slot.tellerId := answer], serverRead := true,
        served := s.served + [s.slot.tellerId], server := Closing(true))
      else s.(server := Closing(false))
    case Closing(updated) =>
      s.(semaphore := s.semaphore + 1, turn := if updated then s.turn + 1 else s.turn, server := Idle)
  }

  function Execute(jobs: seq<Transaction>, s: State, schedule: seq<Actor>): (r: State)
    requires |s.tellers| == |s.responses| == |jobs|
    ensures |r.tellers| == |r.responses| == |jobs|
  {
    if schedule == [] then s
    else Step(jobs, Execute(jobs, s, schedule[..|schedule| - 1]), schedule[|schedule| - 1])
  }

  // ----- the invariant -----

  predicate Inside(t: Teller) {
    t.Checking? || t.Leaving?
  }

  predicate Posted(t: Teller) {
    t == Leaving(true) || t.Polling? || t.Answered?
  }

  function JobsOf(jobs: seq<Transaction>, served: seq<nat>): seq<Transaction>
    requires forall k | 0 <= k < |served| :: served[k] < |jobs|
  {
    seq(|served|, k requires 0 <= k < |served| => jobs[served[k]])
  }

  /** The semaphore is free exactly when nobody is inside, and never lets in two. */
  ghost predicate Exclusive(s: State) {
    && s.semaphore <= 1
    && (s.semaphore == 1 <==> s.server.Idle? && forall i | 0 <= i < |s.tellers| :: !Inside(s.tellers[i]))
    && (!s.server.Idle? ==> forall i | 0 <= i < |s.tellers| :: !Inside(s.tellers[i]))
    && (forall i, j | 0 <= i < j < |s.tellers| :: !(Inside(s.tellers[i]) && Inside(s.tellers[j])))
  }

  /** A full slot holds the job of the one teller that has posted and not been served. */
  ghost predicate SlotKept(jobs: seq<Transaction>, s: State)
    requires |s.tellers| == |jobs|
  {
    && (!s.serverRead ==>
          0 <= s.slot.tellerId < |jobs| && s.slot.transaction == jobs[s.slot.tellerId] &&
          Posted(s.tellers[s.slot.tellerId]) && s.slot.tellerId !in s.served)
    && (forall i: nat | i < |jobs| && Posted(s.tellers[i]) :: i in s.served || (!s.serverRead && i == s.slot.tellerId))
    && (forall i: nat | i < |jobs| && s.tellers[i] == Leaving(true) :: !s.serverRead && i == s.slot.tellerId)
  }

  /** The served tellers are distinct, have all posted, and are as many as the server counted. */
  ghost predicate Ordered(jobs: seq<Transaction>, s: State)
    requires |s.tellers| == |jobs|
  {
    && (forall k | 0 <= k < |s.served| :: s.served[k] < |jobs| && Posted(s.tellers[s.served[k]]))
    && (forall k, m | 0 <= k < m < |s.served| :: s.served[k] != s.served[m])
    && |s.served| == s.turn + (if s.server == Closing(true) then 1 else 0)
    && (!s.server.Idle? ==> s.turn < |jobs|)
  }

  /** The accounts and the filled response cells are those of the served jobs, one after the other. */
  ghost predicate Booked(
    jobs: seq<Transaction>, db0: seq<Client>, db: seq<Client>, served: seq<nat>, responses: seq<Response>)
    requires |responses| == |jobs|
    requires forall k | 0 <= k < |served| :: served[k] < |jobs|
  {
    && db == Run(db0, JobsOf(jobs, served)).0
    && (forall k | 0 <= k < |served| :: responses[served[k]] == Run(db0, JobsOf(jobs, served)).1[k])
    && (forall i: nat | i < |jobs| :: responses[i].code != Initialize <==> i in served)
  }

  ghost predicate Read(s: State)
    requires |s.tellers| == |s.responses|
  {
    forall i | 0 <= i < |s.tellers| && s.tellers[i].Answered? ::
      s.tellers[i].response == s.responses[i] && s.responses[i].code != Initialize
  }

  ghost predicate Inv(jobs: seq<Transaction>, db0: seq<Client>, s: State) {
    && |s.tellers| == |s.responses| == |jobs|
    && Exclusive(s) && SlotKept(jobs, s) && Ordered(jobs, s)
    && Booked(jobs, db0, s.db, s.served, s.responses) && Read(s)
  }

  lemma TellerKeepsExclusive(jobs: seq<Transaction>, s: State, i: nat)
    requires |s.tellers| == |s.responses| == |jobs| && Exclusive(s) && i < |jobs|
    ensures Exclusive(TellerStep(jobs, s, i))
  {
    var s' := TellerStep(jobs, s, i);
    assert forall j | 0 <= j < |jobs| && j != i :: s.tellers[j] == s'.tellers[j];
    assert Inside(s.tellers[i]) ==> forall j | 0 <= j < |jobs| && j != i :: !Inside(s.tellers[j]);
    assert Inside(s'.tellers[i]) ==> s'.semaphore == 0;
  }

  lemma TellerKeepsOrdered(jobs: seq<Transaction>, s: State, i: nat)
    requires |s.tellers| == |s.responses| == |jobs| && i < |jobs| && Ordered(jobs, s) && Read(s)
    requires s.tellers[i].Checking? ==> i !in s.served
    ensures Ordered(jobs, TellerStep(jobs, s, i)) && Read(TellerStep(jobs, s, i))
  {
    var s' := TellerStep(jobs, s, i);
    assert forall j | 0 <= j < |jobs| && j != i :: s.tellers[j] == s'.tellers[j];
    assert Posted(s.tellers[i]) ==> Posted(s'.tellers[i]);
  }

  lemma TellerKeepsInv(jobs: seq<Transaction>, db0: seq<Client>, s: State, i: nat)
    requires Inv(jobs, db0, s) && i < |jobs|
    ensures Inv(jobs, db0, TellerStep(jobs, s, i))
  {
    TellerKeepsExclusive(jobs, s, i);
    assert s.tellers[i].Checking? ==> i !in s.served;
    TellerKeepsOrdered(jobs, s, i);
    TellerKeepsSlot(jobs, s, i);
  }

  lemma TellerKeepsSlot(jobs: seq<Transaction>, s: State, i: nat)
    requires |s.tellers| == |s.responses| == |jobs| && i < |jobs| && SlotKept(jobs, s)
    requires s.tellers[i].Checking? ==> i !in s.served
    ensures SlotKept(jobs, TellerStep(jobs, s, i))
  {
    var s' := TellerStep(jobs, s, i);
    assert forall j | 0 <= j < |jobs| && j != i :: s.tellers[j] == s'.tellers[j];
    assert s.tellers[i].Leaving? && s.tellers[i].written ==> Posted(s.tellers[i]);
  }

  lemma ServeAnswers(db: seq<Client>, t: Transaction)
    ensures Serve(db, t).1.code != Initialize
  {
  }

  lemma JobsSnoc(jobs: seq<Transaction>, served: seq<nat>, id: nat)
    requires id < |jobs| && forall k | 0 <= k < |served| :: served[k] < |jobs|
    ensures forall k | 0 <= k < |served + [id]| :: (served + [id])[k] < |jobs|
    ensures JobsOf(jobs, served + [id]) == JobsOf(jobs, served) + [jobs[id]]
  {
  }

  /** A new answer in a cell of its own leaves the earlier cells as they were. */
  lemma CellsAfter(n: nat, served: seq<nat>, responses: seq<Response>, answers: seq<Response>, id: nat, answer: Response)
    requires |responses| == n && |answers| == |served| && id < n && id !in served && answer.code != Initialize
    requires forall k | 0 <= k < |served| :: served[k] < n && responses[served[k]] == answers[k]
    requires forall i: nat | i < n :: responses[i].code != Initialize <==> i in served
    ensures var served', responses', answers' := served + [id], responses[id := answer], answers + [answer];
            && (forall k | 0 <= k < |served'| :: served'[k] < n && responses'[served'[k]] == answers'[k])
            && (forall i: nat | i < n :: responses'[i].code != Initialize <==> i in served')
  {
    forall k | 0 <= k < |served| ensures served[k] != id { }
    assert (served + [id])[|served|] == id;
  }

  lemma ServerServes(
    jobs: seq<Transaction>, db0: seq<Client>, db: seq<Client>, served: seq<nat>, responses: seq<Response>, id: nat)
    requires |responses| == |jobs| && id < |jobs| && id !in served
    requires forall k | 0 <= k < |served| :: served[k] < |jobs|
    requires Booked(jobs, db0, db, served, responses)
    ensures var (db', answer) := Serve(db, jobs[id]);
            (forall k | 0 <= k < |served + [id]| :: (served + [id])[k] < |jobs|) &&
            Booked(jobs, db0, db', served + [id], responses[id := answer])
  {
    ServeAnswers(db, jobs[id]);
    JobsSnoc(jobs, served, id);
    RunSnoc(db0, JobsOf(jobs, served), jobs[id]);
    CellsAfter(|jobs|, served, responses, Run(db0, JobsOf(jobs, served)).1, id, Serve(db, jobs[id]).1);
  }

  lemma ServerKeepsInv(jobs: seq<Transaction>, db0: seq<Client>, s: State)
    requires Inv(jobs, db0, s)
    ensures Inv(jobs, db0, ServerStep(jobs, s))
  {
    if s.server.Looking? && !s.serverRead {
      ServerServes(jobs, db0, s.db, s.served, s.responses, s.slot.tellerId);
    }
  }

  lemma StepKeepsInv(jobs: seq<Transaction>, db0: seq<Client>, s: State, actor: Actor)
    requires Inv(jobs, db0, s)
    ensures Inv(jobs, db0, Step(jobs, s, actor))
  {
    match actor {
      case TheServer => ServerKeepsInv(jobs, db0, s);
      case ATeller(i) => if i < |jobs| { TellerKeepsInv(jobs, db0, s, i); }
    }
  }

  lemma {:induction false} ExecuteKeepsInv(jobs: seq<Transaction>, db0: seq<Client>, s: State, schedule: seq<Actor>)
    requires Inv(jobs, db0, s)
    ensures Inv(jobs, db0, Execute(jobs, s, schedule))
  {
    if schedule != [] {
      ExecuteKeepsInv(jobs, db0, s, schedule[..|schedule| - 1]);
      StepKeepsInv(jobs, db0, Execute(jobs, s, schedule[..|schedule| - 1]), schedule[|schedule| - 1]);
    }
  }

  lemma OpenInv(jobs: seq<Transaction>, m: Memory)
    requires Ready(m)
    ensures Inv(jobs, m.db, Open(m, |jobs|))
  {
    assert JobsOf(jobs, []) == [];
  }

  /** A full slot always holds the own transaction of a teller that has posted it and has not been
      served, and whoever moves next, it stays there until the server serves exactly that teller. */
  lemma NeverOverwritten(jobs: seq<Transaction>, m: Memory, schedule: seq<Actor>, actor: Actor)
    requires Ready(m)
    ensures var s := Execute(jobs, Open(m, |jobs|), schedule);
            var s' := Step(jobs, s, actor);
            var id := s.slot.tellerId;
            !s.serverRead ==>
              && 0 <= id < |jobs| && s.slot.transaction == jobs[id] && Posted(s.tellers[id]) && id !in s.served
              && if s'.serverRead then s'.served == s.served + [id] else s'.slot == s.slot && s'.served == s.served
  {
    OpenInv(jobs, m);
    ExecuteKeepsInv(jobs, m.db, Open(m, |jobs|), schedule);
  }

  // ----- serializability -----

  /** At the end of the server's loop nobody is inside: a teller there has not posted, or not been served. */
  lemma NobodyInside(jobs: seq<Transaction>, db0: seq<Client>, s: State)
    requires Inv(jobs, db0, s) && s.turn == |jobs| && forall i: nat | i < |jobs| :: i in s.served
    ensures s.server.Idle? && Ready(Left(s))
  {
    forall i | 0 <= i < |jobs| ensures !Inside(s.tellers[i]) {
      assert i in s.served && Posted(s.tellers[i]);
    }
    assert !s.serverRead ==> s.slot.tellerId in s.served;
  }

  /** The served tellers are all tellers, each once. */
  predicate IsOrder(served: seq<nat>, n: nat) {
    && |served| == n
    && (forall k | 0 <= k < n :: served[k] < n)
    && (forall i: nat | i < n :: i in served)
  }

  /** Every response cell, and whatever a teller has read, is the answer at its own place. */
  predicate AnsweredInOrder(s: State, served: seq<nat>, answers: seq<Response>)
    requires |s.tellers| == |s.responses| && IsOrder(served, |s.tellers|)
  {
    && |answers| == |served|
    && forall k | 0 <= k < |served| ::
         s.responses[served[k]] == answers[k] &&
         (s.tellers[served[k]].Answered? ==> s.tellers[served[k]].response == answers[k])
  }

  /** For any number of tellers and any interleaving: once the server's loop is over, the tellers
      were served in some order, each exactly once; the accounts are what the transactions do one
      after the other in that order; every teller has the answer at its own place; and the server is
      back outside with slot and semaphore free, which is all the next batch needs. */
  lemma Serializable(jobs: seq<Transaction>, m: Memory, schedule: seq<Actor>)
    requires Ready(m)
    ensures var s := Execute(jobs, Open(m, |jobs|), schedule);
            s.turn == |jobs| ==>
              && IsOrder(s.served, |jobs|)
              && s.db == Run(m.db, JobsOf(jobs, s.served)).0
              && AnsweredInOrder(s, s.served, Run(m.db, JobsOf(jobs, s.served)).1)
              && s.server.Idle? && Ready(Left(s))
  {
    OpenInv(jobs, m);
    ExecuteKeepsInv(jobs, m.db, Open(m, |jobs|), schedule);
    var s := Execute(jobs, Open(m, |jobs|), schedule);
    Pigeonhole(s.served, |jobs|);
    if s.turn == |jobs| { NobodyInside(jobs, m.db, s); }
  }

  // ----- progress -----

  function Weight(t: Teller): nat {
    if Posted(t) then if t.Answered? then 0 else 1 else 2
  }

  function Weights(ts: seq<Teller>): seq<nat> {
    seq(|ts|, i requires 0 <= i < |ts| => Weight(ts[i]))
  }

  /** Postings, servings and answers still to come. */
  function Work(s: State): int {
    Sum(Weights(s.tellers)) + |s.tellers| - |s.served|
  }

  ghost predicate Finished(s: State) {
    && s.turn == |s.tellers| && s.server.Idle? && s.semaphore == 1 && s.serverRead
    && forall i | 0 <= i < |s.tellers| :: s.tellers[i].Answered?
  }

  lemma WorkOfTeller(s: State, i: nat, t: Teller)
    requires i < |s.tellers|
    ensures Sum(Weights(s.tellers[i := t])) == Sum(Weights(s.tellers)) - Weight(s.tellers[i]) + Weight(t)
  {
    SumUpdate(Weights(s.tellers), i, Weight(t));
    assert Weights(s.tellers[i := t]) == Weights(s.tellers)[i := Weight(t)];
  }

  predicate Answers(s: State, s': State, i: nat) {
    i < |s.tellers| && i < |s'.tellers| && s'.tellers[i].Answered? && !s.tellers[i].Answered?
  }

  /** A posting or a serving turns the flag over; otherwise a teller may get its answer. */
  ghost predicate Useful(s: State, s': State) {
    s'.serverRead != s.serverRead || exists i :: Answers(s, s', i)
  }

  /** What a teller's step does to its own weight, and whether that is a posting or an answer. */
  ghost predicate Weighed(s: State, s': State, i: nat)
    requires |s'.tellers| == |s.tellers| && i < |s.tellers|
  {
    && (s'.serverRead != s.serverRead || Answers(s, s', i) ==> Weight(s'.tellers[i]) == Weight(s.tellers[i]) - 1)
    && (s'.serverRead == s.serverRead && !Answers(s, s', i) ==> Weight(s'.tellers[i]) == Weight(s.tellers[i]))
  }

  lemma TellerWeight(jobs: seq<Transaction>, s: State, i: nat)
    requires |s.tellers| == |s.responses| == |jobs| && i < |jobs|
    ensures var s' := TellerStep(jobs, s, i);
            && |s'.tellers| == |s.tellers| && s'.tellers == s.tellers[i := s'.tellers[i]] && s'.served == s.served
            && Weighed(s, s', i)
  {
  }

  lemma TellerWork(jobs: seq<Transaction>, s: State, i: nat)
    requires |s.tellers| == |s.responses| == |jobs| && i < |jobs|
    ensures var s' := TellerStep(jobs, s, i);
            Work(s') == if Useful(s, s') then Work(s) - 1 else Work(s)
  {
    var s' := TellerStep(jobs, s, i);
    TellerWeight(jobs, s, i);
    WorkOfTeller(s, i, s'.tellers[i]);
    assert forall j | Answers(s, s', j) :: j == i;
  }

  lemma ServerWork(jobs: seq<Transaction>, db0: seq<Client>, s: State)
    requires Inv(jobs, db0, s)
    ensures var s' := ServerStep(jobs, s);
            Work(s') == if Useful(s, s') then Work(s) - 1 else Work(s)
  {
    var s' := ServerStep(jobs, s);
    assert s'.tellers == s.tellers;
    assert s'.serverRead ==> s'.serverRead == s.serverRead || |s'.served| == |s.served| + 1;
  }

  lemma WorkNonNegative(jobs: seq<Transaction>, db0: seq<Client>, s: State)
    requires Inv(jobs, db0, s)
    ensures Work(s) >= 0
  {
    Pigeonhole(s.served, |jobs|);
  }

  /** No step adds work, and a step that posts, serves or answers takes exactly one unit off. */
  lemma WorkNeverGrows(jobs: seq<Transaction>, db0: seq<Client>, s: State, actor: Actor)
    requires Inv(jobs, db0, s)
    ensures var s' := Step(jobs, s, actor);
            Work(s') == (if Useful(s, s') then Work(s) - 1 else Work(s)) && Work(s') >= 0
  {
    match actor {
      case TheServer => ServerWork(jobs, db0, s);
      case ATeller(i) => if i < |jobs| { TellerWork(jobs, s, i); }
    }
    StepKeepsInv(jobs, db0, s, actor);
    WorkNonNegative(jobs, db0, Step(jobs, s, actor));
  }

  /** Distance to the next useful event of whoever is inside the critical section. */
  function Phase(s: State): nat {
    if s.server.Looking? then if s.serverRead then 5 else 2
    else if s.server.Closing? then 4
    else if exists i :: 0 <= i < |s.tellers| && s.tellers[i].Checking? then if s.serverRead then 2 else 5
    else if exists i :: 0 <= i < |s.tellers| && s.tellers[i].Leaving? then 4
    else 3
  }

  function Distance(s: State): int {
    10 * Work(s) + Phase(s)
  }

  lemma WhenAllAnswered(jobs: seq<Transaction>, db0: seq<Client>, s: State)
    requires Inv(jobs, db0, s) && s.semaphore == 1 && s.serverRead
    requires forall i | 0 <= i < |jobs| :: s.tellers[i].Answered?
    ensures Finished(s)
  {
    Pigeonhole(s.served, |jobs|);
    if |s.served| < |jobs| {
      forall i: nat | i < |jobs| ensures i in s.served { assert Posted(s.tellers[i]); }
      Covered(s.served, |jobs|);
    }
  }

  lemma HolderSteps(jobs: seq<Transaction>, db0: seq<Client>, s: State, i: nat)
    requires Inv(jobs, db0, s) && i < |jobs| && Inside(s.tellers[i])
    ensures Distance(TellerStep(jobs, s, i)) < Distance(s)
  {
    var s' := TellerStep(jobs, s, i);
    TellerWork(jobs, s, i);
    assert s.server.Idle?;
    assert forall j | 0 <= j < |jobs| && j != i :: !Inside(s.tellers[j]) && s'.tellers[j] == s.tellers[j];
    if s.tellers[i].Checking? {
      assert s'.tellers[i].Leaving? && Phase(s') == 4;
    } else {
      assert Phase(s) == 4 && Phase(s') == 3;
    }
  }

  lemma EntererSteps(jobs: seq<Transaction>, s: State, i: nat)
    requires |s.tellers| == |s.responses| == |jobs| && Exclusive(s) && i < |jobs|
    requires s.semaphore == 1 && s.serverRead && s.tellers[i].Wanting?
    ensures Distance(TellerStep(jobs, s, i)) < Distance(s)
  {
    var s' := TellerStep(jobs, s, i);
    WorkOfTeller(s, i, Checking);
    assert s'.tellers[i].Checking? && Phase(s') == 2;
    assert forall j | 0 <= j < |jobs| :: !Inside(s.tellers[j]);
    assert Phase(s) == 3;
  }

  lemma PollerSteps(jobs: seq<Transaction>, db0: seq<Client>, s: State, i: nat)
    requires Inv(jobs, db0, s) && i < |jobs|
    requires s.semaphore == 1 && s.serverRead && s.tellers[i].Polling?
    ensures Distance(TellerStep(jobs, s, i)) < Distance(s)
  {
    assert Posted(s.tellers[i]);
    var s' := TellerStep(jobs, s, i);
    TellerWork(jobs, s, i);
    assert Answers(s, s', i);
    assert forall j | 0 <= j < |jobs| :: !Inside(s.tellers[j]) && !Inside(s'.tellers[j]);
  }

  lemma ServerSteps(jobs: seq<Transaction>, db0: seq<Client>, s: State)
    requires Inv(jobs, db0, s) && (!s.server.Idle? || (s.semaphore == 1 && !s.serverRead))
    ensures Distance(ServerStep(jobs, s)) < Distance(s)
  {
    ServerWork(jobs, db0, s);
    var s' := ServerStep(jobs, s);
    assert s'.tellers == s.tellers;
    if !s.server.Idle? {
      assert forall i | 0 <= i < |jobs| :: !Inside(s.tellers[i]);
    } else {
      Pigeonhole(s.served + [s.slot.tellerId], |jobs|);
    }
  }

  /** In every state that is not finished somebody has a step that brings the end nearer. */
  lemma SomeoneHelps(jobs: seq<Transaction>, db0: seq<Client>, s: State) returns (actor: Actor)
    requires Inv(jobs, db0, s) && !Finished(s)
    ensures Distance(Step(jobs, s, actor)) < Distance(s)
  {
    if !s.server.Idle? || (s.semaphore == 1 && !s.serverRead) {
      actor := TheServer;
      ServerSteps(jobs, db0, s);
    } else if i :| 0 <= i < |jobs| && Inside(s.tellers[i]) {
      actor := ATeller(i);
      HolderSteps(jobs, db0, s, i);
    } else if i :| 0 <= i < |jobs| && s.tellers[i].Wanting? {
      actor := ATeller(i);
      EntererSteps(jobs, s, i);
    } else if i :| 0 <= i < |jobs| && s.tellers[i].Polling? {
      actor := ATeller(i);
      PollerSteps(jobs, db0, s, i);
    } else {
      forall i | 0 <= i < |jobs| ensures s.tellers[i].Answered? { assert !Inside(s.tellers[i]); }
      WhenAllAnswered(jobs, db0, s);
      assert false;
    }
  }

  lemma {:induction false} ExecuteCons(jobs: seq<Transaction>, s: State, actor: Actor, more: seq<Actor>)
    requires |s.tellers| == |s.responses| == |jobs|
    ensures Execute(jobs, s, [actor] + more) == Execute(jobs, Step(jobs, s, actor), more)
  {
    var all := [actor] + more;
    if more == [] {
      assert all[..0] == [];
    } else {
      assert all[..|all| - 1] == [actor] + more[..|more| - 1];
      ExecuteCons(jobs, s, actor, more[..|more| - 1]);
    }
  }

  lemma {:induction false} FinishFrom(jobs: seq<Transaction>, db0: seq<Client>, s: State)
    requires Inv(jobs, db0, s)
    ensures exists more :: Finished(Execute(jobs, s, more))
    decreases Distance(s)
  {
    if Finished(s) {
      assert Execute(jobs, s, []) == s;
    } else {
      var actor := SomeoneHelps(jobs, db0, s);
      var s' := Step(jobs, s, actor);
      StepKeepsInv(jobs, db0, s, actor);
      WorkNonNegative(jobs, db0, s');
      FinishFrom(jobs, db0, s');
      var more :| Finished(Execute(jobs, s', more));
      ExecuteCons(jobs, s, actor, more);
    }
  }

  /** No reachable state is stuck: whatever has happened so far, the batch can still be brought to
      the end, with every teller answered, the semaphore free and the slot marked as read. */
  lemma NeverStuck(jobs: seq<Transaction>, m: Memory, schedule: seq<Actor>)
    requires Ready(m)
    ensures exists more :: Finished(Execute(jobs, Execute(jobs, Open(m, |jobs|), schedule), more))
  {
    OpenInv(jobs, m);
    ExecuteKeepsInv(jobs, m.db, Open(m, |jobs|), schedule);
    FinishFrom(jobs, m.db, Execute(jobs, Open(m, |jobs|), schedule));
  }
}
