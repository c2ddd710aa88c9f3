/** How long a batch can take: rounds in which everybody who still has something to do looks once. */
module TellerRounds {
  import Ledger
  import opened Sums
  import opened TellerSlot

  /** The actor is about to look: at the flag inside the critical section, or at its response cell. */
  predicate AtLook(s: State, actor: Actor) {
    match actor
    case TheServer => s.server.Looking?
    case ATeller(i) => i < |s.tellers| && (s.tellers[i].Checking? || s.tellers[i].Polling?)
  }

  /** Step `k` of the stretch is a look by this actor. */
  ghost predicate LooksAt(jobs: seq<Ledger.Transaction>, s: State, stretch: seq<Actor>, k: nat, actor: Actor)
    requires |s.tellers| == |s.responses| == |jobs|
  {
    k < |stretch| && stretch[k] == actor && AtLook(Execute(jobs, s, stretch[..k]), actor)
  }

  ghost predicate Looks(jobs: seq<Ledger.Transaction>, s: State, stretch: seq<Actor>, actor: Actor)
    requires |s.tellers| == |s.responses| == |jobs|
  {
    exists k: nat :: LooksAt(jobs, s, stretch, k, actor)
  }

  /** In this stretch of a run the server, unless it has served everybody, and every teller without an
      answer look at least once. */
  ghost predicate Round(jobs: seq<Ledger.Transaction>, s: State, stretch: seq<Actor>)
    requires |s.tellers| == |s.responses| == |jobs|
  {
    && (|s.served| < |jobs| ==> Looks(jobs, s, stretch, TheServer))
    && (forall i: nat | i < |jobs| && !s.tellers[i].Answered? :: Looks(jobs, s, stretch, ATeller(i)))
  }

  /** The same postings, servings and answers. */
  ghost predicate SameProgress(s: State, s': State) {
    && |s'.tellers| == |s.tellers| && s'.serverRead == s.serverRead && s'.served == s.served
    && s'.slot == s.slot && s'.responses == s.responses
    && forall i | 0 <= i < |s.tellers| :: Posted(s'.tellers[i]) == Posted(s.tellers[i])
  }

  lemma IdleTeller(jobs: seq<Ledger.Transaction>, s: State, i: nat)
    requires |s.tellers| == |s.responses| == |jobs| && i < |jobs| && !Useful(s, TellerStep(jobs, s, i))
    ensures SameProgress(s, TellerStep(jobs, s, i))
  {
    var s' := TellerStep(jobs, s, i);
    assert s'.tellers == s.tellers[i := s'.tellers[i]];
    assert !Answers(s, s', i);
    assert Posted(s'.tellers[i]) == Posted(s.tellers[i]);
  }

  lemma IdleStep(jobs: seq<Ledger.Transaction>, s: State, actor: Actor)
    requires |s.tellers| == |s.responses| == |jobs| && !Useful(s, Step(jobs, s, actor))
    ensures SameProgress(s, Step(jobs, s, actor))
  {
    match actor {
      case TheServer =>
      case ATeller(i) => if i < |jobs| { IdleTeller(jobs, s, i); }
    }
  }

  lemma ExecuteLast(jobs: seq<Ledger.Transaction>, s: State, stretch: seq<Actor>, k: nat)
    requires |s.tellers| == |s.responses| == |jobs| && k < |stretch|
    ensures Execute(jobs, s, stretch[..k + 1]) == Step(jobs, Execute(jobs, s, stretch[..k]), stretch[k])
  {
    assert stretch[..k + 1][..k] == stretch[..k];
  }

  /** Work never grows along a run. */
  lemma {:induction false} WorkAlong(
    jobs: seq<Ledger.Transaction>, db0: seq<Ledger.Client>, s: State, stretch: seq<Actor>, k: nat)
    requires Inv(jobs, db0, s) && k <= |stretch|
    ensures Work(Execute(jobs, s, stretch)) <= Work(Execute(jobs, s, stretch[..k]))
    decreases |stretch| - k
  {
    if k == |stretch| {
      assert stretch[..k] == stretch;
    } else {
      WorkAlong(jobs, db0, s, stretch, k + 1);
      ExecuteLast(jobs, s, stretch, k);
      ExecuteKeepsInv(jobs, db0, s, stretch[..k]);
      WorkNeverGrows(jobs, db0, Execute(jobs, s, stretch[..k]), stretch[k]);
    }
  }

  lemma WorkFalls(jobs: seq<Ledger.Transaction>, db0: seq<Ledger.Client>, s: State, stretch: seq<Actor>)
    requires Inv(jobs, db0, s)
    ensures Work(Execute(jobs, s, stretch)) <= Work(s)
  {
    WorkAlong(jobs, db0, s, stretch, 0);
    assert stretch[..0] == [];
  }

  /** As long as the work does not fall, no step is useful and nothing that counts changes. */
  lemma {:induction false} NothingHappens(
    jobs: seq<Ledger.Transaction>, db0: seq<Ledger.Client>, s: State, stretch: seq<Actor>, k: nat)
    requires Inv(jobs, db0, s) && k <= |stretch| && Work(Execute(jobs, s, stretch)) == Work(s)
    ensures var t := Execute(jobs, s, stretch[..k]);
            && Inv(jobs, db0, t) && SameProgress(s, t) && Work(t) == Work(s)
            && (k < |stretch| ==> !Useful(t, Step(jobs, t, stretch[k])))
  {
    ExecuteKeepsInv(jobs, db0, s, stretch[..k]);
    if k == 0 {
      assert stretch[..0] == [];
    } else {
      NothingHappens(jobs, db0, s, stretch, k - 1);
      ExecuteLast(jobs, s, stretch, k - 1);
      var before := Execute(jobs, s, stretch[..k - 1]);
      IdleStep(jobs, before, stretch[k - 1]);
      WorkNeverGrows(jobs, db0, before, stretch[k - 1]);
    }
    if k < |stretch| {
      var t := Execute(jobs, s, stretch[..k]);
      ExecuteLast(jobs, s, stretch, k);
      WorkAlong(jobs, db0, s, stretch, k + 1);
      WorkNeverGrows(jobs, db0, t, stretch[k]);
    }
  }

  /** What the server and the tellers look for. */
  predicate Needed(s: State, actor: Actor) {
    match actor
    case TheServer => !s.serverRead
    case ATeller(_) => s.serverRead
  }

  /** A look is useful: the server at a full slot, a teller at an empty one, or at an answer. */
  lemma LookIsUseful(jobs: seq<Ledger.Transaction>, db0: seq<Ledger.Client>, s: State, actor: Actor)
    requires Inv(jobs, db0, s) && AtLook(s, actor)
    requires Needed(s, actor)
    ensures Useful(s, Step(jobs, s, actor))
  {
    match actor {
      case TheServer =>
      case ATeller(i) =>
        if s.tellers[i].Polling? {
          assert Posted(s.tellers[i]) && i in s.served;
          assert Answers(s, TellerStep(jobs, s, i), i);
        }
    }
  }

  lemma NoWorkLeft(jobs: seq<Ledger.Transaction>, db0: seq<Ledger.Client>, s: State)
    requires Inv(jobs, db0, s) && s.serverRead && forall i | 0 <= i < |jobs| :: s.tellers[i].Answered?
    ensures Work(s) == 0
  {
    forall i: nat | i < |jobs| ensures i in s.served { assert Posted(s.tellers[i]); }
    Covered(s.served, |jobs|);
    Pigeonhole(s.served, |jobs|);
    SumZero(Weights(s.tellers));
  }

  /** While there is work left, the server is needed if the slot is full, and a teller if it is empty. */
  lemma WhoMustLook(jobs: seq<Ledger.Transaction>, db0: seq<Ledger.Client>, s: State) returns (actor: Actor)
    requires Inv(jobs, db0, s) && Work(s) != 0
    ensures Needed(s, actor)
    ensures match actor
            case TheServer => |s.served| < |jobs|
            case ATeller(i) => i < |jobs| && !s.tellers[i].Answered?
  {
    if !s.serverRead {
      actor := TheServer;
      Pigeonhole(s.served + [s.slot.tellerId], |jobs|);
    } else if i: nat :| i < |jobs| && !s.tellers[i].Answered? {
      actor := ATeller(i);
    } else {
      NoWorkLeft(jobs, db0, s);
      assert false;
    }
  }

  /** A look by an actor that is needed makes the work fall somewhere in the stretch. */
  lemma LookWorks(
    jobs: seq<Ledger.Transaction>, db0: seq<Ledger.Client>, s: State, stretch: seq<Actor>, k: nat, actor: Actor)
    requires Inv(jobs, db0, s) && Needed(s, actor) && LooksAt(jobs, s, stretch, k, actor)
    ensures Work(Execute(jobs, s, stretch)) != Work(s)
  {
    if Work(Execute(jobs, s, stretch)) == Work(s) {
      NothingHappens(jobs, db0, s, stretch, k);
      LookIsUseful(jobs, db0, Execute(jobs, s, stretch[..k]), actor);
      assert false;
    }
  }

  lemma SomeoneLooks(jobs: seq<Ledger.Transaction>, db0: seq<Ledger.Client>, s: State, stretch: seq<Actor>)
    returns (actor: Actor, k: nat)
    requires Inv(jobs, db0, s) && Round(jobs, s, stretch) && Work(s) != 0
    ensures Needed(s, actor) && LooksAt(jobs, s, stretch, k, actor)
  {
    actor := WhoMustLook(jobs, db0, s);
    assert Looks(jobs, s, stretch, actor);
    k :| LooksAt(jobs, s, stretch, k, actor);
  }

  /** Nobody can look once without the work falling, unless there is none left. */
  lemma RoundWorks(jobs: seq<Ledger.Transaction>, db0: seq<Ledger.Client>, s: State, stretch: seq<Actor>)
    requires Inv(jobs, db0, s) && Round(jobs, s, stretch)
    ensures Work(Execute(jobs, s, stretch)) < Work(s) || Work(s) == Work(Execute(jobs, s, stretch)) == 0
  {
    WorkFalls(jobs, db0, s, stretch);
    if Work(s) == 0 {
      ExecuteKeepsInv(jobs, db0, s, stretch);
      WorkNonNegative(jobs, db0, Execute(jobs, s, stretch));
    } else {
      var actor, k := SomeoneLooks(jobs, db0, s, stretch);
      LookWorks(jobs, db0, s, stretch, k, actor);
    }
  }

  /** A run made of rounds, one after the other. */
  ghost predicate Rounds(jobs: seq<Ledger.Transaction>, s: State, rounds: seq<seq<Actor>>)
    requires |s.tellers| == |s.responses| == |jobs|
    decreases |rounds|
  {
    rounds == [] || (Round(jobs, s, rounds[0]) && Rounds(jobs, Execute(jobs, s, rounds[0]), rounds[1..]))
  }

  function After(jobs: seq<Ledger.Transaction>, s: State, rounds: seq<seq<Actor>>): (r: State)
    requires |s.tellers| == |s.responses| == |jobs|
    ensures |r.tellers| == |r.responses| == |jobs|
    decreases |rounds|
  {
    if rounds == [] then s else After(jobs, Execute(jobs, s, rounds[0]), rounds[1..])
  }

  lemma {:induction false} RoundsWork(
    jobs: seq<Ledger.Transaction>, db0: seq<Ledger.Client>, s: State, rounds: seq<seq<Actor>>)
    requires Inv(jobs, db0, s) && Rounds(jobs, s, rounds)
    ensures Inv(jobs, db0, After(jobs, s, rounds))
    ensures Work(After(jobs, s, rounds)) <= if |rounds| <= Work(s) then Work(s) - |rounds| else 0
    decreases |rounds|
  {
    if rounds == [] {
      WorkNonNegative(jobs, db0, s);
    } else {
      var s1 := Execute(jobs, s, rounds[0]);
      RoundWorks(jobs, db0, s, rounds[0]);
      ExecuteKeepsInv(jobs, db0, s, rounds[0]);
      WorkNonNegative(jobs, db0, s1);
      RoundsWork(jobs, db0, s1, rounds[1..]);
    }
  }

  lemma WorkAtOpening(m: Memory, n: nat)
    ensures Work(Open(m, n)) <= 3 * n
  {
    SumBound(Weights(Open(m, n).tellers), 2);
  }

  lemma WorkDone(jobs: seq<Ledger.Transaction>, db0: seq<Ledger.Client>, s: State)
    requires Inv(jobs, db0, s) && Work(s) <= 0
    ensures IsOrder(s.served, |jobs|) && forall i | 0 <= i < |jobs| :: s.tellers[i].Answered?
  {
    Pigeonhole(s.served, |jobs|);
    forall i: nat | i < |jobs| ensures s.tellers[i].Answered? {
      SumUpdate(Weights(s.tellers), i, 0);
      assert Weights(s.tellers)[i] == Weight(s.tellers[i]);
    }
  }

  /** A bound on the whole batch: however the steps are interleaved, after three rounds for each teller
      all of them have been served and have their answers. */
  lemma {:induction false} ThreeRoundsEach(jobs: seq<Ledger.Transaction>, m: Memory, rounds: seq<seq<Actor>>)
    requires Ready(m) && Rounds(jobs, Open(m, |jobs|), rounds) && |rounds| >= 3 * |jobs|
    ensures var s := After(jobs, Open(m, |jobs|), rounds);
            IsOrder(s.served, |jobs|) && forall i | 0 <= i < |jobs| :: s.tellers[i].Answered?
  {
    OpenInv(jobs, m);
    WorkAtOpening(m, |jobs|);
    RoundsWork(jobs, m.db, Open(m, |jobs|), rounds);
    WorkDone(jobs, m.db, After(jobs, Open(m, |jobs|), rounds));
  }
}
