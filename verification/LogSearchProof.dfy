/** Every step of the log search keeps its invariant. */
module LogSearchProof {
  import opened LogSearch

  lemma StartInv(job: Job)
    ensures Inv(job, Start(job))
  {
  }

  // ----- the manager -----

  // How lines move from one place to the next, as equations between sequences.

  lemma Fetch<T>(h: seq<T>, u: seq<T>)
    requires u != []
    ensures h + ([] + ([] + u)) == h + ([u[0]] + ([] + u[1..]))
  {
  }

  lemma HandOver<T>(h: seq<T>, x: T, u: seq<T>, d: seq<T>, q: seq<T>)
    ensures h + ([x] + ([] + u)) == (h + [x]) + ([] + ([] + u))
    ensures (d + (q + ([] + []))) + [x] == d + (q + ([x] + []))
  {
  }

  lemma Skip<T>(h: seq<T>, x: T, u: seq<T>)
    ensures h + ([x] + ([] + u)) == h + ([] + ([x] + u))
  {
  }

  lemma Settle<T>(d: seq<T>, q: seq<T>, x: T)
    ensures d + (q + ([x] + [])) == d + ((q + [x]) + ([] + []))
    ensures d + (q + ([x] + [])) == d + (q + ([] + [x]))
  {
  }

  lemma Grab<T>(d: seq<T>, q: seq<T>, m: seq<T>)
    requires q != []
    ensures d + (q + m) == (d + [q[0]]) + (q[1..] + m)
  {
  }

  lemma ReadingConserves(job: Job, s: State)
    requires Shaped(job, s) && Conserved(job, s) && Flags(job, s) && s.manager.Reading?
    ensures Conserved(job, ManagerStep(s))
  {
    assert s.skipped == [];
    if s.unread != [] { Fetch(s.handed, s.unread); }
  }

  lemma ReadConserves(job: Job, s: State)
    requires Shaped(job, s) && Conserved(job, s) && Flags(job, s) && s.manager.Read?
    ensures Conserved(job, ManagerStep(s))
  {
    assert s.skipped == [] && s.dropped == [];
    if s.stop {
      Skip(s.handed, s.manager.line, s.unread);
    } else {
      HandOver(s.handed, s.manager.line, s.unread, Lines(s.delivered), s.queue.lines);
    }
  }

  lemma AddingConserves(job: Job, s: State)
    requires Shaped(job, s) && Conserved(job, s) && Flags(job, s) && s.manager.Adding?
    ensures Conserved(job, ManagerStep(s))
  {
    assert s.dropped == [];
    Settle(Lines(s.delivered), s.queue.lines, s.manager.line);
    assert [] + [s.manager.line] == [s.manager.line];
  }

  lemma ManagerConserves(job: Job, s: State)
    requires Shaped(job, s) && Conserved(job, s) && Flags(job, s)
    ensures Conserved(job, ManagerStep(s))
  {
    match s.manager {
      case Reading => ReadingConserves(job, s);
      case Read(_) => ReadConserves(job, s);
      case Adding(_) => AddingConserves(job, s);
      case _ =>
    }
  }

  lemma ManagerKeeps(job: Job, s: State)
    requires Inv(job, s) && Enabled(job, s, TheManager)
    ensures Inv(job, ManagerStep(s))
  {
    ManagerConserves(job, s);
    ManagerFlags(job, s);
    ManagerWakes(job, s);
    ManagerLives(job, s);
  }

  lemma ManagerFlags(job: Job, s: State)
    requires Shaped(job, s) && Flags(job, s) && Enabled(job, s, TheManager)
    ensures Shaped(job, ManagerStep(s)) && Flags(job, ManagerStep(s))
  {
  }

  lemma ManagerWakes(job: Job, s: State)
    requires Shaped(job, s) && Flags(job, s) && NoLostWakeup(job, s) && Enabled(job, s, TheManager)
    requires |s.queue.lines| <= s.queue.capacity == job.capacity
    ensures Shaped(job, ManagerStep(s)) && NoLostWakeup(job, ManagerStep(s))
  {
  }

  lemma ManagerLives(job: Job, s: State)
    requires Shaped(job, s) && Flags(job, s) && Lives(job, s) && Counted(job, s) && Enabled(job, s, TheManager)
    ensures Shaped(job, ManagerStep(s)) && Lives(job, ManagerStep(s)) && Counted(job, ManagerStep(s))
  {
  }

  // ----- a worker -----

  lemma MatchingSnoc(ds: seq<Delivery>, d: Delivery, term: string, i: nat)
    ensures Matching(ds + [d], term, i) == Matching(ds, term, i) + if d.worker == i then Hit(term, d.line) else 0
  {
    assert (ds + [d])[..|ds|] == ds;
  }

  lemma DeliveryConserves(job: Job, s: State, i: nat)
    requires Shaped(job, s) && Conserved(job, s) && i < job.workers && s.workers[i].Getting? && s.queue.lines != []
    ensures Conserved(job, WorkerStep(job, s, i))
  {
    var q, d := s.queue.lines, Delivery(i, s.queue.lines[0]);
    assert Lines(s.delivered + [d]) == Lines(s.delivered) + [q[0]];
    Grab(Lines(s.delivered), q, InHand(s.manager) + s.dropped);
    assert InHand(Wake(s.manager)) == InHand(s.manager);
  }

  lemma WorkerCounts(job: Job, s: State, i: nat)
    requires Shaped(job, s) && Counted(job, s) && i < job.workers
    ensures Counted(job, WorkerStep(job, s, i))
  {
    var s' := WorkerStep(job, s, i);
    if s.workers[i].Getting? && s.queue.lines != [] {
      forall j: nat | j < job.workers
        ensures Matching(s'.delivered, job.term, j) == s'.counts[j] + Scanned(s'.workers[j], job.term)
      {
        MatchingSnoc(s.delivered, Delivery(i, s.queue.lines[0]), job.term, j);
      }
    }
  }

  lemma WorkerKeepsRest(job: Job, s: State, i: nat)
    requires Shaped(job, s) && Flags(job, s) && NoLostWakeup(job, s) && Lives(job, s)
    requires Enabled(job, s, AWorker(i))
    ensures var s' := WorkerStep(job, s, i);
            Shaped(job, s') && Flags(job, s') && NoLostWakeup(job, s') && Lives(job, s')
  {
  }

  /** Without a delivery, no line moves and the manager stays where it is. */
  lemma IdleWorkerConserves(job: Job, s: State, i: nat)
    requires Shaped(job, s) && Conserved(job, s) && i < job.workers
    requires !(s.workers[i].Getting? && s.queue.lines != [])
    ensures Conserved(job, WorkerStep(job, s, i))
  {
  }

  lemma WorkerKeeps(job: Job, s: State, i: nat)
    requires Inv(job, s) && Enabled(job, s, AWorker(i))
    ensures Inv(job, WorkerStep(job, s, i))
  {
    WorkerCounts(job, s, i);
    WorkerKeepsRest(job, s, i);
    if s.workers[i].Getting? && s.queue.lines != [] {
      DeliveryConserves(job, s, i);
    } else {
      IdleWorkerConserves(job, s, i);
    }
  }

  // ----- everybody -----

  lemma MainKeeps(job: Job, s: State, actor: Actor)
    requires Inv(job, s) && Enabled(job, s, actor) && (actor.Spawn? || actor.SpawnFails? || actor.FailureNotifies?)
    ensures Inv(job, Step(job, s, actor))
  {
  }

  lemma OutsideKeeps(job: Job, s: State, actor: Actor)
    requires Inv(job, s) && Enabled(job, s, actor)
    requires actor.Interrupt? || actor.InterruptNotifies? || actor.SpuriousManager? || actor.SpuriousWorker?
    ensures Inv(job, Step(job, s, actor))
  {
  }

  lemma StepKeeps(job: Job, s: State, actor: Actor)
    requires Inv(job, s)
    ensures Inv(job, Step(job, s, actor))
  {
    if Enabled(job, s, actor) {
      match actor {
        case TheManager => ManagerKeeps(job, s);
        case AWorker(i) => WorkerKeeps(job, s, i);
        case Spawn => MainKeeps(job, s, actor);
        case SpawnFails => MainKeeps(job, s, actor);
        case FailureNotifies => MainKeeps(job, s, actor);
        case _ => OutsideKeeps(job, s, actor);
      }
    }
  }

  lemma {:induction false} ExecuteKeeps(job: Job, schedule: seq<Actor>)
    ensures Inv(job, Execute(job, schedule))
  {
    if schedule == [] {
      StartInv(job);
    } else {
      ExecuteKeeps(job, schedule[..|schedule| - 1]);
      StepKeeps(job, Execute(job, schedule[..|schedule| - 1]), schedule[|schedule| - 1]);
    }
  }
}
