/** The one deadlock of the log search: which failures to create a worker lead to it. */
module LogSearchDeadlock {
  import opened LogSearch
  import LogSearchProof
  import opened LogSearchResults

  // ----- going on from a state -----

  lemma Next(job: Job, schedule: seq<Actor>, actor: Actor)
    ensures Execute(job, schedule + [actor]) == Step(job, Execute(job, schedule), actor)
  {
    assert (schedule + [actor])[..|schedule|] == schedule;
  }

  ghost predicate NoSpurious(more: seq<Actor>) {
    forall k | 0 <= k < |more| :: !IsSpurious(more[k])
  }

  /** However the run goes on, short of a spurious wake-up, it is never over. */
  ghost predicate NeverEnds(job: Job, schedule: seq<Actor>) {
    forall more | NoSpurious(more) :: !AllExited(job, Execute(job, schedule + more))
  }

  lemma NextOf(job: Job, schedule: seq<Actor>, more: seq<Actor>)
    requires more != []
    ensures Execute(job, schedule + more) == Step(job, Execute(job, schedule + more[..|more| - 1]), more[|more| - 1])
  {
    assert (schedule + more)[..|schedule + more| - 1] == schedule + more[..|more| - 1];
  }

  // ----- beyond rescue -----

  /** The manager is asleep, and nobody left will take a line: with the stop flag set, a worker that
      is not in the buffer's code already leaves before it gets there. */
  ghost predicate Doomed(job: Job, s: State)
    requires Shaped(job, s)
  {
    && s.stop && s.manager.Blocked? && !s.signal.FlagSet?
    && forall i | 0 <= i < job.workers :: !s.workers[i].Getting? && !s.workers[i].Sleeping?
  }

  lemma DoomedStays(job: Job, s: State, actor: Actor)
    requires Shaped(job, s) && Doomed(job, s) && !IsSpurious(actor)
    ensures Doomed(job, Step(job, s, actor))
  {
  }

  lemma {:induction false} DoomedForEver(job: Job, schedule: seq<Actor>, more: seq<Actor>)
    requires Doomed(job, Execute(job, schedule)) && NoSpurious(more)
    ensures Doomed(job, Execute(job, schedule + more))
    decreases |more|
  {
    if more == [] {
      assert schedule + more == schedule;
    } else {
      var before := more[..|more| - 1];
      NextOf(job, schedule, more);
      DoomedForEver(job, schedule, before);
      DoomedStays(job, Execute(job, schedule + before), more[|more| - 1]);
    }
  }

  // ----- certain of rescue -----

  /** If the manager is asleep, a stop request is about to wake it, or a worker is about to take a line. */
  ghost predicate Saved(job: Job, s: State)
    requires Shaped(job, s)
  {
    s.stop && (s.manager.Blocked? ==> s.signal.FlagSet? || exists i :: 0 <= i < job.workers && s.workers[i].Getting?)
  }

  lemma WorkerKeepsSaved(job: Job, s: State, i: nat)
    requires Inv(job, s) && job.capacity > 0 && Saved(job, s) && Enabled(job, s, AWorker(i))
    ensures Shaped(job, WorkerStep(job, s, i)) && Saved(job, WorkerStep(job, s, i))
  {
    var s' := WorkerStep(job, s, i);
    if s.manager.Blocked? && !s.workers[i].Getting? && !s.signal.FlagSet? {
      var j :| 0 <= j < job.workers && s.workers[j].Getting?;
      assert s'.workers[j].Getting?;
    }
  }

  lemma SavedStays(job: Job, s: State, actor: Actor)
    requires Inv(job, s) && job.capacity > 0 && Saved(job, s) && !IsSpurious(actor)
    ensures Shaped(job, Step(job, s, actor)) && Saved(job, Step(job, s, actor))
  {
    if Enabled(job, s, actor) {
      var s' := Step(job, s, actor);
      if actor.AWorker? {
        WorkerKeepsSaved(job, s, actor.i);
      } else if s'.manager.Blocked? && !s.signal.FlagSet? {
        var j :| 0 <= j < job.workers && s.workers[j].Getting?;
        assert Lives(job, s) && s'.workers[j].Getting?;
      }
    }
  }

  lemma {:induction false} SavedForEver(job: Job, schedule: seq<Actor>, more: seq<Actor>)
    requires job.capacity > 0 && Saved(job, Execute(job, schedule)) && NoSpurious(more)
    ensures Saved(job, Execute(job, schedule + more))
    decreases |more|
  {
    if more == [] {
      assert schedule + more == schedule;
    } else {
      var before := more[..|more| - 1];
      NextOf(job, schedule, more);
      SavedForEver(job, schedule, before);
      LogSearchProof.ExecuteKeeps(job, schedule + before);
      SavedStays(job, Execute(job, schedule + before), more[|more| - 1]);
    }
  }

  /** A saved run cannot stand still before it is over. */
  lemma SavedIsNotStuck(job: Job, schedule: seq<Actor>)
    requires job.capacity > 0 && job.workers > 0 && Saved(job, Execute(job, schedule))
    ensures var s := Execute(job, schedule); Stuck(job, s) ==> AllExited(job, s)
  {
    var s := Execute(job, schedule);
    StuckIff(job, schedule);
    LogSearchProof.ExecuteKeeps(job, schedule);
    assert Lives(job, s);
  }

  lemma SavedGoesOn(job: Job, schedule: seq<Actor>) returns (actor: Actor)
    requires job.capacity > 0 && Saved(job, Execute(job, schedule)) && !Stuck(job, Execute(job, schedule))
    ensures !IsSpurious(actor) && Saved(job, Execute(job, schedule + [actor]))
    ensures Measure(job, Execute(job, schedule + [actor])) < Measure(job, Execute(job, schedule))
  {
    var s := Execute(job, schedule);
    actor :| OwnStep(actor) && Enabled(job, s, actor);
    LogSearchProof.ExecuteKeeps(job, schedule);
    MeasureDecreases(job, s, actor);
    SavedStays(job, s, actor);
    Next(job, schedule, actor);
  }

  /** And so it can be brought to its end. */
  lemma {:induction false} SavedCanEnd(job: Job, schedule: seq<Actor>) returns (more: seq<Actor>)
    requires job.capacity > 0 && job.workers > 0 && Saved(job, Execute(job, schedule))
    ensures NoSpurious(more) && AllExited(job, Execute(job, schedule + more))
    decreases Measure(job, Execute(job, schedule))
  {
    if Stuck(job, Execute(job, schedule)) {
      SavedIsNotStuck(job, schedule);
      more := [];
      assert schedule + more == schedule;
    } else {
      var actor := SavedGoesOn(job, schedule);
      var rest := SavedCanEnd(job, schedule + [actor]);
      more := [actor] + rest;
      assert schedule + more == schedule + [actor] + rest;
    }
  }

  // ----- the branch -----

  /** The manager is asleep on the full buffer, no stop has been asked for, and no worker is about to
      take a line. */
  ghost predicate Strands(job: Job, s: State)
    requires Shaped(job, s)
  {
    s.manager.Blocked? && !s.stop && forall i | 0 <= i < job.workers :: !s.workers[i].Getting?
  }

  lemma DoomedOrSaved(job: Job, s: State)
    requires Inv(job, s) && job.capacity > 0 && Enabled(job, s, SpawnFails)
    ensures if Strands(job, s) then Doomed(job, Step(job, s, SpawnFails)) else Saved(job, Step(job, s, SpawnFails))
  {
    assert s.manager.Blocked? && s.stop ==> s.signal.FlagSet?;
  }

  /** When a worker cannot be created, for any buffer, any number of workers and whatever has happened
      before: the run can never end, short of a spurious wake-up, if and only if at that moment the
      manager is blocked, no stop has been asked for and no worker is inside the buffer's code. */
  lemma StrandsIff(job: Job, schedule: seq<Actor>)
    requires job.capacity > 0 && Enabled(job, Execute(job, schedule), SpawnFails)
    ensures NeverEnds(job, schedule + [SpawnFails]) <==> Strands(job, Execute(job, schedule))
  {
    var failed := schedule + [SpawnFails];
    LogSearchProof.ExecuteKeeps(job, schedule);
    DoomedOrSaved(job, Execute(job, schedule));
    Next(job, schedule, SpawnFails);
    if Strands(job, Execute(job, schedule)) {
      forall more | NoSpurious(more) ensures !AllExited(job, Execute(job, failed + more)) {
        DoomedForEver(job, failed, more);
      }
    } else {
      var more := SavedCanEnd(job, failed);
      assert !NeverEnds(job, failed);
    }
  }

  /** In the other case it does end: wherever the run goes, it does not stand still before all threads
      that exist have left, and by `RunsEnd` it cannot go on for ever. */
  lemma OtherwiseEnds(job: Job, schedule: seq<Actor>, more: seq<Actor>)
    requires job.capacity > 0 && Enabled(job, Execute(job, schedule), SpawnFails) && NoSpurious(more)
    requires !Strands(job, Execute(job, schedule))
    ensures var s := Execute(job, schedule + [SpawnFails] + more); Stuck(job, s) ==> AllExited(job, s)
  {
    LogSearchProof.ExecuteKeeps(job, schedule);
    DoomedOrSaved(job, Execute(job, schedule));
    Next(job, schedule, SpawnFails);
    SavedForEver(job, schedule + [SpawnFails], more);
    SavedIsNotStuck(job, schedule + [SpawnFails] + more);
  }

  // ----- the deadlock is real -----

  ghost predicate Waiting(s: State) {
    s.manager.Deciding? && !s.stop && !s.queue.managerDone && s.unread != []
  }

  /** Four steps of the manager read a line and put it in the buffer, or block on it. */
  ghost predicate OneLineOn(s: State, s': State)
    requires Waiting(s)
  {
    && s'.unread == s.unread[1..] && s'.stop == s.stop && s'.queue.managerDone == s.queue.managerDone
    && s'.spawned == s.spawned && s'.failure == s.failure && s'.signal == s.signal
    && s'.queue.capacity == s.queue.capacity
    && if |s.queue.lines| == s.queue.capacity then s'.manager.Blocked? && s'.queue == s.queue
       else s'.manager.Deciding? && |s'.queue.lines| == |s.queue.lines| + 1
  }

  lemma FourSteps(s: State)
    requires Waiting(s)
    ensures OneLineOn(s, ManagerStep(ManagerStep(ManagerStep(ManagerStep(s)))))
  {
    var s2 := ManagerStep(ManagerStep(s));
    assert s2 == s.(manager := Read(s.unread[0]), unread := s.unread[1..]);
    var s3 := ManagerStep(s2);
    assert s3 == s2.(manager := Adding(s.unread[0]), handed := s2.handed + [s.unread[0]]);
  }

  lemma NextManager(job: Job, schedule: seq<Actor>)
    ensures Execute(job, schedule + [TheManager]) == ManagerStep(Execute(job, schedule))
  {
    Next(job, schedule, TheManager);
  }

  lemma OneLine(job: Job, schedule: seq<Actor>) returns (longer: seq<Actor>)
    requires Waiting(Execute(job, schedule))
    ensures OneLineOn(Execute(job, schedule), Execute(job, longer))
  {
    var m := [TheManager];
    longer := schedule + m + m + m + m;
    NextManager(job, schedule);
    NextManager(job, schedule + m);
    NextManager(job, schedule + m + m);
    NextManager(job, schedule + m + m + m);
    FourSteps(Execute(job, schedule));
  }

  lemma BlockedBeforeAnyWorker() returns (job: Job, schedule: seq<Actor>)
    ensures job.capacity > 0 && job.workers > 0
    ensures var s := Execute(job, schedule);
            s.manager.Blocked? && s.spawned == 0 && s.failure.Quiet? && s.signal.Quiet?
  {
    job := Job(["a", "b"], 1, 1, "a");
    var once := OneLine(job, []);
    schedule := OneLine(job, once);
  }

  /** Two lines, room for one, and no worker can be created: the manager is never woken. */
  lemma FailedCreationStrands()
    ensures exists job: Job, schedule: seq<Actor> ::
              && job.capacity > 0 && job.workers > 0
              && Stuck(job, Execute(job, schedule)) && !AllExited(job, Execute(job, schedule))
  {
    var job, blocked := BlockedBeforeAnyWorker();
    Next(job, blocked, SpawnFails);
    Next(job, blocked + [SpawnFails], FailureNotifies);
    var schedule := blocked + [SpawnFails] + [FailureNotifies];
    assert Stranded(job, Execute(job, schedule));
    StuckIff(job, schedule);
  }
}
