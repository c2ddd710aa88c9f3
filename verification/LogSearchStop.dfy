/** After a stop the log search only runs down. */
module LogSearchStop {
  import Buffer
  import opened LogSearch
  import LogSearchDeadlock
  import LogSearchProof

  /** Everything that was ever in the buffer. */
  function Entered(s: State): seq<string> {
    Lines(s.delivered) + s.queue.lines
  }

  /** The stop stays, the manager hands nothing over any more, and nothing gets into the buffer. */
  ghost predicate RunsDown(s: State, s': State) {
    s'.stop && s'.handed == s.handed && Entered(s') == Entered(s)
  }

  lemma WorkerRunsDown(job: Job, s: State, i: nat)
    requires Shaped(job, s) && s.stop && Enabled(job, s, AWorker(i))
    ensures RunsDown(s, WorkerStep(job, s, i))
  {
    if s.workers[i].Getting? && s.queue.lines != [] {
      var q, d := s.queue.lines, Delivery(i, s.queue.lines[0]);
      assert Lines(s.delivered + [d]) == Lines(s.delivered) + [q[0]];
      assert Lines(s.delivered) + [q[0]] + q[1..] == Lines(s.delivered) + q;
    }
  }

  lemma StepRunsDown(job: Job, s: State, actor: Actor)
    requires Inv(job, s) && s.stop
    ensures Shaped(job, Step(job, s, actor)) && RunsDown(s, Step(job, s, actor))
  {
    if Enabled(job, s, actor) {
      match actor {
        case AWorker(i) => WorkerRunsDown(job, s, i);
        case TheManager => if s.manager.Adding? { Buffer.AddOutcomes(s.queue, s.manager.line, true); }
        case _ =>
      }
    }
  }

  /** Once the stop flag is set, whatever happens: no further line is handed over, and none gets into
      the buffer; the lines in it can only be delivered, or be freed at the end. */
  lemma {:induction false} NothingEntersAfterStop(job: Job, schedule: seq<Actor>, more: seq<Actor>)
    ensures var s := Execute(job, schedule); s.stop ==> RunsDown(s, Execute(job, schedule + more))
    decreases |more|
  {
    if more == [] {
      assert schedule + more == schedule;
    } else {
      var before := more[..|more| - 1];
      NothingEntersAfterStop(job, schedule, before);
      LogSearchDeadlock.NextOf(job, schedule, more);
      LogSearchProof.ExecuteKeeps(job, schedule + before);
      if Execute(job, schedule).stop { StepRunsDown(job, Execute(job, schedule + before), more[|more| - 1]); }
    }
  }
}
