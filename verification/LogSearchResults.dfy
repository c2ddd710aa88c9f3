/** What the log search guarantees over whole runs. */
module LogSearchResults {
  import CStrings
  import opened LogSearch
  import LogSearchProof
  import opened Sums

  function Hits(term: string, lines: seq<string>): nat {
    if lines == [] then 0 else Hits(term, lines[..|lines| - 1]) + Hit(term, lines[|lines| - 1])
  }

  /** The places of the lines in which the term stands somewhere. */
  ghost function MatchingLines(term: string, lines: seq<string>): set<nat> {
    set k: nat | k < |lines| && CStrings.Occurs(term, lines[k])
  }

  lemma MatchingSnoc(term: string, lines: seq<string>)
    requires lines != []
    ensures var n := |lines| - 1;
            MatchingLines(term, lines) ==
            MatchingLines(term, lines[..n]) + if CStrings.Occurs(term, lines[n]) then {n} else {}
  {
  }

  lemma {:induction false} HitsAre(term: string, lines: seq<string>)
    ensures Hits(term, lines) == |MatchingLines(term, lines)|
  {
    if lines != [] {
      var before, n := lines[..|lines| - 1], |lines| - 1;
      HitsAre(term, before);
      CStrings.ContainsIff(lines[n], term);
      MatchingSnoc(term, lines);
    }
  }

  function PerWorker(ds: seq<Delivery>, term: string, n: nat): seq<nat> {
    seq(n, i requires 0 <= i < n => Matching(ds, term, i))
  }

  /** Counting per worker and adding up is counting over all lines. */
  lemma {:induction false} AddUp(ds: seq<Delivery>, term: string, n: nat)
    requires forall k | 0 <= k < |ds| :: ds[k].worker < n
    ensures Sum(PerWorker(ds, term, n)) == Hits(term, Lines(ds))
  {
    if ds == [] {
      SumZero(PerWorker(ds, term, n));
    } else {
      var before, d := ds[..|ds| - 1], ds[|ds| - 1];
      AddUp(before, term, n);
      var counts := PerWorker(before, term, n);
      SumUpdate(counts, d.worker, counts[d.worker] + Hit(term, d.line));
      assert PerWorker(ds, term, n) == counts[d.worker := counts[d.worker] + Hit(term, d.line)];
      assert Lines(ds)[..|ds| - 1] == Lines(before);
    }
  }

  ghost predicate AllExited(job: Job, s: State)
    requires Shaped(job, s)
  {
    s.manager.Finished? && forall i | 0 <= i < s.spawned :: s.workers[i].Exited?
  }

  lemma ConcatEmpty<T>(a: seq<T>)
    ensures a + ([] + ([] + [])) == a && a + ([] + []) == a
  {
  }

  /** Lossless search: in any run without a stop, for any buffer size, number of workers and
      interleaving, when everybody has left, the deliveries are the input, line by line, each to
      one worker, and the reported matches add up to the lines that contain the term. */
  lemma Lossless(job: Job, schedule: seq<Actor>)
    requires job.workers > 0
    ensures var s := Execute(job, schedule);
            !s.stop && s.spawned == job.workers && AllExited(job, s) ==>
              && Lines(s.delivered) == job.input
              && (forall k | 0 <= k < |job.input| :: s.delivered[k].worker < job.workers)
              && (forall i | 0 <= i < job.workers :: s.matches[i] == Matching(s.delivered, job.term, i))
              && Sum(s.matches) == Hits(job.term, job.input) == |MatchingLines(job.term, job.input)|
  {
    var s := Execute(job, schedule);
    LogSearchProof.ExecuteKeeps(job, schedule);
    if !s.stop && s.spawned == job.workers && AllExited(job, s) {
      assert s.workers[0].Exited?;
      assert s.unread == [] && s.skipped == [] && s.dropped == [] && s.queue.lines == [];
      ConcatEmpty(s.handed);
      ConcatEmpty(Lines(s.delivered));
      AddUp(s.delivered, job.term, job.workers);
      assert s.matches == PerWorker(s.delivered, job.term, job.workers);
      HitsAre(job.term, job.input);
    }
  }

  /** Conservation with a stop at any moment: what was handed to the buffer is, in order, what was
      delivered, then what destroying the buffer frees, then at most one line that was turned away
      (or is still held by the blocked manager). */
  lemma ConservedUnderStop(job: Job, schedule: seq<Actor>)
    ensures var s := Execute(job, schedule);
            var tail := InHand(s.manager) + s.dropped;
            && s.handed == Lines(s.delivered) + (s.queue.lines + tail)
            && |tail| <= 1
            && s.handed <= job.input
            && (s.manager.Finished? && !s.stop ==> s.handed == job.input && tail == [])
  {
    var s := Execute(job, schedule);
    LogSearchProof.ExecuteKeeps(job, schedule);
    if s.manager.Finished? && !s.stop { ConcatEmpty(s.handed); }
  }

  // ----- nobody waits for ever -----

  predicate IsSpurious(actor: Actor) {
    actor.SpuriousManager? || actor.SpuriousWorker?
  }

  /** Steps that need no outside event: threads, the rest of a stop under way, the next creation. */
  predicate OwnStep(actor: Actor) {
    !IsSpurious(actor) && !actor.Interrupt? && !actor.SpawnFails?
  }

  ghost predicate Stuck(job: Job, s: State)
    requires Shaped(job, s)
  {
    forall actor | OwnStep(actor) :: !Enabled(job, s, actor)
  }

  /** The manager sleeps on a full buffer that no worker will ever empty. */
  ghost predicate Stranded(job: Job, s: State)
    requires Shaped(job, s)
  {
    && s.manager.Blocked? && s.failure.Notified? && !s.signal.FlagSet?
    && forall i | 0 <= i < s.spawned :: s.workers[i].Exited?
  }

  /** The only deadlock: for a buffer of any positive size and any number of workers, a reachable
      state in which nothing moves by itself is either the end of the run, or the one where a
      worker could not be created while the manager was blocked and everybody else has left. */
  lemma StuckIff(job: Job, schedule: seq<Actor>)
    requires job.capacity > 0 && job.workers > 0
    ensures var s := Execute(job, schedule);
            Stuck(job, s) <==>
            Stranded(job, s) ||
            (AllExited(job, s) && !s.failure.FlagSet? && !s.signal.FlagSet? &&
             (s.spawned == job.workers || s.failure.Notified?))
  {
    var s := Execute(job, schedule);
    LogSearchProof.ExecuteKeeps(job, schedule);
    if Stuck(job, s) {
      assert !Enabled(job, s, TheManager) && !Enabled(job, s, Spawn);
      assert !Enabled(job, s, FailureNotifies) && !Enabled(job, s, InterruptNotifies);
      forall i: nat | i < s.spawned ensures s.workers[i].Exited? {
        assert !Enabled(job, s, AWorker(i));
      }
      if s.manager.Blocked? {
        if s.spawned > 0 { assert s.workers[0].Exited?; }
      }
    }
  }

  /** Without a failed creation there is no deadlock, stopped or not. */
  lemma NoDeadlock(job: Job, schedule: seq<Actor>)
    requires job.capacity > 0 && job.workers > 0
    requires Execute(job, schedule).failure.Quiet?
    ensures var s := Execute(job, schedule);
            Stuck(job, s) ==> AllExited(job, s) && s.spawned == job.workers
  {
    StuckIff(job, schedule);
  }

  // ----- the run ends -----

  function ManagerStage(m: Manager): nat {
    match m
    case Deciding => 1
    case Reading => 1
    case Closing => 1
    case Read(_) => 3
    case Adding(_) => 3
    case Blocked(_) => 3
    case Finished => 0
  }

  function StopperStage(x: Stopper): nat {
    match x
    case Quiet => 2
    case FlagSet => 1
    case Notified => 0
  }

  /** Lines still to move on, and flags still to be set. */
  function Stage(s: State): nat {
    3 * |s.unread| + ManagerStage(s.manager) + |s.queue.lines| + StopperStage(s.signal) + StopperStage(s.failure)
  }

  function ManagerRank(m: Manager): nat {
    match m
    case Deciding => 5
    case Reading => 4
    case Read(_) => 4
    case Adding(_) => 3
    case Blocked(_) => 2
    case Closing => 1
    case Finished => 0
  }

  function WorkerRank(w: Worker): nat {
    match w
    case Unborn => 6
    case Scanning(_) => 5
    case Ready => 4
    case Getting => 3
    case Sleeping => 1
    case Exited => 0
  }

  function Ranks(ws: seq<Worker>): seq<nat> {
    seq(|ws|, i requires 0 <= i < |ws| => WorkerRank(ws[i]))
  }

  function Rank(s: State): nat {
    ManagerRank(s.manager) + Sum(Ranks(s.workers))
  }

  function Measure(job: Job, s: State): nat {
    Stage(s) * (6 * job.workers + 6) + Rank(s)
  }

  lemma RankBound(job: Job, s: State)
    requires Shaped(job, s)
    ensures Rank(s) < 6 * job.workers + 6
  {
    SumBound(Ranks(s.workers), 6);
  }

  lemma RankOfWorker(ws: seq<Worker>, i: nat, w: Worker)
    requires i < |ws|
    ensures Sum(Ranks(ws[i := w])) == Sum(Ranks(ws)) - WorkerRank(ws[i]) + WorkerRank(w)
  {
    SumUpdate(Ranks(ws), i, WorkerRank(w));
    assert Ranks(ws[i := w]) == Ranks(ws)[i := WorkerRank(w)];
  }

  ghost predicate Lower(s': State, s: State) {
    Stage(s') < Stage(s) || (Stage(s') == Stage(s) && Rank(s') < Rank(s))
  }

  /** Waiting lowers the rank; storing or dropping the line lowers the stage, whoever is woken. */
  lemma AddingLowers(s: State)
    requires s.manager.Adding?
    ensures Lower(ManagerStep(s), s)
  {
    assert ManagerStep(s).manager.Blocked? ==> ManagerStep(s).workers == s.workers;
  }

  lemma ManagerLowers(job: Job, s: State)
    requires Shaped(job, s) && Enabled(job, s, TheManager)
    ensures Lower(ManagerStep(s), s)
  {
    if s.manager.Adding? { AddingLowers(s); }
  }

  lemma WorkerLowers(job: Job, s: State, i: nat)
    requires Shaped(job, s) && Enabled(job, s, AWorker(i))
    ensures Lower(WorkerStep(job, s, i), s)
  {
    var w := WorkerStep(job, s, i).workers[i];
    RankOfWorker(s.workers, i, w);
    assert WorkerStep(job, s, i).workers == s.workers[i := w];
  }

  lemma StageOrRank(job: Job, s: State, actor: Actor)
    requires Inv(job, s) && Enabled(job, s, actor) && !IsSpurious(actor)
    ensures Lower(Step(job, s, actor), s)
  {
    match actor {
      case TheManager => ManagerLowers(job, s);
      case AWorker(i) => WorkerLowers(job, s, i);
      case Spawn => RankOfWorker(s.workers, s.spawned, Ready);
      case InterruptNotifies => assert ManagerStage(Wake(s.manager)) == ManagerStage(s.manager);
      case _ =>
    }
  }

  /** A measure goes down on every step but a spurious wake-up. */
  lemma MeasureDecreases(job: Job, s: State, actor: Actor)
    requires Inv(job, s) && Enabled(job, s, actor) && !IsSpurious(actor)
    ensures Measure(job, Step(job, s, actor)) < Measure(job, s)
  {
    var s' := Step(job, s, actor);
    StageOrRank(job, s, actor);
    LogSearchProof.StepKeeps(job, s, actor);
    RankBound(job, s');
    if Stage(s') < Stage(s) { MulStep(Stage(s'), Stage(s), 6 * job.workers + 6); }
  }

  ghost predicate Productive(job: Job, schedule: seq<Actor>) {
    schedule == [] ||
    (Productive(job, schedule[..|schedule| - 1]) &&
     !IsSpurious(schedule[|schedule| - 1]) &&
     Enabled(job, Execute(job, schedule[..|schedule| - 1]), schedule[|schedule| - 1]))
  }

  /** Termination: no run is longer than its initial measure, a number that depends only on the
      size of the input and the number of workers. */
  lemma {:induction false} RunsEnd(job: Job, schedule: seq<Actor>)
    requires Productive(job, schedule)
    ensures |schedule| + Measure(job, Execute(job, schedule)) <= Measure(job, Start(job))
  {
    if schedule != [] {
      var before := schedule[..|schedule| - 1];
      RunsEnd(job, before);
      LogSearchProof.ExecuteKeeps(job, before);
      MeasureDecreases(job, Execute(job, before), schedule[|schedule| - 1]);
    }
  }
}
