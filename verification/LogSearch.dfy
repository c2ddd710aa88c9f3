/** The log search: one manager puts the lines of a file into the bounded buffer, any number of
    workers take them out and count the ones with the search term. Threads move one critical
    section, or one test of the stop flag, at a time; sleeping on a condition variable is a state
    of its own, left only when somebody signals. */
module LogSearch {
  import opened Buffer
  import CStrings

  datatype Job = Job(input: seq<string>, capacity: nat, workers: nat, term: string)

  datatype Manager =
    | Deciding | Reading | Read(line: string)
    | Adding(line: string) | Blocked(line: string)
    | Closing | Finished

  datatype Worker = Unborn | Ready | Getting | Sleeping | Scanning(line: string) | Exited

  /** How far a stop request has got: the flag first, the wake-up later. */
  datatype Stopper = Quiet | FlagSet | Notified

  datatype Delivery = Delivery(worker: nat, line: string)

  /** `signal` is the interrupt handler, `failure` the branch taken when a worker cannot be
      created. `handed`, `delivered`, `dropped` and `skipped` record what became of the lines. */
  datatype State = State(
    unread: seq<string>,
    manager: Manager,
    workers: seq<Worker>,
    spawned: nat,
    counts: seq<nat>,
    matches: seq<nat>,
    queue: Queue,
    stop: bool,
    signal: Stopper,
    failure: Stopper,
    handed: seq<string>,
    delivered: seq<Delivery>,
    dropped: seq<string>,
    skipped: seq<string>)

  datatype Actor =
    | TheManager | AWorker(i: nat)
    | Spawn | SpawnFails | FailureNotifies
    | Interrupt | InterruptNotifies
    | SpuriousManager | SpuriousWorker(i: nat)

  function Start(job: Job): State {
    State(job.input, Deciding, seq(job.workers, _ => Unborn), 0, seq(job.workers, _ => 0), seq(job.workers, _ => 0),
          Queue(job.capacity, [], false), false, Quiet, Quiet, [], [], [], [])
  }

  predicate Shaped(job: Job, s: State) {
    |s.workers| == |s.counts| == |s.matches| == job.workers && s.spawned <= job.workers
  }

  /** `pthread_cond_broadcast(&not_empty)`. */
  function WakeAll(ws: seq<Worker>): (r: seq<Worker>)
    ensures |r| == |ws|
    ensures forall i | 0 <= i < |ws| :: r[i] == if ws[i].Sleeping? then Getting else ws[i]
  {
    seq(|ws|, i requires 0 <= i < |ws| => if ws[i].Sleeping? then Getting else ws[i])
  }

  /** `pthread_cond_signal(&not_full)`: only the manager ever waits there. */
  function Wake(m: Manager): Manager {
    if m.Blocked? then Adding(m.line) else m
  }

  predicate Enabled(job: Job, s: State, actor: Actor)
    requires Shaped(job, s)
  {
    match actor
    case TheManager => !s.manager.Blocked? && !s.manager.Finished?
    case AWorker(i) => i < job.workers && !s.workers[i].Unborn? && !s.workers[i].Sleeping? && !s.workers[i].Exited?
    case Spawn => s.spawned < job.workers && s.failure.Quiet?
    case SpawnFails => s.spawned < job.workers && s.failure.Quiet?
    case FailureNotifies => s.failure.FlagSet?
    case Interrupt => s.signal.Quiet? && !s.stop
    case InterruptNotifies => s.signal.FlagSet?
    case SpuriousManager => s.manager.Blocked?
    case SpuriousWorker(i) => i < job.workers && s.workers[i].Sleeping?
  }

  function ManagerStep(s: State): State {
    match s.manager
    case Deciding => s.(manager := if s.stop then Closing else Reading)
    case Reading =>
      if s.unread == [] then s.(manager := Closing) else s.(manager := Read(s.unread[0]), unread := s.unread[1..])
    case Read(line) =>
      if s.stop then s.(manager := Closing, skipped := s.skipped + [line])
      else s.(manager := Adding(line), handed := s.handed + [line])
    case Adding(line) =>
      var (queue, outcome) := Add(s.queue, line, s.stop);
      (match outcome
       case AddWaits => s.(manager := Blocked(line))
       case Dropped => s.(manager := Deciding, dropped := s.dropped + [line])
       case Stored => s.(manager := Deciding, queue := queue, workers := WakeAll(s.workers)))
    case Closing => s.(manager := Finished, queue := s.queue.(managerDone := true), workers := WakeAll(s.workers))
    case Blocked(_) => s
    case Finished => s
  }

  function WorkerStep(job: Job, s: State, i: nat): State
    requires Shaped(job, s) && i < job.workers
  {
    match s.workers[i]
    case Ready =>
      if s.stop then s.(workers := s.workers[i := Exited], matches := s.matches[i := s.counts[i]])
      else s.(workers := s.workers[i := Getting])
    case Getting =>
      var (queue, outcome) := Get(s.queue, s.stop);
      (match outcome
       case GetWaits => s.(workers := s.workers[i := Sleeping])
       case Nothing => s.(workers := s.workers[i := Exited], matches := s.matches[i := s.counts[i]])
       case Got(line) => s.(workers := s.workers[i := Scanning(line)], queue := queue, manager := Wake(s.manager),
       delivered := s.delivered + [Delivery(i, line)]))
    case Scanning(line) =>
      s.(workers := s.workers[i := Ready], counts := s.counts[i := s.counts[i] + Hit(job.term, line)])
    case Unborn => s
    case Sleeping => s
    case Exited => s
  }

  function Hit(term: string, line: string): nat {
    if CStrings.Contains(line, term) then 1 else 0
  }

  function Step(job: Job, s: State, actor: Actor): State
    requires Shaped(job, s)
  {
    if !Enabled(job, s, actor) then s
    else
      match actor
      case TheManager => ManagerStep(s)
      case AWorker(i) => WorkerStep(job, s, i)
      case Spawn => s.(workers := s.workers[s.spawned := Ready], spawned := s.spawned + 1)
      case SpawnFails => s.(stop := true, failure := FlagSet)
      case FailureNotifies =>
        s.(failure := Notified, queue := s.queue.(managerDone := true), workers := WakeAll(s.workers))
      case Interrupt => s.(stop := true, signal := FlagSet)
      case InterruptNotifies =>
        s.(signal := Notified, queue := s.queue.(managerDone := true), workers := WakeAll(s.workers), manager := Wake(s.manager))
      case SpuriousManager => s.(manager := Wake(s.manager))
      case SpuriousWorker(i) => s.(workers := s.workers[i := Getting])
  }

  lemma StepShaped(job: Job, s: State, actor: Actor)
    requires Shaped(job, s)
    ensures Shaped(job, Step(job, s, actor))
  {
  }

  function Execute(job: Job, schedule: seq<Actor>): (r: State)
    ensures Shaped(job, r)
  {
    if schedule == [] then Start(job)
    else
      var s := Execute(job, schedule[..|schedule| - 1]);
      StepShaped(job, s, schedule[|schedule| - 1]);
      Step(job, s, schedule[|schedule| - 1])
  }

  // ----- where the lines are -----

  function Lines(ds: seq<Delivery>): seq<string> {
    seq(|ds|, k requires 0 <= k < |ds| => ds[k].line)
  }

  /** A line that has been read but not yet handed over. */
  function InRead(m: Manager): seq<string> {
    if m.Read? then [m.line] else []
  }

  /** A line that has been handed over but is not in the buffer yet. */
  function InHand(m: Manager): seq<string> {
    if m.Adding? || m.Blocked? then [m.line] else []
  }

  predicate Over(m: Manager) {
    m.Closing? || m.Finished?
  }

  /** Every line is in exactly one place, and all places are in order. */
  ghost predicate Conserved(job: Job, s: State) {
    && job.input == s.handed + (InRead(s.manager) + (s.skipped + s.unread))
    && s.handed == Lines(s.delivered) + (s.queue.lines + (InHand(s.manager) + s.dropped))
    && (s.skipped != [] ==> s.stop && Over(s.manager) && |s.skipped| == 1)
    && (s.dropped != [] ==> s.stop && (Over(s.manager) || s.manager.Deciding?) && |s.dropped| == 1)
    && |s.queue.lines| <= s.queue.capacity == job.capacity
  }

  /** Why the flags are what they are. */
  ghost predicate Flags(job: Job, s: State) {
    && (s.stop <==> !s.signal.Quiet? || !s.failure.Quiet?)
    && (s.queue.managerDone <==> s.manager.Finished? || s.signal.Notified? || s.failure.Notified?)
    && (Over(s.manager) ==> s.stop || s.unread == [])
  }

  /** Nobody sleeps through its cue: a sleeping worker has nothing to take, and a blocked manager
      has no room, unless it was passed over by the failure branch, which wakes only workers. */
  ghost predicate NoLostWakeup(job: Job, s: State)
    requires Shaped(job, s)
  {
    && (forall i | 0 <= i < job.workers && s.workers[i].Sleeping? :: s.queue.lines == [] && !s.queue.managerDone)
    && (s.manager.Blocked? ==>
          |s.queue.lines| == job.capacity && (s.queue.managerDone ==> s.failure.Notified? && !s.signal.Notified?))
  }

  /** Workers come into being in order, and leave only at the end or after a stop. */
  ghost predicate Lives(job: Job, s: State)
    requires Shaped(job, s)
  {
    && (forall i | 0 <= i < job.workers :: s.workers[i].Unborn? <==> s.spawned <= i)
    && (forall i | 0 <= i < job.workers && s.workers[i].Exited? :: s.stop || (s.queue.managerDone && s.queue.lines == []))
  }

  function Matching(ds: seq<Delivery>, term: string, i: nat): nat {
    if ds == [] then 0
    else
      var d := ds[|ds| - 1];
      Matching(ds[..|ds| - 1], term, i) + if d.worker == i then Hit(term, d.line) else 0
  }

  function Scanned(w: Worker, term: string): nat {
    if w.Scanning? then Hit(term, w.line) else 0
  }

  /** Each worker has counted the matching lines delivered to it, up to the one in its hands. */
  ghost predicate Counted(job: Job, s: State)
    requires Shaped(job, s)
  {
    && (forall k | 0 <= k < |s.delivered| :: s.delivered[k].worker < job.workers)
    && (forall i | 0 <= i < job.workers ::
          Matching(s.delivered, job.term, i) == s.counts[i] + Scanned(s.workers[i], job.term))
    && (forall i | 0 <= i < job.workers && s.workers[i].Exited? :: s.matches[i] == s.counts[i])
  }

  ghost predicate Inv(job: Job, s: State) {
    && Shaped(job, s) && Conserved(job, s) && Flags(job, s) && NoLostWakeup(job, s) && Lives(job, s) && Counted(job, s)
  }
}
