/** The threads that share the file queue: client threads asking for a transfer, and transfer
    threads that start the next one when they are done. Each takes the queue's mutex for one
    step at a time; starting and queueing are two such steps. */
module TransferThreads {
  import ChatRooms
  import opened FileQueue
  import opened Sums

  /** A thread holding a grant owes the queue one `filequeue_finish_transfer`. */
  datatype Thread =
    | Asking(meta: FileMeta)
    | Overflowing(meta: FileMeta)
    | Granted(meta: FileMeta)
    | Relaying(meta: FileMeta)
    | Failing(meta: FileMeta)
    | Trying
    | Ended

  predicate HoldsGrant(t: Thread) {
    t.Granted? || t.Relaying? || t.Failing?
  }

  /** `started` says whether the removed request got a grant or was dropped. */
  datatype Removal = Removal(meta: FileMeta, started: bool)

  /** Histories: requests taken into the queue, turned away, and taken out; grants given and returned. */
  datatype State = State(
    transfers: Transfers,
    threads: seq<Thread>,
    accepted: seq<FileMeta>,
    refused: seq<FileMeta>,
    removed: seq<Removal>,
    grants: nat,
    releases: nat)

  const START := State(Transfers([], 0), [], [], [], [], 0, 0)

  /** A new request, or one step of a thread; `created` is whether memory and a thread could be
      had, and `clients` what the client table is at that moment. */
  datatype Action = Request(meta: FileMeta) | Move(i: nat, created: bool, clients: seq<ChatRooms.Client>)

  function Release(s: State, i: nat, next: Thread): State
    requires i < |s.threads|
  {
    s.(transfers := Finish(s.transfers), releases := s.releases + 1, threads := s.threads[i := next])
  }

  function MoveThread(s: State, i: nat, created: bool, clients: seq<ChatRooms.Client>): State
    requires i < |s.threads|
  {
    match s.threads[i]
    case Asking(meta) =>
      var (t, granted) := Grant(s.transfers);
      if granted then s.(transfers := t, grants := s.grants + 1, threads := s.threads[i := Granted(meta)])
      else s.(threads := s.threads[i := Overflowing(meta)])
    case Overflowing(meta) =>
      var (t, accepted) := Enqueue(s.transfers, meta);
      if accepted then s.(transfers := t, accepted := s.accepted + [meta], threads := s.threads[i := Ended])
      else s.(refused := s.refused + [meta], threads := s.threads[i := Ended])
    case Granted(meta) =>
      if created then s.(threads := s.threads[i := Ended] + [Relaying(meta)])
      else s.(threads := s.threads[i := Failing(meta)])
    case Failing(_) => Release(s, i, Ended)
    case Relaying(_) => Release(s, i, Trying)
    case Trying =>
      var (t, outcome) := StartNext(s.transfers, clients);
      (match outcome
       case Nothing => s.(threads := s.threads[i := Ended])
       case Dropped(meta) =>
         s.(transfers := t, removed := s.removed + [Removal(meta, false)], threads := s.threads[i := Ended])
       case Started(meta) =>
         s.(transfers := t, removed := s.removed + [Removal(meta, true)], grants := s.grants + 1,
         threads := s.threads[i := Granted(meta)]))
    case Ended => s
  }

  function Act(s: State, a: Action): State {
    match a
    case Request(meta) => s.(threads := s.threads + [Asking(meta)])
    case Move(i, created, clients) => if i < |s.threads| then MoveThread(s, i, created, clients) else s
  }

  function Execute(actions: seq<Action>): State {
    if actions == [] then START else Act(Execute(actions[..|actions| - 1]), actions[|actions| - 1])
  }

  // ----- the accounts -----

  function Holdings(threads: seq<Thread>): seq<nat> {
    seq(|threads|, i requires 0 <= i < |threads| => if HoldsGrant(threads[i]) then 1 else 0)
  }

  function Metas(removed: seq<Removal>): seq<FileMeta> {
    seq(|removed|, k requires 0 <= k < |removed| => removed[k].meta)
  }

  /** The counter is the number of threads with a grant, and of grants not yet returned. */
  ghost predicate Balanced(s: State) {
    && s.transfers.active == Sum(Holdings(s.threads)) <= MAX_SIMULTANEOUS_TRANSFERS
    && s.grants == s.releases + s.transfers.active
  }

  /** First in, first out. */
  ghost predicate InOrder(s: State) {
    s.accepted == Metas(s.removed) + s.transfers.waiting && |s.transfers.waiting| <= MAX_FILE_QUEUE
  }

  lemma HoldingsAfter(threads: seq<Thread>, i: nat, t: Thread)
    requires i < |threads|
    ensures Sum(Holdings(threads[i := t])) ==
            Sum(Holdings(threads)) - (if HoldsGrant(threads[i]) then 1 else 0) + (if HoldsGrant(t) then 1 else 0)
    ensures HoldsGrant(threads[i]) ==> Sum(Holdings(threads)) > 0
  {
    SumUpdate(Holdings(threads), i, if HoldsGrant(t) then 1 else 0);
    assert Holdings(threads[i := t]) == Holdings(threads)[i := if HoldsGrant(t) then 1 else 0];
  }

  lemma HoldingsWith(threads: seq<Thread>, t: Thread)
    ensures Sum(Holdings(threads + [t])) == Sum(Holdings(threads)) + if HoldsGrant(t) then 1 else 0
  {
    SumSnoc(Holdings(threads), if HoldsGrant(t) then 1 else 0);
    assert Holdings(threads + [t]) == Holdings(threads) + [if HoldsGrant(t) then 1 else 0];
  }

  lemma MoveBalances(s: State, i: nat, created: bool, clients: seq<ChatRooms.Client>)
    requires Balanced(s) && i < |s.threads|
    ensures Balanced(MoveThread(s, i, created, clients))
  {
    var s' := MoveThread(s, i, created, clients);
    if s.threads[i].Granted? && created {
      HoldingsAfter(s.threads, i, Ended);
      HoldingsWith(s.threads[i := Ended], Relaying(s.threads[i].meta));
    } else {
      HoldingsAfter(s.threads, i, s'.threads[i]);
      assert s'.threads == s.threads[i := s'.threads[i]];
    }
  }

  lemma MoveInOrder(s: State, i: nat, created: bool, clients: seq<ChatRooms.Client>)
    requires InOrder(s) && i < |s.threads|
    ensures InOrder(MoveThread(s, i, created, clients))
  {
    var s' := MoveThread(s, i, created, clients);
    var q := s.transfers.waiting;
    if s.threads[i].Overflowing? {
      assert (Metas(s.removed) + q) + [s.threads[i].meta] == Metas(s.removed) + (q + [s.threads[i].meta]);
    } else if s'.removed != s.removed {
      assert Metas(s'.removed) == Metas(s.removed) + [q[0]];
      assert (Metas(s.removed) + [q[0]]) + q[1..] == Metas(s.removed) + q;
    }
  }

  lemma {:induction false} ExecuteKeeps(actions: seq<Action>)
    ensures Balanced(Execute(actions)) && InOrder(Execute(actions))
  {
    if actions != [] {
      ExecuteKeeps(actions[..|actions| - 1]);
      var s := Execute(actions[..|actions| - 1]);
      match actions[|actions| - 1] {
        case Request(meta) => HoldingsWith(s.threads, Asking(meta));
        case Move(i, created, clients) =>
          if i < |s.threads| {
            MoveBalances(s, i, created, clients);
            MoveInOrder(s, i, created, clients);
          }
      }
    }
  }

  /** Slot accounting over all runs: the counter is the number of grants given and not returned,
      never more than five; every thread that returns one finds the counter above zero, so the
      guard there never hides an underflow; and when all threads have ended, nothing is owed. */
  lemma SlotsAccounted(actions: seq<Action>)
    ensures var s := Execute(actions);
            && s.transfers.active == s.grants - s.releases == Sum(Holdings(s.threads))
            && s.transfers.active <= MAX_SIMULTANEOUS_TRANSFERS
            && (forall i | 0 <= i < |s.threads| && HoldsGrant(s.threads[i]) :: s.transfers.active > 0)
            && ((forall i | 0 <= i < |s.threads| :: s.threads[i].Ended?) ==> s.grants == s.releases)
  {
    ExecuteKeeps(actions);
    var s := Execute(actions);
    forall i | 0 <= i < |s.threads| && HoldsGrant(s.threads[i]) ensures s.transfers.active > 0 {
      HoldingsAfter(s.threads, i, Ended);
    }
    if forall i | 0 <= i < |s.threads| :: s.threads[i].Ended? { SumZero(Holdings(s.threads)); }
  }

  /** The queue over all runs: accepted requests are, in order, those taken out and those still
      waiting; one is turned away by a step exactly if five are waiting at that step. */
  lemma {:induction false} QueueIsFifo(actions: seq<Action>, a: Action)
    ensures var s, s' := Execute(actions), Act(Execute(actions), a);
            && s.accepted == Metas(s.removed) + s.transfers.waiting
            && |s.transfers.waiting| <= MAX_FILE_QUEUE
            && (a.Move? && a.i < |s.threads| && s.threads[a.i].Overflowing? ==>
                  if |s.transfers.waiting| == MAX_FILE_QUEUE
                  then s'.refused == s.refused + [s.threads[a.i].meta] && s'.accepted == s.accepted
                  else s'.accepted == s.accepted + [s.threads[a.i].meta] && s'.refused == s.refused)
  {
    ExecuteKeeps(actions);
  }

  lemma OneRemoval(s: State, a: Action)
    ensures var s' := Act(s, a);
            s'.removed == s.removed ||
            (a.Move? && s.transfers.waiting != [] &&
             var head := s.transfers.waiting[0];
             && s'.removed == s.removed + [Removal(head, Online(a.clients, head))]
             && s'.transfers.waiting == s.transfers.waiting[1..]
             && s'.grants == s.grants + if Online(a.clients, head) then 1 else 0)
  {
  }

  /** Requests leave the queue one by one, in the order they came: those taken out are always the
      first accepted ones, and each is started, with a grant, exactly if both parties are online. */
  lemma {:induction false} RemovalsOneByOne(actions: seq<Action>, a: Action)
    ensures var s, s' := Execute(actions), Act(Execute(actions), a);
            && |s'.transfers.waiting| <= |s'.accepted|
            && Metas(s'.removed) == s'.accepted[..|s'.accepted| - |s'.transfers.waiting|]
            && (s'.removed == s.removed ||
                (a.Move? && s.transfers.waiting != [] &&
                 var head := s.transfers.waiting[0];
                 && s'.removed == s.removed + [Removal(head, Online(a.clients, head))]
                 && s'.transfers.waiting == s.transfers.waiting[1..]
                 && s'.grants == s.grants + if Online(a.clients, head) then 1 else 0))
  {
    OneRemoval(Execute(actions), a);
    ExecuteKeeps(actions + [a]);
    assert (actions + [a])[..|actions|] == actions;
    PrefixOf(Act(Execute(actions), a));
  }

  lemma PrefixOf(s: State)
    requires InOrder(s)
    ensures |s.transfers.waiting| <= |s.accepted|
    ensures Metas(s.removed) == s.accepted[..|s.accepted| - |s.transfers.waiting|]
  {
  }

  // ----- no request is lost -----

  /** Client threads that have not yet got a grant or reached the queue. */
  function Asks(t: Thread): nat {
    if t.Asking? || t.Overflowing? then 1 else 0
  }

  function AllAsks(threads: seq<Thread>): seq<nat> {
    seq(|threads|, i requires 0 <= i < |threads| => Asks(threads[i]))
  }

  function StartedOf(removed: seq<Removal>): nat {
    if removed == [] then 0
    else StartedOf(removed[..|removed| - 1]) + if removed[|removed| - 1].started then 1 else 0
  }

  /** Requests on their way, queued or turned away, or granted at once: grants but for those that
      requests out of the queue got. */
  function Accounted(s: State): int {
    Sum(AllAsks(s.threads)) + |s.accepted| + |s.refused| + (s.grants - StartedOf(s.removed))
  }

  lemma AsksAfter(threads: seq<Thread>, i: nat, t: Thread)
    requires i < |threads|
    ensures Sum(AllAsks(threads[i := t])) == Sum(AllAsks(threads)) - Asks(threads[i]) + Asks(t)
  {
    SumUpdate(AllAsks(threads), i, Asks(t));
    assert AllAsks(threads[i := t]) == AllAsks(threads)[i := Asks(t)];
  }

  lemma AsksWith(threads: seq<Thread>, t: Thread)
    ensures Sum(AllAsks(threads + [t])) == Sum(AllAsks(threads)) + Asks(t)
  {
    SumSnoc(AllAsks(threads), Asks(t));
    assert AllAsks(threads + [t]) == AllAsks(threads) + [Asks(t)];
  }

  lemma StartedSnoc(removed: seq<Removal>, r: Removal)
    ensures StartedOf(removed + [r]) == StartedOf(removed) + if r.started then 1 else 0
  {
    assert (removed + [r])[..|removed|] == removed;
  }

  lemma MoveAccounts(s: State, i: nat, created: bool, clients: seq<ChatRooms.Client>)
    requires i < |s.threads|
    ensures Accounted(MoveThread(s, i, created, clients)) == Accounted(s)
  {
    var s' := MoveThread(s, i, created, clients);
    if s.threads[i].Granted? && created {
      AsksAfter(s.threads, i, Ended);
      AsksWith(s.threads[i := Ended], Relaying(s.threads[i].meta));
    } else {
      AsksAfter(s.threads, i, s'.threads[i]);
      assert s'.threads == s.threads[i := s'.threads[i]];
      if s'.removed != s.removed { StartedSnoc(s.removed, s'.removed[|s.removed|]); }
    }
  }

  /** Every request that has come in is on its way, has been queued or turned away, or was granted a
      transfer at once. */
  lemma {:induction false} NoRequestLost(actions: seq<Action>)
    ensures Arrivals(actions) == Accounted(Execute(actions))
  {
    if actions != [] {
      var before, a := actions[..|actions| - 1], actions[|actions| - 1];
      NoRequestLost(before);
      match a {
        case Request(meta) => AsksWith(Execute(before).threads, Asking(meta));
        case Move(i, created, clients) =>
          if i < |Execute(before).threads| { MoveAccounts(Execute(before), i, created, clients); }
      }
    }
  }

  // ----- what exactly is granted -----

  /** A client that asks is granted a transfer exactly if fewer than five grants are out; otherwise its
      request goes to the queue. */
  lemma {:induction false} GrantIff(actions: seq<Action>, i: nat, created: bool, clients: seq<ChatRooms.Client>)
    ensures var s, s' := Execute(actions), Act(Execute(actions), Move(i, created, clients));
            i < |s.threads| && s.threads[i].Asking? ==>
              var free, meta := Sum(Holdings(s.threads)) < 5, s.threads[i].meta;
              && s'.threads == s.threads[i := if free then Granted(meta) else Overflowing(meta)]
              && s'.grants == s.grants + (if free then 1 else 0)
  {
    ExecuteKeeps(actions);
  }

  /** A thread that has finished a transfer takes the next request out exactly if one is waiting and
      fewer than five grants are out, and goes on with it exactly if both parties are online. */
  lemma {:induction false} TryIff(actions: seq<Action>, i: nat, created: bool, clients: seq<ChatRooms.Client>)
    ensures var s, s' := Execute(actions), Act(Execute(actions), Move(i, created, clients));
            i < |s.threads| && s.threads[i].Trying? ==>
              if s.transfers.waiting == [] || Sum(Holdings(s.threads)) >= 5
              then s'.removed == s.removed && s'.grants == s.grants && s'.threads == s.threads[i := Ended]
              else
                var head := s.transfers.waiting[0];
                && s'.transfers.waiting == s.transfers.waiting[1..]
                && s'.removed == s.removed + [Removal(head, Online(clients, head))]
                && s'.threads == s.threads[i := if Online(clients, head) then Granted(head) else Ended]
  {
    ExecuteKeeps(actions);
  }

  /** A granted transfer runs in a thread of its own, unless memory or a thread cannot be had; a running
      one returns its grant and looks for the next; a failed one just returns it. */
  lemma {:induction false} GrantedRuns(actions: seq<Action>, i: nat, created: bool, clients: seq<ChatRooms.Client>)
    ensures var s, s' := Execute(actions), Act(Execute(actions), Move(i, created, clients));
            i < |s.threads| ==>
              match s.threads[i]
              case Granted(meta) =>
                && s'.releases == s.releases
                && s'.threads == if created then s.threads[i := Ended] + [Relaying(meta)] else s.threads[i := Failing(meta)]
              case Relaying(_) => s'.releases == s.releases + 1 && s'.threads == s.threads[i := Trying]
              case Failing(_) => s'.releases == s.releases + 1 && s'.threads == s.threads[i := Ended]
              case _ => s'.releases == s.releases
  {
  }

  // ----- the threads end -----

  /** Steps a thread may still cause, its successors' included. */
  function Weight(t: Thread): nat {
    match t
    case Asking(_) => 9
    case Overflowing(_) => 8
    case Granted(_) => 6
    case Relaying(_) => 5
    case Failing(_) => 1
    case Trying => 1
    case Ended => 0
  }

  function Weights(threads: seq<Thread>): seq<nat> {
    seq(|threads|, i requires 0 <= i < |threads| => Weight(threads[i]))
  }

  /** A waiting request counts as much as the steps that starting it may take. */
  function Potential(s: State): nat {
    Sum(Weights(s.threads)) + 7 * |s.transfers.waiting|
  }

  lemma WeightsAfter(threads: seq<Thread>, i: nat, t: Thread)
    requires i < |threads|
    ensures Sum(Weights(threads[i := t])) == Sum(Weights(threads)) - Weight(threads[i]) + Weight(t)
  {
    SumUpdate(Weights(threads), i, Weight(t));
    assert Weights(threads[i := t]) == Weights(threads)[i := Weight(t)];
  }

  lemma WeightsWith(threads: seq<Thread>, t: Thread)
    ensures Sum(Weights(threads + [t])) == Sum(Weights(threads)) + Weight(t)
  {
    SumSnoc(Weights(threads), Weight(t));
    assert Weights(threads + [t]) == Weights(threads) + [Weight(t)];
  }

  lemma MoveLowers(s: State, i: nat, created: bool, clients: seq<ChatRooms.Client>)
    requires i < |s.threads| && !s.threads[i].Ended?
    ensures Potential(MoveThread(s, i, created, clients)) < Potential(s)
  {
    var s' := MoveThread(s, i, created, clients);
    if s.threads[i].Granted? && created {
      WeightsAfter(s.threads, i, Ended);
      WeightsWith(s.threads[i := Ended], Relaying(s.threads[i].meta));
    } else {
      WeightsAfter(s.threads, i, s'.threads[i]);
      assert s'.threads == s.threads[i := s'.threads[i]];
    }
  }

  function Arrivals(actions: seq<Action>): nat {
    if actions == [] then 0
    else Arrivals(actions[..|actions| - 1]) + if actions[|actions| - 1].Request? then 1 else 0
  }

  /** Only threads that have not ended move. */
  ghost predicate Productive(actions: seq<Action>) {
    actions == [] ||
    (Productive(actions[..|actions| - 1]) &&
     var s, a := Execute(actions[..|actions| - 1]), actions[|actions| - 1];
     a.Move? ==> a.i < |s.threads| && !s.threads[a.i].Ended?)
  }

  /** Every request causes at most nine steps, so the threads all end. */
  lemma {:induction false} ThreadsEnd(actions: seq<Action>)
    requires Productive(actions)
    ensures |actions| + Potential(Execute(actions)) <= 10 * Arrivals(actions)
  {
    if actions != [] {
      var before, a := actions[..|actions| - 1], actions[|actions| - 1];
      ThreadsEnd(before);
      match a {
        case Request(meta) => WeightsWith(Execute(before).threads, Asking(meta));
        case Move(i, created, clients) => MoveLowers(Execute(before), i, created, clients);
      }
    }
  }
}
