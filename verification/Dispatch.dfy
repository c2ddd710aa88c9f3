/** The engineers and the satellites at work. Satellites are known by their place in the heap's
    array, which no longer changes. A scan holds the engineers' mutex and looks at one place at a
    time: first the flags, then the request semaphore. */
module Dispatch {
  import opened SatelliteQueue
  import opened Sums

  /** A satellite's thread: before posting its request, waiting to be handled, past its time-out
      but before taking its mutex, done. */
  datatype Thread = Starting | Waiting | TimingOut | Done

  datatype Site = Site(thread: Thread, newRequest: nat, requestHandled: nat, isHandled: bool, isTimedOut: bool)

  /** `late` remembers whether every satellite had posted its request when the scan began. */
  datatype Engineer =
    | Idle
    | Scanning(i: nat, late: bool)
    | Trying(i: nat, late: bool)
    | Claimed(place: nat)
    | Working(place: nat)
    | Gone(late: bool)

  datatype Claim = Claim(engineer: nat, place: nat, late: bool)

  datatype State = State(sites: seq<Site>, engineers: seq<Engineer>, mutex: bool, claims: seq<Claim>)

  datatype Actor = ASatellite(p: nat) | TimeOut(p: nat) | AnEngineer(e: nat)

  function Start(n: nat, engineers: nat): State {
    State(seq(n, _ => Site(Starting, 0, 0, false, false)), seq(engineers, _ => Idle), false, [])
  }

  predicate AllPosted(s: State) {
    forall p | 0 <= p < |s.sites| :: !s.sites[p].thread.Starting?
  }

  predicate Enabled(s: State, a: Actor) {
    match a
    case ASatellite(p) =>
      p < |s.sites| &&
      (match s.sites[p].thread
       case Starting => true
       case Waiting => s.sites[p].requestHandled > 0
       case TimingOut => true
       case Done => false)
    case TimeOut(p) => p < |s.sites| && s.sites[p].thread.Waiting? && s.sites[p].requestHandled == 0
    case AnEngineer(e) => e < |s.engineers| && !s.engineers[e].Gone? && (s.engineers[e].Idle? ==> !s.mutex)
  }

  function SatelliteStep(s: State, p: nat): State
    requires p < |s.sites|
  {
    var site := s.sites[p];
    match site.thread
    case Starting => s.(sites := s.sites[p := site.(thread := Waiting, newRequest := site.newRequest + 1)])
    case Waiting =>
      if site.requestHandled > 0
      then s.(sites := s.sites[p := site.(thread := Done, requestHandled := site.requestHandled - 1)]) else s
    case TimingOut => s.(sites := s.sites[p := site.(thread := Done, isTimedOut := site.isTimedOut || !site.isHandled)])
    case Done => s
  }

  function EngineerStep(s: State, e: nat): State
    requires e < |s.engineers|
  {
    match s.engineers[e]
    case Idle => s.(mutex := true, engineers := s.engineers[e := Scanning(0, AllPosted(s))])
    case Scanning(i, late) =>
      if i >= |s.sites| then s.(mutex := false, engineers := s.engineers[e := Gone(late)])
      else if s.sites[i].isHandled || s.sites[i].isTimedOut then s.(engineers := s.engineers[e := Scanning(i + 1, late)])
      else s.(engineers := s.engineers[e := Trying(i, late)])
    case Trying(i, late) =>
      if i < |s.sites| && s.sites[i].newRequest > 0 then
        s.(mutex := false,
        sites := s.sites[i := s.sites[i].(newRequest := s.sites[i].newRequest - 1)],
        engineers := s.engineers[e := Claimed(i)],
        claims := s.claims + [Claim(e, i, late)])
      else s.(engineers := s.engineers[e := Scanning(i + 1, late)])
    case Claimed(p) =>
      if p < |s.sites| then
        s.(sites := s.sites[p := s.sites[p].(isHandled := true)], engineers := s.engineers[e := Working(p)])
      else s
    case Working(p) =>
      if p < |s.sites| then
        s.(sites := s.sites[p := s.sites[p].(requestHandled := s.sites[p].requestHandled + 1)],
        engineers := s.engineers[e := Idle])
      else s
    case Gone(_) => s
  }

  function Step(s: State, a: Actor): State {
    if !Enabled(s, a) then s
    else
      match a
      case ASatellite(p) => SatelliteStep(s, p)
      case TimeOut(p) => s.(sites := s.sites[p := s.sites[p].(thread := TimingOut)])
      case AnEngineer(e) => EngineerStep(s, e)
  }

  function Execute(s: State, schedule: seq<Actor>): (r: State) {
    if schedule == [] then s else Step(Execute(s, schedule[..|schedule| - 1]), schedule[|schedule| - 1])
  }

  // ----- the invariant -----

  ghost predicate Taken(s: State, p: nat) {
    exists k :: 0 <= k < |s.claims| && s.claims[k].place == p
  }

  /** Claimed, or given up by the satellite itself. */
  ghost predicate Settled(s: State, p: nat)
    requires p < |s.sites|
  {
    Taken(s, p) || s.sites[p].isTimedOut
  }

  predicate InScan(e: Engineer) {
    e.Scanning? || e.Trying?
  }

  /** One scan at a time. */
  ghost predicate OneScan(s: State) {
    && (forall e | 0 <= e < |s.engineers| && InScan(s.engineers[e]) :: s.mutex)
    && (forall d, e | 0 <= d < e < |s.engineers| :: !(InScan(s.engineers[d]) && InScan(s.engineers[e])))
    && (s.mutex ==> exists e :: 0 <= e < |s.engineers| && InScan(s.engineers[e]))
  }

  /** A request is there from the moment it is posted until it is claimed. */
  ghost predicate Requests(s: State) {
    && (forall k | 0 <= k < |s.claims| :: s.claims[k].place < |s.sites| && s.claims[k].engineer < |s.engineers|)
    && (forall j, k | 0 <= j < k < |s.claims| :: s.claims[j].place != s.claims[k].place)
    && (forall p: nat | p < |s.sites| ::
          s.sites[p].newRequest == if s.sites[p].thread.Starting? || Taken(s, p) then 0 else 1)
    && (forall p: nat | p < |s.sites| && s.sites[p].thread.Starting? :: !Taken(s, p))
    && (forall p: nat | p < |s.sites| && s.sites[p].isHandled :: Taken(s, p))
    && (forall e | 0 <= e < |s.engineers| && (s.engineers[e].Claimed? || s.engineers[e].Working?) ::
          s.engineers[e].place < |s.sites| && Taken(s, s.engineers[e].place))
  }

  /** A late scan leaves only settled places behind. */
  ghost predicate ScansSettle(s: State) {
    forall e | 0 <= e < |s.engineers| ::
      match s.engineers[e]
      case Scanning(i, late) => i <= |s.sites| && (late ==> AllPosted(s) && SettledUpTo(s, i))
      case Trying(i, late) => i < |s.sites| && (late ==> AllPosted(s) && SettledUpTo(s, i))
      case Gone(late) => late ==> SettledUpTo(s, |s.sites|)
      case _ => true
  }

  ghost predicate SettledUpTo(s: State, i: nat)
    requires i <= |s.sites|
  {
    forall p: nat | p < i :: Settled(s, p)
  }

  ghost predicate Inv(s: State) {
    OneScan(s) && Requests(s) && ScansSettle(s)
  }

  /** Nothing settled becomes unsettled: claims stay on record and the time-out flag is never cleared. */
  ghost predicate Grows(s: State, s': State) {
    && |s'.sites| == |s.sites| && |s'.engineers| == |s.engineers| && s.claims <= s'.claims
    && (AllPosted(s) ==> AllPosted(s'))
    && (forall p | 0 <= p < |s.sites| && s.sites[p].isTimedOut :: s'.sites[p].isTimedOut)
  }

  lemma SettledStays(s: State, s': State, i: nat)
    requires Grows(s, s') && i <= |s.sites| && SettledUpTo(s, i)
    ensures SettledUpTo(s', i)
  {
    forall p: nat | p < i ensures Settled(s', p) {
      assert Settled(s, p);
      if k :| 0 <= k < |s.claims| && s.claims[k].place == p {
        assert s'.claims[k].place == p;
      }
    }
  }

  lemma StepGrows(s: State, a: Actor)
    ensures Grows(s, Step(s, a))
  {
  }

  lemma TakenAfter(s: State, s': State, c: Claim)
    requires s'.claims == s.claims + [c]
    ensures forall p: nat :: Taken(s', p) <==> Taken(s, p) || p == c.place
  {
    forall p: nat ensures Taken(s', p) <==> Taken(s, p) || p == c.place {
      if k :| 0 <= k < |s.claims| && s.claims[k].place == p { assert s'.claims[k].place == p; }
      assert s'.claims[|s.claims|] == c;
    }
  }

  lemma SatelliteRequests(s: State, a: Actor)
    requires Requests(s) && Enabled(s, a) && !a.AnEngineer?
    ensures Requests(Step(s, a))
  {
    assert forall p: nat :: Taken(Step(s, a), p) <==> Taken(s, p);
  }

  lemma SatelliteScans(s: State, a: Actor)
    requires ScansSettle(s) && Enabled(s, a) && !a.AnEngineer?
    ensures ScansSettle(Step(s, a))
  {
    StepGrows(s, a);
    forall e: nat | e < |s.engineers|
      ensures match s.engineers[e]
              case Scanning(i, late) => late ==> AllPosted(Step(s, a)) && SettledUpTo(Step(s, a), i)
              case Trying(i, late) => late ==> AllPosted(Step(s, a)) && SettledUpTo(Step(s, a), i)
              case Gone(late) => late ==> SettledUpTo(Step(s, a), |s.sites|)
              case _ => true
    {
      ScanOf(s, Step(s, a), e);
    }
  }

  lemma SatelliteKeeps(s: State, a: Actor)
    requires Inv(s) && Enabled(s, a) && !a.AnEngineer?
    ensures Inv(Step(s, a))
  {
    SatelliteRequests(s, a);
    SatelliteScans(s, a);
  }

  lemma EngineerOneScan(s: State, e: nat)
    requires OneScan(s) && Enabled(s, AnEngineer(e))
    ensures OneScan(EngineerStep(s, e))
  {
    var s' := EngineerStep(s, e);
    assert forall d | 0 <= d < |s.engineers| && d != e :: s'.engineers[d] == s.engineers[d];
    if InScan(s'.engineers[e]) { assert s'.mutex; }
  }

  lemma ClaimRequests(s: State, e: nat)
    requires Requests(s) && e < |s.engineers| && s.engineers[e].Trying?
    requires s.engineers[e].i < |s.sites| && s.sites[s.engineers[e].i].newRequest > 0
    ensures Requests(EngineerStep(s, e))
  {
    var s' := EngineerStep(s, e);
    var p := s.engineers[e].i;
    TakenAfter(s, s', Claim(e, p, s.engineers[e].late));
    assert !Taken(s, p);
    forall k | 0 <= k < |s.claims| ensures s.claims[k].place != p { }
  }

  lemma SameClaims(s: State, s': State)
    requires Requests(s) && s'.claims == s.claims && |s'.sites| == |s.sites| && |s'.engineers| == |s.engineers|
    requires forall p | 0 <= p < |s.sites| ::
               s'.sites[p].newRequest == s.sites[p].newRequest && s'.sites[p].thread == s.sites[p].thread &&
               (s'.sites[p].isHandled ==> s.sites[p].isHandled || Taken(s, p))
    requires forall e | 0 <= e < |s.engineers| && (s'.engineers[e].Claimed? || s'.engineers[e].Working?) ::
               (s.engineers[e].Claimed? || s.engineers[e].Working?) && s'.engineers[e].place == s.engineers[e].place
    ensures Requests(s')
  {
    assert forall p: nat :: Taken(s', p) <==> Taken(s, p);
  }

  lemma EngineerRequests(s: State, e: nat)
    requires Requests(s) && Enabled(s, AnEngineer(e))
    requires s.engineers[e].Trying? ==> s.engineers[e].i < |s.sites|
    ensures Requests(EngineerStep(s, e))
  {
    var s' := EngineerStep(s, e);
    if s'.claims != s.claims {
      ClaimRequests(s, e);
    } else {
      SameClaims(s, s');
    }
  }

  lemma EngineerScans(s: State, e: nat)
    requires Inv(s) && Enabled(s, AnEngineer(e))
    ensures ScansSettle(EngineerStep(s, e))
  {
    var s' := EngineerStep(s, e);
    StepGrows(s, AnEngineer(e));
    forall d: nat | d < |s.engineers|
      ensures match s'.engineers[d]
              case Scanning(i, late) => i <= |s.sites| && (late ==> AllPosted(s') && SettledUpTo(s', i))
              case Trying(i, late) => i < |s.sites| && (late ==> AllPosted(s') && SettledUpTo(s', i))
              case Gone(late) => late ==> SettledUpTo(s', |s.sites|)
              case _ => true
    {
      ScanOf(s, s', d);
      if d == e && InScan(s.engineers[e]) && s.engineers[e].i < |s.sites| && s.engineers[e].late {
        PassedOver(s, e);
      }
    }
  }

  /** What a scan had settled before the step it has settled after it. */
  lemma ScanOf(s: State, s': State, d: nat)
    requires ScansSettle(s) && Grows(s, s') && d < |s.engineers|
    ensures match s.engineers[d]
            case Scanning(i, late) => i <= |s.sites| && (late ==> AllPosted(s') && SettledUpTo(s', i))
            case Trying(i, late) => i < |s.sites| && (late ==> AllPosted(s') && SettledUpTo(s', i))
            case Gone(late) => late ==> SettledUpTo(s', |s.sites|)
            case _ => true
  {
    match s.engineers[d] {
      case Scanning(i, late) => if late { SettledStays(s, s', i); }
      case Trying(i, late) => if late { SettledStays(s, s', i); }
      case Gone(late) => if late { SettledStays(s, s', |s.sites|); }
      case _ =>
    }
  }

  /** A late scan goes past a place only if it is settled: its flags say so, or its request is gone. */
  lemma PassedOver(s: State, e: nat)
    requires Inv(s) && e < |s.engineers| && InScan(s.engineers[e])
    requires s.engineers[e].i < |s.sites| && s.engineers[e].late
    ensures EngineerStep(s, e).engineers[e] == Scanning(s.engineers[e].i + 1, true) ==>
              Settled(EngineerStep(s, e), s.engineers[e].i)
  {
    var i, s' := s.engineers[e].i, EngineerStep(s, e);
    assert !s.sites[i].thread.Starting?;
    if s'.engineers[e] == Scanning(i + 1, true) {
      assert Settled(s, i);
      if Taken(s, i) {
        var k :| 0 <= k < |s.claims| && s.claims[k].place == i;
        assert s'.claims[k].place == i;
      }
    }
  }

  lemma StepKeeps(s: State, a: Actor)
    requires Inv(s)
    ensures Inv(Step(s, a))
  {
    if Enabled(s, a) {
      match a {
        case AnEngineer(e) =>
          assert s.engineers[e].Trying? ==> s.engineers[e].i < |s.sites|;
          EngineerOneScan(s, e);
          EngineerRequests(s, e);
          EngineerScans(s, e);
        case _ => SatelliteKeeps(s, a);
      }
    }
  }

  lemma {:induction false} ExecuteKeeps(s: State, schedule: seq<Actor>)
    requires Inv(s)
    ensures Inv(Execute(s, schedule)) && Grows(s, Execute(s, schedule))
  {
    if schedule != [] {
      ExecuteKeeps(s, schedule[..|schedule| - 1]);
      StepKeeps(Execute(s, schedule[..|schedule| - 1]), schedule[|schedule| - 1]);
      StepGrows(Execute(s, schedule[..|schedule| - 1]), schedule[|schedule| - 1]);
    }
  }

  // ----- results -----

  function Places(claims: seq<Claim>): seq<nat> {
    seq(|claims|, k requires 0 <= k < |claims| => claims[k].place)
  }

  /** Each satellite is claimed by at most one engineer, so there are at most as many claims as
      satellites; and only claimed satellites are ever marked as handled. */
  lemma ClaimedOnce(n: nat, engineers: nat, schedule: seq<Actor>)
    ensures var s := Execute(Start(n, engineers), schedule);
            && (forall j, k | 0 <= j < k < |s.claims| :: s.claims[j].place != s.claims[k].place)
            && |s.claims| <= n
            && |s.sites| == n
            && (forall p: nat | p < n && s.sites[p].isHandled :: Taken(s, p))
  {
    ExecuteKeeps(Start(n, engineers), schedule);
    var s := Execute(Start(n, engineers), schedule);
    Pigeonhole(Places(s.claims), n);
  }

  lemma LateClaim(s: State, a: Actor)
    requires Inv(s) && |Step(s, a).claims| > |s.claims| && Step(s, a).claims[|s.claims|].late
    ensures var p := Step(s, a).claims[|s.claims|].place; p < |s.sites| && SettledUpTo(s, p)
  {
    assert a.AnEngineer? && s.engineers[a.e].Trying?;
  }

  /** The ordering that heap and scan give together: when a scan that began after all requests were
      posted claims a satellite, every place before it, and so every ancestor in the heap, each of at
      least its priority, has been claimed already or has timed out. */
  lemma AncestorsFirst(queue: seq<Satellite>, engineers: nat, schedule: seq<Actor>, a: Actor, place: nat)
    requires MaxHeap(queue)
    ensures var s := Execute(Start(|queue|, engineers), schedule);
            var s' := Step(s, a);
            |s.sites| == |queue| &&
            (|s'.claims| > |s.claims| && s'.claims[|s.claims|].late ==>
               var p := s'.claims[|s.claims|].place;
               && p < |queue|
               && SettledUpTo(s, p)
               && (Ancestor(place, p) ==> place < p && Settled(s, place) && queue[place].priority >= queue[p].priority))
  {
    ExecuteKeeps(Start(|queue|, engineers), schedule);
    var s := Execute(Start(|queue|, engineers), schedule);
    var s' := Step(s, a);
    if |s'.claims| > |s.claims| && s'.claims[|s.claims|].late {
      LateClaim(s, a);
      var p := s'.claims[|s.claims|].place;
      if Ancestor(place, p) { AncestorsBeforeAndAbove(queue, place, p); }
    }
  }

  /** In places: a late claim of place `2 * i + 1` or `2 * i + 2` finds place `i` settled, with at least
      the priority. */
  lemma ParentFirst(queue: seq<Satellite>, engineers: nat, schedule: seq<Actor>, a: Actor, i: nat)
    requires MaxHeap(queue)
    ensures var s := Execute(Start(|queue|, engineers), schedule);
            var s' := Step(s, a);
            |s.sites| == |queue| &&
            (|s'.claims| > |s.claims| && s'.claims[|s.claims|].late ==>
               var p := s'.claims[|s.claims|].place;
               && p < |queue|
               && (p == 2 * i + 1 || p == 2 * i + 2 ==> Settled(s, i) && queue[i].priority >= queue[p].priority))
  {
    AncestorsFirst(queue, engineers, schedule, a, i);
    AncestorsOfChild(i, i, 2 * i + 1);
    AncestorsOfChild(i, i, 2 * i + 2);
  }

  /** If nobody has timed out, the first satellite claimed, by a scan begun after all requests were
      posted, is the one of greatest priority. */
  lemma GreatestFirst(queue: seq<Satellite>, engineers: nat, schedule: seq<Actor>, a: Actor, q: nat)
    requires MaxHeap(queue) && q < |queue|
    ensures var s := Execute(Start(|queue|, engineers), schedule);
            var s' := Step(s, a);
            s.claims == [] && |s'.claims| == 1 && s'.claims[0].late &&
            (forall p | 0 <= p < |s.sites| :: !s.sites[p].isTimedOut) ==>
              s'.claims[0].place == 0 && queue[0].priority >= queue[q].priority
  {
    ExecuteKeeps(Start(|queue|, engineers), schedule);
    var s := Execute(Start(|queue|, engineers), schedule);
    var s' := Step(s, a);
    GreatestInFront(queue, q);
    if s.claims == [] && |s'.claims| == 1 && s'.claims[0].late &&
       forall p | 0 <= p < |s.sites| :: !s.sites[p].isTimedOut {
      LateClaim(s, a);
      assert !Settled(s, 0);
    }
  }

  /** Nobody is forgotten: once an engineer has left after a scan that began with all requests
      posted, every satellite has been claimed or has timed out. */
  lemma NobodyForgotten(n: nat, engineers: nat, schedule: seq<Actor>, e: nat, p: nat)
    ensures var s := Execute(Start(n, engineers), schedule);
            |s.sites| == n && |s.engineers| == engineers &&
            (e < engineers && s.engineers[e] == Gone(true) && p < n ==> Settled(s, p))
  {
    ExecuteKeeps(Start(n, engineers), schedule);
    var s := Execute(Start(n, engineers), schedule);
    if e < engineers && s.engineers[e] == Gone(true) && p < n {
      assert SettledUpTo(s, n);
    }
  }

  // ----- the end -----

  /** Nothing can move exactly when every engineer has left and every satellite's thread is over. */
  lemma StuckIffOver(n: nat, engineers: nat, schedule: seq<Actor>)
    ensures var s := Execute(Start(n, engineers), schedule);
            (forall a :: !Enabled(s, a)) <==>
            (forall e | 0 <= e < |s.engineers| :: s.engineers[e].Gone?) &&
            (forall p | 0 <= p < |s.sites| :: s.sites[p].thread.Done?)
  {
    ExecuteKeeps(Start(n, engineers), schedule);
    var s := Execute(Start(n, engineers), schedule);
    if s.mutex {
      var d: nat :| d < |s.engineers| && InScan(s.engineers[d]);
      assert Enabled(s, AnEngineer(d));
    }
    if forall a :: !Enabled(s, a) {
      forall e: nat | e < |s.engineers| ensures s.engineers[e].Gone? { assert !Enabled(s, AnEngineer(e)); }
      forall p: nat | p < |s.sites| ensures s.sites[p].thread.Done? {
        assert !Enabled(s, ASatellite(p)) && !Enabled(s, TimeOut(p));
      }
    }
  }

  function EngineerRank(n: nat, e: Engineer): nat {
    match e
    case Claimed(_) => 2 * n + 4
    case Working(_) => 2 * n + 3
    case Idle => 2 * n + 2
    case Scanning(i, _) => if i <= n then 2 * (n - i) + 1 else 0
    case Trying(i, _) => if i <= n then 2 * (n - i) else 0
    case Gone(_) => 0
  }

  function SiteRank(site: Site): nat {
    match site.thread
    case Starting => 3
    case Waiting => 2
    case TimingOut => 1
    case Done => 0
  }

  function EngineerRanks(n: nat, es: seq<Engineer>): seq<nat> {
    seq(|es|, e requires 0 <= e < |es| => EngineerRank(n, es[e]))
  }

  function SiteRanks(sites: seq<Site>): seq<nat> {
    seq(|sites|, p requires 0 <= p < |sites| => SiteRank(sites[p]))
  }

  function Rank(s: State): nat {
    Sum(EngineerRanks(|s.sites|, s.engineers)) + Sum(SiteRanks(s.sites))
  }

  function Unit(n: nat, engineers: nat): nat {
    engineers * (2 * n + 4) + n * 3 + 1
  }

  /** Satellites still to be claimed count most; then how far everybody is. */
  function Measure(s: State): int {
    (|s.sites| - |s.claims|) * Unit(|s.sites|, |s.engineers|) + Rank(s)
  }

  lemma RankBound(s: State)
    ensures Rank(s) < Unit(|s.sites|, |s.engineers|)
  {
    SumBound(EngineerRanks(|s.sites|, s.engineers), 2 * |s.sites| + 4);
    SumBound(SiteRanks(s.sites), 3);
  }

  lemma EngineerRankAfter(n: nat, es: seq<Engineer>, e: nat, next: Engineer)
    requires e < |es|
    ensures Sum(EngineerRanks(n, es[e := next])) == Sum(EngineerRanks(n, es)) - EngineerRank(n, es[e]) + EngineerRank(n, next)
  {
    SumUpdate(EngineerRanks(n, es), e, EngineerRank(n, next));
    assert EngineerRanks(n, es[e := next]) == EngineerRanks(n, es)[e := EngineerRank(n, next)];
  }

  lemma SiteRankAfter(sites: seq<Site>, p: nat, next: Site)
    requires p < |sites|
    ensures Sum(SiteRanks(sites[p := next])) == Sum(SiteRanks(sites)) - SiteRank(sites[p]) + SiteRank(next)
  {
    SumUpdate(SiteRanks(sites), p, SiteRank(next));
    assert SiteRanks(sites[p := next]) == SiteRanks(sites)[p := SiteRank(next)];
  }

  /** Handling and reporting leave the satellite's own thread where it is. */
  lemma SiteRanksKept(s: State, e: nat)
    requires Inv(s) && Enabled(s, AnEngineer(e))
    ensures SiteRanks(EngineerStep(s, e).sites) == SiteRanks(s.sites)
  {
  }

  /** An engineer that does not claim gets nearer to the end of its loop. */
  lemma EngineerRankFalls(s: State, e: nat)
    requires Inv(s) && Enabled(s, AnEngineer(e)) && EngineerStep(s, e).claims == s.claims
    ensures EngineerRank(|s.sites|, EngineerStep(s, e).engineers[e]) < EngineerRank(|s.sites|, s.engineers[e])
  {
  }

  lemma EngineerFrame(s: State, e: nat)
    requires e < |s.engineers|
    ensures var s' := EngineerStep(s, e);
            && |s'.sites| == |s.sites| && |s'.engineers| == |s.engineers|
            && s'.engineers == s.engineers[e := s'.engineers[e]]
            && (s'.claims == s.claims || |s'.claims| == |s.claims| + 1)
  {
  }

  lemma EngineerLowers(s: State, e: nat)
    requires Inv(s) && Enabled(s, AnEngineer(e))
    ensures var s' := EngineerStep(s, e);
            |s'.claims| > |s.claims| || (|s'.claims| == |s.claims| && Rank(s') < Rank(s))
  {
    var s' := EngineerStep(s, e);
    EngineerFrame(s, e);
    EngineerRankAfter(|s.sites|, s.engineers, e, s'.engineers[e]);
    SiteRanksKept(s, e);
    if s'.claims == s.claims { EngineerRankFalls(s, e); }
  }

  lemma SatelliteLowers(s: State, a: Actor)
    requires Enabled(s, a) && !a.AnEngineer?
    ensures var s' := Step(s, a);
            s'.claims == s.claims && Rank(s') < Rank(s)
  {
    var s' := Step(s, a);
    SiteRankAfter(s.sites, a.p, s'.sites[a.p]);
    assert s'.sites == s.sites[a.p := s'.sites[a.p]];
  }

  lemma StageOrRank(s: State, a: Actor)
    requires Inv(s) && Enabled(s, a)
    ensures var s' := Step(s, a);
            && |s'.sites| == |s.sites| && |s'.engineers| == |s.engineers|
            && (|s'.claims| > |s.claims| || (|s'.claims| == |s.claims| && Rank(s') < Rank(s)))
            && |s'.claims| <= |s.sites|
  {
    match a {
      case AnEngineer(e) => EngineerLowers(s, e);
      case _ => SatelliteLowers(s, a);
    }
    StepKeeps(s, a);
    StepGrows(s, a);
    Pigeonhole(Places(Step(s, a).claims), |s.sites|);
  }

  lemma Lexicographic(stage': nat, rank': nat, stage: nat, rank: nat, unit: nat)
    requires rank' < unit && (stage' < stage || (stage' == stage && rank' < rank))
    ensures 0 <= stage' * unit + rank' < stage * unit + rank
  {
    if stage' < stage { MulStep(stage', stage, unit); }
  }

  lemma MeasureDecreases(s: State, a: Actor)
    requires Inv(s) && Enabled(s, a)
    ensures 0 <= Measure(Step(s, a)) < Measure(s)
  {
    var s' := Step(s, a);
    StageOrRank(s, a);
    RankBound(s');
    Lexicographic(|s.sites| - |s'.claims|, Rank(s'), |s.sites| - |s.claims|, Rank(s), Unit(|s.sites|, |s.engineers|));
  }

  ghost predicate Productive(s: State, schedule: seq<Actor>) {
    schedule == [] ||
    (Productive(s, schedule[..|schedule| - 1]) && Enabled(Execute(s, schedule[..|schedule| - 1]), schedule[|schedule| - 1]))
  }

  /** All loops end: no run of real steps is longer than the measure of its start. */
  lemma {:induction false} RunsEnd(s: State, schedule: seq<Actor>)
    requires Inv(s) && Productive(s, schedule)
    ensures |schedule| + Measure(Execute(s, schedule)) <= Measure(s)
  {
    if schedule != [] {
      var before := schedule[..|schedule| - 1];
      RunsEnd(s, before);
      ExecuteKeeps(s, before);
      MeasureDecreases(Execute(s, before), schedule[|schedule| - 1]);
    }
  }
}
