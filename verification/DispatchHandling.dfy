/** What becomes of a claim and of a time-out: every claimed satellite is handled and told so, and a
    scan keeps its hands off the others. */
module DispatchHandling {
  import opened Dispatch

  /** Some engineer has claimed the place and has not said so yet. */
  ghost predicate JustClaimed(s: State, p: nat) {
    exists e :: 0 <= e < |s.engineers| && s.engineers[e] == Claimed(p)
  }

  /** Some engineer is at work for it. */
  ghost predicate BeingHandled(s: State, p: nat) {
    exists e :: 0 <= e < |s.engineers| && s.engineers[e] == Working(p)
  }

  predicate Busy(e: Engineer) {
    e.Claimed? || e.Working?
  }

  /** No two engineers are busy with one satellite. */
  ghost predicate OneEach(s: State) {
    forall d, e | 0 <= d < e < |s.engineers| && Busy(s.engineers[d]) && Busy(s.engineers[e]) ::
      s.engineers[d].place != s.engineers[e].place
  }

  /** A claim is either about to be noted or noted. */
  ghost predicate Noted(s: State) {
    && (forall p: nat | p < |s.sites| :: Taken(s, p) <==> s.sites[p].isHandled || JustClaimed(s, p))
    && (forall e | 0 <= e < |s.engineers| ::
          match s.engineers[e]
          case Claimed(p) => p < |s.sites| && !s.sites[p].isHandled
          case Working(p) => p < |s.sites| && s.sites[p].isHandled
          case _ => true)
  }

  /** A satellite that is still there is told once its engineer has finished, and not before. */
  ghost predicate Told(s: State) {
    forall p: nat | p < |s.sites| && !s.sites[p].thread.Done? ::
      s.sites[p].requestHandled == if s.sites[p].isHandled && !BeingHandled(s, p) then 1 else 0
  }

  /** A satellite's thread ends with one flag or the other, and the time-out flag is set at no other time. */
  ghost predicate Flagged(s: State) {
    forall p: nat | p < |s.sites| ::
      && (s.sites[p].thread.Done? ==> s.sites[p].isHandled || s.sites[p].isTimedOut)
      && (s.sites[p].isTimedOut ==> s.sites[p].thread.Done?)
  }

  ghost predicate Handling(s: State) {
    OneEach(s) && Noted(s) && Told(s) && Flagged(s)
  }

  // ----- satellites -----

  lemma SatelliteFrame(s: State, a: Actor)
    requires Enabled(s, a) && !a.AnEngineer?
    ensures var s' := Step(s, a);
            && s'.engineers == s.engineers && s'.claims == s.claims && |s'.sites| == |s.sites|
            && forall p | 0 <= p < |s.sites| :: s'.sites[p].isHandled == s.sites[p].isHandled
  {
  }

  lemma SatelliteHandling(s: State, a: Actor)
    requires Handling(s) && Enabled(s, a) && !a.AnEngineer?
    ensures Handling(Step(s, a))
  {
    var s' := Step(s, a);
    SatelliteFrame(s, a);
    assert forall p: nat :: Taken(s', p) <==> Taken(s, p);
    assert forall p: nat :: JustClaimed(s', p) <==> JustClaimed(s, p);
    assert forall p: nat :: BeingHandled(s', p) <==> BeingHandled(s, p);
    assert Noted(s') && Told(s');
  }

  // ----- engineers -----

  lemma OthersStay(s: State, e: nat)
    requires e < |s.engineers|
    ensures var s' := EngineerStep(s, e);
            |s'.engineers| == |s.engineers| && forall d | 0 <= d < |s.engineers| && d != e :: s'.engineers[d] == s.engineers[d]
  {
  }

  /** Outside of a claim and its handling, nothing of all this changes. */
  lemma LookingAround(s: State, e: nat)
    requires Inv(s) && Handling(s) && Enabled(s, AnEngineer(e)) && !Busy(s.engineers[e])
    requires EngineerStep(s, e).claims == s.claims
    ensures Handling(EngineerStep(s, e))
  {
    var s' := EngineerStep(s, e);
    OthersStay(s, e);
    assert s'.sites == s.sites && !Busy(s'.engineers[e]);
    assert forall p: nat :: Taken(s', p) <==> Taken(s, p);
    SameEngineers(s, s', e);
  }

  lemma SameEngineers(s: State, s': State, e: nat)
    requires e < |s.engineers| == |s'.engineers| && forall d | 0 <= d < |s.engineers| && d != e :: s'.engineers[d] == s.engineers[d]
    requires !Busy(s.engineers[e]) && !Busy(s'.engineers[e])
    ensures forall p: nat :: JustClaimed(s', p) <==> JustClaimed(s, p)
    ensures forall p: nat :: BeingHandled(s', p) <==> BeingHandled(s, p)
  {
    forall p: nat ensures JustClaimed(s', p) <==> JustClaimed(s, p) {
      if d :| 0 <= d < |s.engineers| && s.engineers[d] == Claimed(p) { assert s'.engineers[d] == Claimed(p); }
    }
    forall p: nat ensures BeingHandled(s', p) <==> BeingHandled(s, p) {
      if d :| 0 <= d < |s.engineers| && s.engineers[d] == Working(p) { assert s'.engineers[d] == Working(p); }
    }
  }

  lemma Claiming(s: State, e: nat)
    requires Inv(s) && Handling(s) && Enabled(s, AnEngineer(e)) && EngineerStep(s, e).claims != s.claims
    ensures Handling(EngineerStep(s, e))
  {
    var s' := EngineerStep(s, e);
    var place := s.engineers[e].i;
    OthersStay(s, e);
    TakenAfter(s, s', s'.claims[|s.claims|]);
    assert !Taken(s, place) && s'.engineers[e] == Claimed(place);
    forall p: nat ensures JustClaimed(s', p) <==> JustClaimed(s, p) || p == place {
      if d :| 0 <= d < |s.engineers| && s.engineers[d] == Claimed(p) { assert s'.engineers[d] == Claimed(p); }
    }
    forall p: nat ensures BeingHandled(s', p) <==> BeingHandled(s, p) {
      if d :| 0 <= d < |s.engineers| && s.engineers[d] == Working(p) { assert s'.engineers[d] == Working(p); }
    }
  }

  lemma Noting(s: State, e: nat)
    requires Inv(s) && Handling(s) && e < |s.engineers| && s.engineers[e].Claimed?
    ensures Handling(EngineerStep(s, e))
  {
    var s' := EngineerStep(s, e);
    var place := s.engineers[e].place;
    OthersStay(s, e);
    assert s'.engineers[e] == Working(place);
    assert forall p: nat :: Taken(s', p) <==> Taken(s, p);
    forall p: nat ensures JustClaimed(s', p) <==> JustClaimed(s, p) && p != place {
      if d :| 0 <= d < |s.engineers| && s.engineers[d] == Claimed(p) && p != place { assert s'.engineers[d] == Claimed(p); }
    }
    forall p: nat ensures BeingHandled(s', p) <==> BeingHandled(s, p) || p == place {
      if d :| 0 <= d < |s.engineers| && s.engineers[d] == Working(p) { assert s'.engineers[d] == Working(p); }
    }
  }

  lemma Finishing(s: State, e: nat)
    requires Inv(s) && Handling(s) && e < |s.engineers| && s.engineers[e].Working?
    ensures Handling(EngineerStep(s, e))
  {
    var s' := EngineerStep(s, e);
    var place := s.engineers[e].place;
    OthersStay(s, e);
    assert s'.engineers[e] == Idle;
    assert forall p: nat :: Taken(s', p) <==> Taken(s, p);
    forall p: nat ensures JustClaimed(s', p) <==> JustClaimed(s, p) {
      if d :| 0 <= d < |s.engineers| && s.engineers[d] == Claimed(p) { assert s'.engineers[d] == Claimed(p); }
    }
    forall p: nat ensures BeingHandled(s', p) <==> BeingHandled(s, p) && p != place {
      if d :| 0 <= d < |s.engineers| && s.engineers[d] == Working(p) && p != place { assert s'.engineers[d] == Working(p); }
    }
    assert BeingHandled(s, place);
  }

  lemma StepHandling(s: State, a: Actor)
    requires Inv(s) && Handling(s)
    ensures Handling(Step(s, a))
  {
    if Enabled(s, a) {
      match a {
        case AnEngineer(e) =>
          if s.engineers[e].Claimed? {
            Noting(s, e);
          } else if s.engineers[e].Working? {
            Finishing(s, e);
          } else if EngineerStep(s, e).claims != s.claims {
            Claiming(s, e);
          } else {
            LookingAround(s, e);
          }
        case _ => SatelliteHandling(s, a);
      }
    }
  }

  lemma {:induction false} AlwaysHandling(n: nat, engineers: nat, schedule: seq<Actor>)
    ensures Handling(Execute(Start(n, engineers), schedule))
  {
    if schedule != [] {
      var before := schedule[..|schedule| - 1];
      AlwaysHandling(n, engineers, before);
      ExecuteKeeps(Start(n, engineers), before);
      StepHandling(Execute(Start(n, engineers), before), schedule[|schedule| - 1]);
    }
  }

  // ----- results -----

  /** Claims come to an end: once no engineer is busy, exactly the claimed satellites are handled, and
      those that still wait have been told and can go. */
  lemma {:induction false} ClaimedAreHandled(n: nat, engineers: nat, schedule: seq<Actor>, p: nat)
    ensures var s := Execute(Start(n, engineers), schedule);
            |s.sites| == n && (p < n && (forall e | 0 <= e < |s.engineers| :: !Busy(s.engineers[e])) ==>
                                 && (s.sites[p].isHandled <==> Taken(s, p))
                                 && (Taken(s, p) && s.sites[p].thread.Waiting? ==> Enabled(s, ASatellite(p))))
  {
    ExecuteKeeps(Start(n, engineers), schedule);
    AlwaysHandling(n, engineers, schedule);
  }

  /** No thread ends unheard: a satellite that is done was handled or has said that it timed out. */
  lemma {:induction false} DoneIsFlagged(n: nat, engineers: nat, schedule: seq<Actor>, p: nat)
    ensures var s := Execute(Start(n, engineers), schedule);
            |s.sites| == n && (p < n && s.sites[p].thread.Done? ==> s.sites[p].isHandled || s.sites[p].isTimedOut)
  {
    ExecuteKeeps(Start(n, engineers), schedule);
    AlwaysHandling(n, engineers, schedule);
  }

  /** A time-out is noted exactly if the satellite is not handled at that moment. */
  lemma TimeOutNoted(s: State, p: nat)
    requires p < |s.sites| && s.sites[p].thread.TimingOut? && !s.sites[p].isTimedOut
    ensures var site := Step(s, ASatellite(p)).sites[p];
            site.thread.Done? && site.isHandled == s.sites[p].isHandled && site.isTimedOut == !site.isHandled
  {
  }

  /** A scan tries a place exactly if neither flag is set when it looks, and goes on otherwise; nobody
      but a scan that tries a place claims it. */
  lemma ScanReadsFlags(s: State, e: nat)
    requires e < |s.engineers| && s.engineers[e].Scanning? && s.engineers[e].i < |s.sites|
    ensures var s', i, late := Step(s, AnEngineer(e)), s.engineers[e].i, s.engineers[e].late;
            && s'.claims == s.claims
            && s'.engineers[e] == if s.sites[i].isHandled || s.sites[i].isTimedOut then Scanning(i + 1, late) else Trying(i, late)
  {
  }

  /** A scan that begins looks at the first place, and counts as late exactly if every satellite has posted
      its request by then. */
  lemma ScanBegins(s: State, e: nat)
    requires e < |s.engineers| && s.engineers[e].Idle? && Enabled(s, AnEngineer(e))
    ensures var next := Step(s, AnEngineer(e)).engineers[e];
            && next.Scanning? && next.i == 0
            && (next.late <==> forall p | 0 <= p < |s.sites| :: !s.sites[p].thread.Starting?)
  {
  }

  predicate LateOf(e: Engineer) {
    match e
    case Scanning(_, late) => late
    case Trying(_, late) => late
    case Gone(late) => late
    case _ => false
  }

  /** It remains so until the engineer leaves or claims, and is what the claim says. */
  lemma ScanStaysLate(s: State, a: Actor, e: nat)
    requires e < |s.engineers| && InScan(s.engineers[e])
    ensures var s' := Step(s, a);
            && |s'.engineers| == |s.engineers|
            && (InScan(s'.engineers[e]) || s'.engineers[e].Gone? ==> LateOf(s'.engineers[e]) == LateOf(s.engineers[e]))
            && (s'.engineers[e].Claimed? ==>
                  s'.claims == s.claims + [Claim(e, s'.engineers[e].place, LateOf(s.engineers[e]))])
  {
  }

  /** A scan that tries a place claims it exactly if its request is there, and goes on otherwise. */
  lemma TryMeans(s: State, e: nat)
    requires e < |s.engineers| && s.engineers[e].Trying? && s.engineers[e].i < |s.sites|
    ensures var s', i := Step(s, AnEngineer(e)), s.engineers[e].i;
            if s.sites[i].newRequest > 0
            then s'.engineers[e] == Claimed(i) && s'.sites[i].newRequest == s.sites[i].newRequest - 1 && !s'.mutex
            else s'.engineers[e].Scanning? && s'.engineers[e].i == i + 1 && s'.claims == s.claims
  {
  }

  /** An engineer leaves only when its scan has come to the end of the heap, and is back for the next
      scan when it has finished a satellite. */
  lemma LeavesAfterScan(s: State, a: Actor, e: nat)
    requires e < |s.engineers|
    ensures var s' := Step(s, a);
            && |s'.engineers| == |s.engineers|
            && (s'.engineers[e].Gone? && !s.engineers[e].Gone? ==>
                  s.engineers[e].Scanning? && s.engineers[e].i >= |s.sites|)
            && (a == AnEngineer(e) && s.engineers[e].Working? && s.engineers[e].place < |s.sites| ==> s'.engineers[e].Idle?)
  {
  }

  lemma OnlyTriersClaim(s: State, a: Actor)
    ensures var s' := Step(s, a);
            s'.claims == s.claims ||
            (&& a.AnEngineer? && a.e < |s.engineers| && s.engineers[a.e].Trying?
             && s'.claims == s.claims + [Claim(a.e, s.engineers[a.e].i, s.engineers[a.e].late)])
  {
  }
}
