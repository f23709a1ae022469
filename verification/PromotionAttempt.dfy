/** One promotion attempt as the producer runs it, and why it is an attempt of the step machine. */
module PromotionAttempt {
  import opened Common
  import opened GitProbe
  import opened GitRepository
  import opened Producer
  import opened Promotion
  import opened PromotionSafety

  /** How many more steps an attempt can take. */
  function StepsLeft(phase: Phase): nat {
    match phase
    case CheckSubmodules => 17
    case ComparePin => 16
    case StagedRoot => 15
    case StagedStatus => 14
    case StagedHead => 13
    case StagedAncestry(_) => 12
    case CanonicalRoot => 11
    case CanonicalStatus => 10
    case CanonicalHead => 9
    case ProbeBranch(_) => 8
    case ProbeReflog(_, _) => 7
    case Swap(_, _) => 6
    case Sync => 5
    case FinalRoot => 4
    case FinalStatus => 3
    case FinalHead => 2
    case FinalAncestry(_) => 1
    case RefuseAtHead(_) => 1
    case LostSwap(_) => 1
    case Ended(_) => 0
  }

  lemma EveryObservationCounts(p: Promotion, phase: Phase, r: Repo, ending: Ending)
    requires !phase.Ended? && !Writes(phase)
    ensures StepsLeft(Observe(p, phase, r, ending)) < StepsLeft(phase)
  {
  }

  lemma EveryStepCounts(p: Promotion, phase: Phase, r: Repo, turn: Turn)
    requires !phase.Ended?
    ensures StepsLeft(Advance(p, phase, r, turn).0) < StepsLeft(phase)
  {
    if !Writes(phase) {
      EveryObservationCounts(p, phase, r, turn.ending);
    }
  }

  /** An attempt played to its end against everything the script lets happen around it. */
  function Play(p: Promotion, phase: Phase, script: Script<Repo>, m: Moment<Repo>): (End, Moment<Repo>)
    decreases StepsLeft(phase)
  {
    if phase.Ended? then (phase.end, m)
    else
      var now := Next(script, m);
      var (next, repo) := Advance(p, phase, now.state, TurnOf(script, m));
      EveryStepCounts(p, phase, now.state, TurnOf(script, m));
      Play(p, next, script, now.(state := repo))
  }

  /** An attempt from its first step ends within seventeen. */
  lemma {:induction false} PlayIsBounded(p: Promotion, phase: Phase, script: Script<Repo>, m: Moment<Repo>)
    ensures Play(p, phase, script, m).1.clock <= m.clock + StepsLeft(phase)
    decreases StepsLeft(phase)
  {
    if !phase.Ended? {
      var now := Next(script, m);
      var (next, repo) := Advance(p, phase, now.state, TurnOf(script, m));
      EveryStepCounts(p, phase, now.state, TurnOf(script, m));
      PlayIsBounded(p, next, script, now.(state := repo));
    }
  }

  lemma PlayStep(p: Promotion, phase: Phase, script: Script<Repo>, m: Moment<Repo>)
    requires !phase.Ended?
    ensures var now := Next(script, m);
            var (next, repo) := Advance(p, phase, now.state, TurnOf(script, m));
            Play(p, phase, script, m) == Play(p, next, script, now.(state := repo))
  {
  }

  // ------------------------------------------------------------ the producer

  /** The pin gate: filesystem reads only. */
  method ConfigBlock(w: World<Repo>, p: Promotion) returns (r: Result<Option<Reason>, Failure>)
    modifies w
    ensures w.Now() == Next(w.script, old(w.Now()))
    ensures AfterComparison(p, w.state, TurnOf(w.script, old(w.Now())).ending)
         == match r
            case Err(why) => Fail(why)
            case Ok(None) => StagedRoot
            case Ok(Some(reason)) => RefuseAtHead(reason)
  {
    var turn := w.Meet();
    if p.pin.None? {
      return Ok(Some(RepositoryConfigUnpinned));
    }
    if turn.ending.NeverObserved? {
      return Err(ReadFailed);
    }
    var difference := FirstDifference(p.pin.value, w.state.config);
    if difference.Some? {
      return Ok(Some(RepositoryConfigChanged(difference.value)));
    }
    return Ok(None);
  }

  /** The branch HEAD names, if it is on one. */
  method CanonicalBranchRef(w: World<Repo>) returns (r: Result<Option<RefName>, Failure>)
    modifies w
    ensures w.Now() == Next(w.script, old(w.Now()))
    ensures r == match Ask(TurnOf(w.script, old(w.Now())).ending, w.state.head.OnBranch?)
                 case Err(e) => Err(Unknown(e))
                 case Ok(false) => Ok(None)
                 case Ok(true) => if LocalBranch(w.state.head.ref) then Ok(Some(w.state.head.ref))
                                  else Err(NotALocalBranch)
  {
    var turn := w.Meet();
    var onBranch := Ask(turn.ending, w.state.head.OnBranch?);
    LostProbesDoNotAnswer(turn.ending, w.state.head.OnBranch?);
    if onBranch.Err? {
      return Err(Unknown(onBranch.error));
    }
    if !onBranch.value {
      return Ok(None);
    }
    if !LocalBranch(w.state.head.ref) {
      return Err(NotALocalBranch);
    }
    return Ok(Some(w.state.head.ref));
  }

  method BranchCarriesThisPromotion(w: World<Repo>, p: Promotion, branch: RefName)
    returns (r: Result<bool, Failure>)
    modifies w
    ensures w.Now() == Next(w.script, old(w.Now()))
    ensures r == match Ask(TurnOf(w.script, old(w.Now())).ending, branch in w.state.refs)
                 case Err(e) => Err(Unknown(e))
                 case Ok(found) => Ok(found && Carries(Reflog(w.state, branch), p.accepted, Subject(p)))
  {
    var turn := w.Meet();
    var found := Ask(turn.ending, branch in w.state.refs);
    if found.Err? {
      return Err(Unknown(found.error));
    }
    if !found.value {
      return Ok(false);
    }
    var carried := BranchCarries(Newest(Reflog(w.state, branch)), p.accepted, Subject(p));
    return Ok(carried);
  }

  method CompareAndSwap(w: World<Repo>, p: Promotion, head: Oid, branch: RefName)
    returns (r: Result<bool, Failure>)
    modifies w
    ensures var now := Next(w.script, old(w.Now()));
            var (phase, repo) := AttemptSwap(p, head, branch, now.state, TurnOf(w.script, old(w.Now())));
            && w.Now() == now.(state := repo)
            && phase == match r
                        case Err(why) => Dispatched(why)
                        case Ok(swapped) => if swapped then Sync else LostSwap(head)
  {
    var turn := w.Meet();
    var ready := At(w.state, branch, p.initial);
    var swapped := Ask(turn.ending, ready);
    LostProbesDoNotAnswer(turn.ending, ready);
    var unconfirmed := (swapped.Err? || Signalled(turn.ending)) && ready && turn.moved;
    if swapped == Ok(true) || unconfirmed {
      w.state := Swapped(w.state, branch, p.accepted, Subject(p));
    }
    if swapped.Err? {
      return Err(Unknown(swapped.error));
    }
    return Ok(swapped.value);
  }

  method SyncCanonicalWorktree(w: World<Repo>, p: Promotion) returns (r: Option<Failure>)
    modifies w
    ensures var now := Next(w.script, old(w.Now()));
            var (phase, repo) := AttemptSync(p, now.state, TurnOf(w.script, old(w.Now())));
            && w.Now() == now.(state := repo)
            && phase == match r
                        case Some(why) => Dispatched(why)
                        case None => FinalRoot
  {
    var turn := w.Meet();
    var synced := Ask(turn.ending, true);
    if synced == Ok(true) || turn.moved {
      w.state := HeadMoved(w.state, p.accepted, turn.logged);
    }
    w.state := w.state.(worktree := if synced == Ok(true) then p.objects.tree(p.accepted) else turn.worktree);
    if synced.Err? {
      return Some(Unknown(synced.error));
    }
    return if synced.value then None else Some(SyncFailed);
  }

  /** What a lost swap reports: the head it can still read, or the one seen before. */
  method ObserveLostHead(w: World<Repo>, head: Oid) returns (seen: Oid)
    modifies w
    ensures w.Now() == Next(w.script, old(w.Now()))
    ensures AfterLostSwap(w.state, head, TurnOf(w.script, old(w.Now())).ending)
         == Ended(Done(Blocked(seen, ConcurrentBranchUpdate)))
  {
    var turn := w.Meet();
    var observed := HeadProbe(CanonicalCheckout(w.state), turn.ending);
    LostProbesDoNotAnswer(turn.ending, true);
    seen := if observed.Ok? then observed.value else head;
  }

  /** Everything before the branch is looked at: gates and observations. */
  method PassGates(w: World<Repo>, p: Promotion) returns (r: Result<Oid, End>)
    modifies w
    ensures match r
            case Ok(head) => Play(p, CheckSubmodules, w.script, old(w.Now()))
                          == Play(p, ProbeBranch(head), w.script, w.Now())
            case Err(end) => Play(p, CheckSubmodules, w.script, old(w.Now())) == (end, w.Now())
  {
    var turn := w.Meet();
    if turn.ending.NeverObserved? {
      return Err(Failed(false, ReadFailed));
    }
    if w.state.submodules {
      return Err(Failed(false, SubmoduleConfiguration));
    }
    ghost var before := w.Now();
    var block := ConfigBlock(w, p);
    if block.Err? {
      return Err(Failed(false, block.error));
    }
    if block.value.Some? {
      turn := w.Meet();
      if turn.ending.NeverObserved? || HeadOid(w.state).None? {
        return Err(Failed(false, ReadFailed));
      }
      return Err(Done(Blocked(HeadOid(w.state).value, block.value.value)));
    }
    ghost var pinned := w.Now();
    StagedIsFourPhases(p, w.script, pinned);
    var staged := w.ObserveCleanSubject(p.objects, StagedCheckout, Some(p.initial));
    if staged.Err? {
      return Err(Failed(false, staged.error));
    }
    if staged.value != p.accepted {
      return Err(Failed(false, StagedHeadMismatch));
    }
    CanonicalIsThreePhases(p, w.script, w.Now());
    var head := w.ObserveCleanSubject(p.objects, CanonicalCheckout, None);
    if head.Err? {
      return Err(Failed(false, head.error));
    }
    return Ok(head.value);
  }

  /** Everything from the swap on. */
  method Dispatch(w: World<Repo>, p: Promotion, head: Oid, branch: RefName) returns (end: End)
    modifies w
    ensures (end, w.Now()) == Play(p, Swap(head, branch), w.script, old(w.Now()))
  {
    PlayStep(p, Swap(head, branch), w.script, w.Now());
    var swapped := CompareAndSwap(w, p, head, branch);
    if swapped.Err? {
      return Failed(true, swapped.error);
    }
    if !swapped.value {
      PlayStep(p, LostSwap(head), w.script, w.Now());
      var seen := ObserveLostHead(w, head);
      return Done(Blocked(seen, ConcurrentBranchUpdate));
    }
    PlayStep(p, Sync, w.script, w.Now());
    var failed := SyncCanonicalWorktree(w, p);
    if failed.Some? {
      return Failed(true, failed.value);
    }
    FinalIsFourPhases(p, w.script, w.Now());
    var promoted := w.ObserveCleanSubject(p.objects, CanonicalCheckout, Some(p.initial));
    if promoted.Err? {
      return Failed(true, promoted.error);
    }
    if promoted.value != p.accepted {
      return Failed(true, NotLanded);
    }
    return Done(Promoted);
  }

  /** Looks for the branch, and for a landed swap of this promotion on it. */
  method FindBranch(w: World<Repo>, p: Promotion, head: Oid) returns (r: Result<RefName, End>)
    modifies w
    ensures match r
            case Ok(branch) => Play(p, ProbeBranch(head), w.script, old(w.Now()))
                            == Play(p, Swap(head, branch), w.script, w.Now())
            case Err(end) => Play(p, ProbeBranch(head), w.script, old(w.Now())) == (end, w.Now())
  {
    PlayStep(p, ProbeBranch(head), w.script, w.Now());
    var branch := CanonicalBranchRef(w);
    if branch.Err? {
      return Err(Failed(false, branch.error));
    }
    if branch.value.None? {
      return Err(Done(Blocked(head, DetachedHead)));
    }
    if head == p.accepted {
      PlayStep(p, ProbeReflog(head, branch.value.value), w.script, w.Now());
      var carried := BranchCarriesThisPromotion(w, p, branch.value.value);
      if carried.Err? {
        return Err(Failed(false, carried.error));
      }
      if carried.value {
        return Err(Done(Promoted));
      }
    }
    if head != p.initial {
      return Err(Done(Blocked(head, CanonicalHeadMoved)));
    }
    return Ok(branch.value.value);
  }

  /** Whatever happens around it, the producer does what the step machine does. */
  method PromoteGovernedOutcome(w: World<Repo>, p: Promotion) returns (end: End)
    modifies w
    ensures (end, w.Now()) == Play(p, CheckSubmodules, w.script, old(w.Now()))
  {
    var head := PassGates(w, p);
    if head.Err? {
      return head.error;
    }
    var branch := FindBranch(w, p, head.value);
    if branch.Err? {
      return branch.error;
    }
    end := Dispatch(w, p, head.value, branch.value);
  }

  // ------------------------- a clean observation is three or four machine steps

  lemma StagedIsFourPhases(p: Promotion, script: Script<Repo>, m: Moment<Repo>)
    ensures var (head, end) := ObserveClean(p.objects, StagedCheckout, Some(p.initial), script, m);
            Play(p, StagedRoot, script, m)
            == Play(p, AfterAncestry(p, head, CanonicalRoot, StagedHeadMismatch, false), script, end)
  {
    StagedHeadIsTwoPhases(p, script, Next(script, Next(script, m)));
  }

  lemma StagedHeadIsTwoPhases(p: Promotion, script: Script<Repo>, m: Moment<Repo>)
    ensures var (head, end) := ObserveHead(p.objects, StagedCheckout, Some(p.initial), script, m);
            Play(p, StagedHead, script, m)
            == Play(p, AfterAncestry(p, head, CanonicalRoot, StagedHeadMismatch, false), script, end)
  {
  }

  lemma CanonicalIsThreePhases(p: Promotion, script: Script<Repo>, m: Moment<Repo>)
    ensures var (head, end) := ObserveClean(p.objects, CanonicalCheckout, None, script, m);
            Play(p, CanonicalRoot, script, m)
            == Play(p, AfterHead(head, oid => ProbeBranch(oid), false), script, end)
  {
  }

  lemma FinalIsFourPhases(p: Promotion, script: Script<Repo>, m: Moment<Repo>)
    ensures var (head, end) := ObserveClean(p.objects, CanonicalCheckout, Some(p.initial), script, m);
            Play(p, FinalRoot, script, m)
            == Play(p, AfterAncestry(p, head, Ended(Done(Promoted)), NotLanded, true), script, end)
  {
    FinalHeadIsTwoPhases(p, script, Next(script, Next(script, m)));
  }

  lemma FinalHeadIsTwoPhases(p: Promotion, script: Script<Repo>, m: Moment<Repo>)
    ensures var (head, end) := ObserveHead(p.objects, CanonicalCheckout, Some(p.initial), script, m);
            Play(p, FinalHead, script, m)
            == Play(p, AfterAncestry(p, head, Ended(Done(Promoted)), NotLanded, true), script, end)
  {
  }

  // ----------------------------------------------- an attempt is part of a run

  /** What the script lets happen is what other writers may do. */
  ghost predicate Lawful(p: Promotion, script: Script<Repo>) {
    forall k: nat, r: Repo :: Marked(p, script(k).arrive(r)) ==> Marked(p, r)
  }

  /** The run after everyone else and then attempt `i` have acted once. */
  ghost function Longer(p: Promotion, run: Run, i: nat, meeting: Meeting<Repo>): Run
    requires Active(run.state, i)
  {
    var s := run.state;
    var arrived := System(meeting.arrive(s.repo), s.attempts);
    var (phase, repo) := Advance(p, s.attempts[i], arrived.repo, meeting.turn);
    Then(Then(run, Foreign, arrived), Act(i, meeting.turn), System(repo, s.attempts[i := phase]))
  }

  lemma LongerIsValid(p: Promotion, run: Run, i: nat, meeting: Meeting<Repo>)
    requires Valid(p, run) && Active(run.state, i)
    requires Marked(p, meeting.arrive(run.state.repo)) ==> Marked(p, run.state.repo)
    ensures Valid(p, Longer(p, run, i, meeting))
  {
  }

  /** Attempt `i`, played from where a run leaves it. */
  ghost function Continue(p: Promotion, run: Run, i: nat, script: Script<Repo>, clock: nat): Run
    requires i < |run.state.attempts|
    decreases StepsLeft(run.state.attempts[i])
  {
    if run.state.attempts[i].Ended? then run
    else
      EveryStepCounts(p, run.state.attempts[i], script(clock).arrive(run.state.repo), script(clock).turn);
      Continue(p, Longer(p, run, i, script(clock)), i, script, clock + 1)
  }

  /**
   * Every play of the producer is a run of the step machine with the same end, so what holds of
   * every run holds of every call.
   */
  lemma {:induction false} PlayIsARun(p: Promotion, run: Run, i: nat, script: Script<Repo>, clock: nat)
    requires Valid(p, run) && Lawful(p, script) && i < |run.state.attempts|
    ensures var after := Continue(p, run, i, script, clock);
            var (end, m) := Play(p, run.state.attempts[i], script, Moment(run.state.repo, clock));
            && Valid(p, after) && i < |after.state.attempts|
            && after.state.attempts[i] == Ended(end) && after.state.repo == m.state
    decreases StepsLeft(run.state.attempts[i])
  {
    if !run.state.attempts[i].Ended? {
      LongerIsValid(p, run, i, script(clock));
      LongerPlays(p, run, i, script, clock);
      PlayIsARun(p, Longer(p, run, i, script(clock)), i, script, clock + 1);
    }
  }

  /** Playing on from the longer run is playing on from the run. */
  lemma {:induction false} LongerPlays(p: Promotion, run: Run, i: nat, script: Script<Repo>, clock: nat)
    requires Active(run.state, i)
    ensures var longer := Longer(p, run, i, script(clock)).state;
            && StepsLeft(longer.attempts[i]) < StepsLeft(run.state.attempts[i])
            && Play(p, run.state.attempts[i], script, Moment(run.state.repo, clock))
               == Play(p, longer.attempts[i], script, Moment(longer.repo, clock + 1))
  {
    EveryStepCounts(p, run.state.attempts[i], script(clock).arrive(run.state.repo), script(clock).turn);
    PlayStep(p, run.state.attempts[i], script, Moment(run.state.repo, clock));
  }

  /** A repository in which one request has just arrived. */
  function Requested(r: Repo): Run {
    Then(Begin(System(r, [])), Request, System(r, [CheckSubmodules]))
  }

  /**
   * What one call of the producer may be taken to say, whatever happens around it: Promoted, that
   * its own swap landed and it saw the branch there afterwards; Blocked or an undispatched error,
   * that no step of it changed anything.
   */
  lemma ProducerKeepsItsWord(p: Promotion, r: Repo, script: Script<Repo>)
    requires Lawful(p, script) && !Marked(p, r)
    ensures var (end, m) := Play(p, CheckSubmodules, script, Moment(r, 0));
            var run := Continue(p, Requested(r), 0, script, 0);
            && Valid(p, run) && run.state.repo == m.state
            && (end == Done(Promoted) ==> Landed(run) && SawAcceptedAfterLanding(p, run, 0))
            && (ClaimsNoEffect(Ended(end)) ==> (Untouched(run, 0) <==> !LandedSilently(p, run, 0)))
  {
    var run := Continue(p, Requested(r), 0, script, 0);
    assert Valid(p, Requested(r));
    PlayIsARun(p, Requested(r), 0, script, 0);
    if run.state.attempts[0] == Ended(Done(Promoted)) {
      PromotedMeansLanded(p, run, 0);
    }
    if ClaimsNoEffect(run.state.attempts[0]) {
      BlockedChangedNothing(p, run, 0);
    }
  }
}
