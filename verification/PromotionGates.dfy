/** The gates of a promotion: passed by every attempt that gets beyond them, in every run. */
module PromotionGates {
  import opened Common
  import opened GitProbe
  import opened GitRepository
  import opened Producer
  import opened Promotion
  import opened PromotionFindings

  /** What an attempt must find before it may look at a branch, and again before it reports success. */
  datatype Gate =
    | NoSubmodules
    | PinHolds
    | StagedIsRoot
    | StagedIsClean
    | StagedIsAccepted
    | AcceptedDescends
    | CanonicalIsRoot
    | CanonicalIsClean
    | CanonicalHasHead
    | FinalIsRoot
    | FinalIsClean
    | FinalIsAccepted

  /** The phase that looks at the gate. */
  predicate LooksAt(phase: Phase, gate: Gate) {
    match gate
    case NoSubmodules => phase.CheckSubmodules?
    case PinHolds => phase.ComparePin?
    case StagedIsRoot => phase.StagedRoot?
    case StagedIsClean => phase.StagedStatus?
    case StagedIsAccepted => phase.StagedHead?
    case AcceptedDescends => phase.StagedAncestry?
    case CanonicalIsRoot => phase.CanonicalRoot?
    case CanonicalIsClean => phase.CanonicalStatus?
    case CanonicalHasHead => phase.CanonicalHead?
    case FinalIsRoot => phase.FinalRoot?
    case FinalIsClean => phase.FinalStatus?
    case FinalIsAccepted => phase.FinalHead?
  }

  predicate Open(p: Promotion, r: Repo, gate: Gate) {
    match gate
    case NoSubmodules => !r.submodules
    case PinHolds => p.pin == Some(r.config)
    case StagedIsRoot => r.stagedRoot
    case StagedIsClean => p.objects.cleanAt(r.stagedTree, r.stagedHead)
    case StagedIsAccepted => r.stagedHead == p.accepted
    case AcceptedDescends => p.objects.descends(p.initial, p.accepted)
    case CanonicalIsRoot | FinalIsRoot => r.canonicalRoot
    case CanonicalIsClean | FinalIsClean =>
      HeadOid(r).Some? && p.objects.cleanAt(r.worktree, HeadOid(r).value)
    case CanonicalHasHead => HeadOid(r).Some?
    case FinalIsAccepted => HeadOid(r) == Some(p.accepted)
  }

  function Rank(gate: Gate): nat {
    match gate
    case NoSubmodules => 0
    case PinHolds => 1
    case StagedIsRoot => 2
    case StagedIsClean => 3
    case StagedIsAccepted => 4
    case AcceptedDescends => 5
    case CanonicalIsRoot => 6
    case CanonicalIsClean => 7
    case CanonicalHasHead => 8
    case FinalIsRoot => 9
    case FinalIsClean => 10
    case FinalIsAccepted => 11
  }

  /** How many gates an attempt in this phase has behind it, if it still may succeed or wrote anything. */
  function Passed(phase: Phase): nat {
    match phase
    case ComparePin | RefuseAtHead(_) => 1
    case StagedRoot => 2
    case StagedStatus => 3
    case StagedHead | StagedAncestry(_) => 4
    case CanonicalRoot => 6
    case CanonicalStatus => 7
    case CanonicalHead => 8
    case ProbeBranch(_) | ProbeReflog(_, _) | Swap(_, _) | LostSwap(_) | Sync | FinalRoot => 9
    case FinalStatus => 10
    case FinalHead | FinalAncestry(_) => 11
    case Ended(Done(Promoted)) => 9
    case Ended(Done(Blocked(_, reason))) =>
      if reason.RepositoryConfigUnpinned? || reason.RepositoryConfigChanged? then 1 else 9
    case Ended(Failed(dispatched, _)) => if dispatched then 9 else 0
    case _ => 0
  }

  /** Attempt `i` looks at the gate here, and finds it open. */
  predicate FindsOpen(p: Promotion, s: System, actor: Actor, i: nat, gate: Gate) {
    actor.Act? && actor.i == i && i < |s.attempts| && LooksAt(s.attempts[i], gate) && Open(p, s.repo, gate)
  }

  ghost predicate FoundOpen(p: Promotion, run: Run, i: nat, gate: Gate) {
    run.Then? && (FoundOpen(p, run.before, i, gate) || FindsOpen(p, run.before.state, run.actor, i, gate))
  }

  /** Attempt `i` has swapped a branch and its sync then exited cleanly. */
  ghost predicate Synced(run: Run, i: nat) {
    run.Then? && (Synced(run.before, i)
                  || (run.actor.Act? && run.actor.i == i && i < |run.before.state.attempts|
                      && run.before.state.attempts[i].Sync? && run.actor.turn.ending == CLEAN_EXIT))
  }

  /** Attempt `i` reads an existing branch's reflog here and recognises its own landed swap in it. */
  ghost predicate Recognises(p: Promotion, s: System, actor: Actor, i: nat) {
    && actor.Act? && actor.i == i && i < |s.attempts| && s.attempts[i].ProbeReflog?
    && var branch := s.attempts[i].branch;
       && actor.turn.ending == CLEAN_EXIT && branch in s.repo.refs
       && Carries(Reflog(s.repo, branch), p.accepted, Subject(p))
  }

  ghost predicate Recognised(p: Promotion, run: Run, i: nat) {
    run.Then? && (Recognised(p, run.before, i) || Recognises(p, run.before.state, run.actor, i))
  }

  /** An attempt syncs on its way to the final observation only, and then has synced. */
  ghost predicate SyncedOnTheWay(run: Run, i: nat) {
    if i >= |run.state.attempts| then !Synced(run, i)
    else
      match run.state.attempts[i]
      case FinalRoot | FinalStatus | FinalHead | FinalAncestry(_) => Synced(run, i)
      case Ended(_) => true
      case _ => !Synced(run, i)
  }

  lemma {:induction false} SyncLeadsOn(p: Promotion, phase: Phase, r: Repo, turn: Turn)
    requires !phase.Ended?
    ensures match Advance(p, phase, r, turn).0
            case FinalRoot => phase.Sync? && turn.ending == CLEAN_EXIT
            case FinalStatus | FinalHead | FinalAncestry(_) =>
              phase.FinalRoot? || phase.FinalStatus? || phase.FinalHead?
            case Ended(_) => true
            case _ =>
              !phase.Sync? && !phase.FinalRoot? && !phase.FinalStatus? && !phase.FinalHead? && !phase.FinalAncestry?
  {
  }

  lemma {:induction false} SyncedAlways(p: Promotion, run: Run, i: nat)
    requires Valid(p, run)
    ensures SyncedOnTheWay(run, i)
  {
    if run.Then? {
      SyncedAlways(p, run.before, i);
      if run.actor.Act? && run.actor.i == i {
        SyncLeadsOn(p, run.before.state.attempts[i], run.before.state.repo, run.actor.turn);
      }
    }
  }

  /** Success is reported after a sync that exited cleanly, or for a landed swap that was recognised. */
  lemma {:induction false} PromotedBySyncOrRecognition(p: Promotion, run: Run, i: nat)
    requires Valid(p, run) && i < |run.state.attempts| && run.state.attempts[i] == Ended(Done(Promoted))
    ensures Synced(run, i) || Recognised(p, run, i)
  {
    if run.actor.Act? && run.actor.i == i {
      SyncedAlways(p, run.before, i);
      PromotedStep(p, run.before.state.attempts[i], run.before.state.repo, run.actor.turn);
    } else {
      PromotedBySyncOrRecognition(p, run.before, i);
    }
  }

  lemma {:induction false} PromotedStep(p: Promotion, phase: Phase, r: Repo, turn: Turn)
    requires !phase.Ended? && Advance(p, phase, r, turn).0 == Ended(Done(Promoted))
    ensures phase.FinalAncestry?
            || (phase.ProbeReflog? && turn.ending == CLEAN_EXIT && phase.branch in r.refs
                && Carries(Reflog(r, phase.branch), p.accepted, Subject(p)))
  {
    if phase.ProbeReflog? {
      LostProbesDoNotAnswer(turn.ending, phase.branch in r.refs);
    }
  }

  /** What an attempt read of a commit and still carries along. */
  predicate HasRead(p: Promotion, phase: Phase, gate: Gate) {
    || (gate.StagedIsAccepted? && phase.StagedAncestry? && phase.oid == p.accepted)
    || (gate.FinalIsAccepted? && phase.FinalAncestry? && phase.oid == p.accepted)
  }

  /** One step passes no gate that it does not look at and find open. */
  lemma {:induction false} StepPassesOpenGates(p: Promotion, phase: Phase, r: Repo, turn: Turn, gate: Gate)
    requires !phase.Ended? && RefusesForConfig(phase)
    ensures var next := Advance(p, phase, r, turn).0;
            && RefusesForConfig(next)
            && (Rank(gate) < Passed(next) || HasRead(p, next, gate) ==>
                  || Rank(gate) < Passed(phase) || HasRead(p, phase, gate)
                  || (LooksAt(phase, gate) && Open(p, r, gate)))
  {
    if !Writes(phase) {
      ObservationPassesOpenGates(p, phase, r, turn.ending, gate);
    }
  }

  lemma {:induction false} ObservationPassesOpenGates(p: Promotion, phase: Phase, r: Repo, ending: Ending, gate: Gate)
    requires !phase.Ended? && !Writes(phase) && RefusesForConfig(phase)
    ensures var next := Observe(p, phase, r, ending);
            && RefusesForConfig(next)
            && (Rank(gate) < Passed(next) || HasRead(p, next, gate) ==>
                  || Rank(gate) < Passed(phase) || HasRead(p, phase, gate)
                  || (LooksAt(phase, gate) && Open(p, r, gate)))
  {
  }

  /** Success reported after a sync has the accepted commit read, by then, as HEAD. */
  lemma {:induction false} PromotedHasRead(p: Promotion, phase: Phase, r: Repo, turn: Turn)
    requires !phase.Ended? && Advance(p, phase, r, turn).0 == Ended(Done(Promoted))
    ensures phase.ProbeReflog? || HasRead(p, phase, FinalIsAccepted)
  {
    if phase.FinalAncestry? {
      LostProbesDoNotAnswer(turn.ending, p.objects.descends(p.initial, phase.oid));
    }
  }

  /** Every gate the attempt has behind it was found open when it looked; after a sync, all of them. */
  ghost predicate Gated(p: Promotion, run: Run, i: nat) {
    i < |run.state.attempts| ==>
      var phase := run.state.attempts[i];
      && RefusesForConfig(phase)
      && (forall gate: Gate :: Rank(gate) < Passed(phase) || HasRead(p, phase, gate) ==> FoundOpen(p, run, i, gate))
      && (phase == Ended(Done(Promoted)) && Synced(run, i) ==> forall gate: Gate :: FoundOpen(p, run, i, gate))
  }

  lemma {:induction false} GatedStep(p: Promotion, run: Run, i: nat)
    requires Valid(p, run) && run.Then? && Gated(p, run.before, i) && SyncedOnTheWay(run.before, i)
    requires run.actor.Act? && run.actor.i == i
    ensures Gated(p, run, i)
  {
    var s, next := run.before.state, run.state.attempts[i];
    forall gate: Gate
      ensures RefusesForConfig(next)
      ensures Rank(gate) < Passed(next) || HasRead(p, next, gate) ==> FoundOpen(p, run, i, gate)
    {
      StepPassesOpenGates(p, s.attempts[i], s.repo, run.actor.turn, gate);
    }
    if next == Ended(Done(Promoted)) && Synced(run, i) {
      PromotedHasRead(p, s.attempts[i], s.repo, run.actor.turn);
      forall gate: Gate ensures FoundOpen(p, run, i, gate) {
        assert Rank(gate) < Passed(s.attempts[i]) || HasRead(p, s.attempts[i], gate);
      }
    }
  }

  /**
   * Over every run, an attempt that looked at a branch, wrote anything, promoted or was blocked
   * by the state of a branch had found every gate before that open, each as it looked: no
   * submodules, the pin equal, the staged tree a clean root at the accepted commit, which descends
   * from the initial one, the canonical tree a clean root with a HEAD. One that promoted after a
   * sync found the canonical tree, again, a clean root, and at the accepted commit.
   */
  lemma {:induction false} GatesWereOpen(p: Promotion, run: Run, i: nat)
    requires Valid(p, run)
    ensures Gated(p, run, i)
  {
    if run.Then? {
      GatesWereOpen(p, run.before, i);
      SyncedAlways(p, run.before, i);
      if run.actor.Act? && run.actor.i == i {
        GatedStep(p, run, i);
      }
    }
  }

  // -------------------------------------------------- what a swap is aimed at

  /** Attempt `i` probed HEAD while it named this branch. */
  ghost predicate SawBranch(run: Run, i: nat, branch: RefName) {
    run.Then? && (SawBranch(run.before, i, branch)
                  || (run.actor.Act? && run.actor.i == i && i < |run.before.state.attempts|
                      && run.before.state.attempts[i].ProbeBranch?
                      && run.before.state.repo.head == OnBranch(branch)))
  }

  /**
   * Over every run, a swap is aimed only from the initial commit and only at a local branch that
   * HEAD named when the attempt probed it; the reflog is consulted only at the accepted commit.
   */
  lemma {:induction false} SwapsAreAimed(p: Promotion, run: Run, i: nat)
    requires Valid(p, run)
    ensures i < |run.state.attempts| ==>
              match run.state.attempts[i]
              case Swap(head, branch) => head == p.initial && LocalBranch(branch) && SawBranch(run, i, branch)
              case ProbeReflog(head, branch) => head == p.accepted && LocalBranch(branch) && SawBranch(run, i, branch)
              case _ => true
  {
    if run.Then? {
      SwapsAreAimed(p, run.before, i);
      if run.actor.Act? && run.actor.i == i {
        AimStep(p, run.before.state.attempts[i], run.before.state.repo, run.actor.turn);
      }
    }
  }

  lemma {:induction false} AimStep(p: Promotion, phase: Phase, r: Repo, turn: Turn)
    requires !phase.Ended?
    ensures match Advance(p, phase, r, turn).0
            case Swap(head, branch) =>
              head == p.initial && ((phase.ProbeReflog? && phase.branch == branch)
                                    || (phase.ProbeBranch? && LocalBranch(branch) && r.head == OnBranch(branch)))
            case ProbeReflog(head, branch) =>
              head == p.accepted && phase.ProbeBranch? && LocalBranch(branch) && r.head == OnBranch(branch)
            case _ => true
  {
    LostProbesDoNotAnswer(turn.ending, r.head.OnBranch?);
  }
}
