/** On which branch a promotion landed, and that a promoted attempt saw that very branch. */
module PromotionLanding {
  import opened Common
  import opened GitRepository
  import opened Producer
  import opened Promotion
  import opened PromotionSafety

  /** Other writers put the promotion's subject on no branch that does not have it. */
  ghost predicate PerReflog(p: Promotion, run: Run) {
    run.Then? ==>
      && PerReflog(p, run.before)
      && (run.actor.Foreign? ==>
            forall branch :: MarkedIn(p, run.state.repo, branch) ==> MarkedIn(p, run.before.state.repo, branch))
  }

  /** A swap of this promotion took effect on `branch` at this step. */
  ghost predicate LandsHereOn(s: System, actor: Actor, t: System, branch: RefName) {
    LandsHere(s, actor, t) && s.attempts[actor.i].branch == branch
  }

  ghost predicate LandedOn(run: Run, branch: RefName) {
    run.Then? && (LandedOn(run.before, branch) || LandsHereOn(run.before.state, run.actor, run.state, branch))
  }

  /** A reflog subject names the exact move: no other promotion, even to the same commit, has it. */
  lemma {:induction false} SubjectNamesTheMove(p: Promotion, q: Promotion)
    requires '.' !in p.initial && '.' !in p.accepted && '.' !in q.initial && '.' !in q.accepted
    requires Subject(p) == Subject(q)
    ensures p.initial == q.initial && p.accepted == q.accepted
  {
    var head := "impulse governed promotion ";
    assert Subject(p) == (head + p.initial + ".") + ['.'] + p.accepted;
    assert Subject(q) == (head + q.initial + ".") + ['.'] + q.accepted;
    LastSeparatorSplits('.', head + p.initial + ".", p.accepted, head + q.initial + ".", q.accepted);
    assert |p.initial| == |q.initial|;
    SplitEqual(head + p.initial, ".", head + q.initial, ".");
    SplitEqual(head, p.initial, head, q.initial);
  }

  // ----------------------------------------- an entry on a branch names a landing there

  lemma {:induction false} SwapMarksItsBranch(p: Promotion, r: Repo, ref: RefName, branch: RefName)
    requires MarkedIn(p, Swapped(r, ref, p.accepted, Subject(p)), branch)
    ensures MarkedIn(p, r, branch) || branch == ref
  {
    assert branch != ref ==> Reflog(Swapped(r, ref, p.accepted, Subject(p)), branch) == Reflog(r, branch);
  }

  lemma {:induction false} SyncMarksNoBranch(p: Promotion, r: Repo, turn: Turn, branch: RefName)
    requires MarkedIn(p, AttemptSync(p, r, turn).1, branch)
    ensures MarkedIn(p, r, branch)
  {
    var after, moved := AttemptSync(p, r, turn).1, HeadMoved(r, p.accepted, turn.logged);
    SyncMovesHeadOrNothing(p, r, turn);
    if SameRefs(after, moved) {
      assert Reflog(after, branch) == Reflog(moved, branch);
      ResetMarksNoBranch(p, r, p.accepted, turn.logged, branch);
    } else {
      assert Reflog(after, branch) == Reflog(r, branch);
    }
  }

  lemma {:induction false} MarkInStep(p: Promotion, s: System, actor: Actor, t: System, branch: RefName)
    requires Step(p, s, actor, t) && !actor.Foreign? && MarkedIn(p, t.repo, branch)
    ensures MarkedIn(p, s.repo, branch) || LandsHereOn(s, actor, t, branch)
  {
    if actor.Act? && s.attempts[actor.i].Sync? {
      SyncMarksNoBranch(p, s.repo, actor.turn, branch);
    } else if actor.Act? && s.attempts[actor.i].Swap? && t.repo != s.repo {
      LandingMovesInitialToAccepted(p, s, actor, t);
      SwapMarksItsBranch(p, s.repo, s.attempts[actor.i].branch, branch);
    }
  }

  /** The promotion's subject is in a branch's reflog only if a swap of this promotion landed on it. */
  lemma {:induction false} MarkedInMeansLandedOn(p: Promotion, run: Run, branch: RefName)
    requires Valid(p, run) && PerReflog(p, run) && MarkedIn(p, run.state.repo, branch)
    ensures LandedOn(run, branch)
  {
    MarkedInIsMarked(p, run.state.repo, branch);
    if run.Then? {
      if !run.actor.Foreign? {
        MarkInStep(p, run.before.state, run.actor, run.state, branch);
      }
      if MarkedIn(p, run.before.state.repo, branch) {
        MarkedInMeansLandedOn(p, run.before, branch);
      }
    }
  }

  // -------------------------------------------------- the branch that was seen

  /** Attempt `i` confirms its own swap of `branch` at this step. */
  predicate SwapsHere(s: System, actor: Actor, t: System, i: nat, branch: RefName) {
    ConfirmsSwap(s, actor, t) && actor.i == i && s.attempts[i].branch == branch
  }

  ghost predicate SwappedBy(run: Run, i: nat, branch: RefName) {
    run.Then? && (SwappedBy(run.before, i, branch) || SwapsHere(run.before.state, run.actor, run.state, i, branch))
  }

  /** Whenever attempt `i` reads the final HEAD, HEAD names `branch`. */
  ghost predicate HeadStays(run: Run, i: nat, branch: RefName) {
    run.Then? ==>
      && HeadStays(run.before, i, branch)
      && (run.actor.Act? && run.actor.i == i && i < |run.before.state.attempts|
          && run.before.state.attempts[i].FinalHead? ==>
            run.before.state.repo.head == OnBranch(branch))
  }

  /** Attempt `i` sees this very branch at the accepted commit. */
  predicate SeesBranch(p: Promotion, s: System, actor: Actor, i: nat, branch: RefName) {
    && actor.Act? && actor.i == i && i < |s.attempts|
    && match s.attempts[i]
       case FinalHead => s.repo.head == OnBranch(branch) && At(s.repo, branch, p.accepted)
       case ProbeReflog(_, probed) => probed == branch && Carries(Reflog(s.repo, branch), p.accepted, Subject(p))
       case _ => false
  }

  /** Attempt `i` saw `branch` at the accepted commit after a swap landed on it. */
  ghost predicate SawLanded(p: Promotion, run: Run, i: nat, branch: RefName) {
    run.Then? &&
      (SawLanded(p, run.before, i, branch)
       || (LandedOn(run.before, branch) && SeesBranch(p, run.before.state, run.actor, i, branch)))
  }

  /** The branch a promoted attempt speaks of: it was seen there, or was swapped and HEAD then left it. */
  ghost predicate SpeaksOf(p: Promotion, run: Run, i: nat, branch: RefName) {
    && LandedOn(run, branch)
    && (SawLanded(p, run, i, branch) || (SwappedBy(run, i, branch) && !HeadStays(run, i, branch)))
  }

  ghost predicate OnItsWay(p: Promotion, run: Run, i: nat) {
    i < |run.state.attempts| ==>
      match run.state.attempts[i]
      case Sync | FinalRoot | FinalStatus | FinalHead =>
        exists branch :: LandedOn(run, branch) && SwappedBy(run, i, branch)
      case FinalAncestry(oid) => oid == p.accepted ==> exists branch :: SpeaksOf(p, run, i, branch)
      case Ended(Done(Promoted)) => exists branch :: SpeaksOf(p, run, i, branch)
      case _ => true
  }

  lemma {:induction false} FactsLast(p: Promotion, run: Run, i: nat, branch: RefName)
    requires run.Then?
    ensures LandedOn(run.before, branch) ==> LandedOn(run, branch)
    ensures SwappedBy(run.before, i, branch) ==> SwappedBy(run, i, branch)
    ensures SpeaksOf(p, run.before, i, branch) ==> SpeaksOf(p, run, i, branch)
  {
  }

  lemma {:induction false} FinalHeadStep(p: Promotion, run: Run, i: nat)
    requires Valid(p, run) && run.Then? && OnItsWay(p, run.before, i)
    requires run.actor.Act? && run.actor.i == i && run.before.state.attempts[i].FinalHead?
    ensures OnItsWay(p, run, i)
  {
    var s := run.before.state;
    var branch :| LandedOn(run.before, branch) && SwappedBy(run.before, i, branch);
    FactsLast(p, run, i, branch);
    if run.state.attempts[i].FinalAncestry? && run.state.attempts[i].oid == p.accepted {
      if s.repo.head == OnBranch(branch) {
        assert SeesBranch(p, s, run.actor, i, branch);
      }
      assert SpeaksOf(p, run, i, branch);
    }
  }

  lemma {:induction false} SwapStep(p: Promotion, run: Run, i: nat)
    requires Valid(p, run) && run.Then?
    requires run.actor.Act? && run.actor.i == i && run.before.state.attempts[i].Swap?
    ensures OnItsWay(p, run, i)
  {
    var s := run.before.state;
    var branch := s.attempts[i].branch;
    if run.state.attempts[i].Sync? {
      SwappedIsAChange(s.repo, branch, p.accepted, Subject(p));
      assert LandsHereOn(s, run.actor, run.state, branch) && SwapsHere(s, run.actor, run.state, i, branch);
      assert LandedOn(run, branch) && SwappedBy(run, i, branch);
    }
  }

  lemma {:induction false} ReflogStep(p: Promotion, run: Run, i: nat)
    requires Valid(p, run) && PerReflog(p, run) && run.Then?
    requires run.actor.Act? && run.actor.i == i && run.before.state.attempts[i].ProbeReflog?
    ensures OnItsWay(p, run, i)
  {
    var s := run.before.state;
    var branch := s.attempts[i].branch;
    if run.state.attempts[i] == Ended(Done(Promoted)) {
      CarriesMeans(Reflog(s.repo, branch), p.accepted, Subject(p));
      MarkedInMeansLandedOn(p, run.before, branch);
      FactsLast(p, run, i, branch);
      assert SeesBranch(p, s, run.actor, i, branch) && SpeaksOf(p, run, i, branch);
    }
  }

  lemma {:induction false} SwapsLast(run: Run, i: nat)
    requires run.Then? && exists branch :: LandedOn(run.before, branch) && SwappedBy(run.before, i, branch)
    ensures exists branch :: LandedOn(run, branch) && SwappedBy(run, i, branch)
  {
    var branch :| LandedOn(run.before, branch) && SwappedBy(run.before, i, branch);
    assert LandedOn(run, branch) && SwappedBy(run, i, branch);
  }

  lemma {:induction false} SpeechLasts(p: Promotion, run: Run, i: nat)
    requires run.Then? && exists branch :: SpeaksOf(p, run.before, i, branch)
    ensures exists branch :: SpeaksOf(p, run, i, branch)
  {
    var branch :| SpeaksOf(p, run.before, i, branch);
    FactsLast(p, run, i, branch);
  }

  lemma {:induction false} SamePhaseStep(p: Promotion, run: Run, i: nat)
    requires run.Then? && OnItsWay(p, run.before, i)
    requires i < |run.before.state.attempts| && i < |run.state.attempts|
    requires run.state.attempts[i] == run.before.state.attempts[i]
    ensures OnItsWay(p, run, i)
  {
    match run.state.attempts[i]
    case Sync | FinalRoot | FinalStatus | FinalHead => SwapsLast(run, i);
    case FinalAncestry(oid) =>
      if oid == p.accepted {
        SpeechLasts(p, run, i);
      }
    case Ended(Done(Promoted)) => SpeechLasts(p, run, i);
    case _ =>
  }

  /** Phases that neither swap nor look at the branch. */
  predicate Unremarkable(phase: Phase) {
    !phase.FinalHead? && !phase.Swap? && !phase.ProbeReflog?
  }

  /** Where such a phase leads: only onwards to what it already establishes. */
  lemma {:induction false} UnremarkableAdvance(p: Promotion, phase: Phase, r: Repo, turn: Turn)
    requires !phase.Ended? && Unremarkable(phase)
    ensures match Advance(p, phase, r, turn).0
            case Sync | FinalAncestry(_) => false
            case FinalRoot | FinalStatus | FinalHead => phase.Sync? || phase.FinalRoot? || phase.FinalStatus?
            case Ended(Done(Promoted)) => phase == FinalAncestry(p.accepted)
            case _ => true
  {
  }

  lemma {:induction false} UnremarkableStep(p: Promotion, run: Run, i: nat)
    requires Valid(p, run) && run.Then? && OnItsWay(p, run.before, i)
    requires run.actor.Act? && run.actor.i == i && Unremarkable(run.before.state.attempts[i])
    ensures OnItsWay(p, run, i)
  {
    var s := run.before.state;
    UnremarkableAdvance(p, s.attempts[i], s.repo, run.actor.turn);
    match run.state.attempts[i]
    case FinalRoot | FinalStatus | FinalHead => SwapsLast(run, i);
    case Ended(Done(Promoted)) => SpeechLasts(p, run, i);
    case _ =>
  }

  lemma {:induction false} ElsewhereStep(p: Promotion, run: Run, i: nat)
    requires Valid(p, run) && run.Then? && OnItsWay(p, run.before, i)
    requires !(run.actor.Act? && run.actor.i == i)
    ensures OnItsWay(p, run, i)
  {
    if i < |run.before.state.attempts| && run.state.attempts[i] == run.before.state.attempts[i] {
      SamePhaseStep(p, run, i);
    }
  }

  lemma {:induction false} AlwaysOnItsWay(p: Promotion, run: Run, i: nat)
    requires Valid(p, run) && PerReflog(p, run)
    ensures OnItsWay(p, run, i)
  {
    if run.Then? {
      AlwaysOnItsWay(p, run.before, i);
      if run.actor.Act? && run.actor.i == i && run.before.state.attempts[i].FinalHead? {
        FinalHeadStep(p, run, i);
      } else if run.actor.Act? && run.actor.i == i && run.before.state.attempts[i].Swap? {
        SwapStep(p, run, i);
      } else if run.actor.Act? && run.actor.i == i && run.before.state.attempts[i].ProbeReflog? {
        ReflogStep(p, run, i);
      } else if run.actor.Act? && run.actor.i == i {
        UnremarkableStep(p, run, i);
      } else {
        ElsewhereStep(p, run, i);
      }
    }
  }

  /**
   * A promoted attempt speaks of one branch on which a swap of this promotion landed. It saw that
   * very branch at the accepted commit afterwards, through its reflog or as HEAD, unless it
   * swapped the branch itself and HEAD no longer named it when the attempt looked.
   */
  lemma {:induction false} PromotedSawItsBranch(p: Promotion, run: Run, i: nat) returns (branch: RefName)
    requires Valid(p, run) && PerReflog(p, run)
    requires i < |run.state.attempts| && run.state.attempts[i] == Ended(Done(Promoted))
    ensures LandedOn(run, branch)
    ensures SawLanded(p, run, i, branch) || (SwappedBy(run, i, branch) && !HeadStays(run, i, branch))
  {
    AlwaysOnItsWay(p, run, i);
    branch :| SpeaksOf(p, run, i, branch);
  }
}
