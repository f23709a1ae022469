/** What a promotion reports: heads it read, reasons it met, and exactly when a finding is false. */
module PromotionFindings {
  import opened Common
  import opened GitProbe
  import opened GitRepository
  import opened Producer
  import opened Promotion

  // ------------------------------------------------------- blocked is true

  /** Attempt `i` read this commit as the canonical HEAD, in a read that was observed. */
  ghost predicate SawHead(run: Run, i: nat, oid: Oid) {
    run.Then? &&
      (SawHead(run.before, i, oid)
       || (run.actor.Act? && run.actor.i == i && !run.actor.turn.ending.NeverObserved?
           && HeadOid(run.before.state.repo) == Some(oid)))
  }

  /** What the step that gives a reason sees. */
  ghost predicate GivesReason(p: Promotion, s: System, actor: Actor, i: nat, reason: Reason) {
    && actor.Act? && actor.i == i && i < |s.attempts|
    && var ending := actor.turn.ending;
       match (reason, s.attempts[i])
       case (RepositoryConfigUnpinned, ComparePin) => p.pin.None?
       case (RepositoryConfigChanged(component), ComparePin) =>
         p.pin.Some? && FirstDifference(p.pin.value, s.repo.config) == Some(component)
       case (DetachedHead, ProbeBranch(_)) => Ask(ending, s.repo.head.OnBranch?) == Ok(false)
       case (CanonicalHeadMoved, ProbeBranch(head)) => head != p.initial
       case (CanonicalHeadMoved, ProbeReflog(head, branch)) =>
         head != p.initial && !Lost(ending) &&
         (Ask(ending, true) == Ok(true) && branch in s.repo.refs ==>
            !Carries(Reflog(s.repo, branch), p.accepted, Subject(p)))
       case (ConcurrentBranchUpdate, Swap(_, branch)) => Ask(ending, At(s.repo, branch, p.initial)) == Ok(false)
       case _ => false
  }

  ghost predicate HadReason(p: Promotion, run: Run, i: nat, reason: Reason) {
    run.Then? && (HadReason(p, run.before, i, reason) || GivesReason(p, run.before.state, run.actor, i, reason))
  }

  /** What attempt `i` carries along was seen, and what it reports was so. */
  ghost predicate Carried(p: Promotion, run: Run, i: nat) {
    i < |run.state.attempts| ==>
      match run.state.attempts[i]
      case RefuseAtHead(reason) => HadReason(p, run, i, reason)
      case ProbeBranch(head) => SawHead(run, i, head)
      case ProbeReflog(head, _) => SawHead(run, i, head)
      case Swap(head, _) => SawHead(run, i, head)
      case LostSwap(head) => SawHead(run, i, head) && HadReason(p, run, i, ConcurrentBranchUpdate)
      case Ended(Done(Blocked(head, reason))) => SawHead(run, i, head) && HadReason(p, run, i, reason)
      case _ => true
  }

  /** Attempt `i` acts at the newest step. */
  predicate ActsHere(run: Run, i: nat) {
    run.Then? && run.actor.Act? && run.actor.i == i && i < |run.before.state.attempts|
  }

  lemma {:induction false} BranchStepCarries(p: Promotion, run: Run, i: nat)
    requires Valid(p, run) && ActsHere(run, i) && Carried(p, run.before, i)
    requires run.before.state.attempts[i].ProbeBranch?
    ensures Carried(p, run, i)
  {
  }

  lemma {:induction false} ReflogStepCarries(p: Promotion, run: Run, i: nat)
    requires Valid(p, run) && ActsHere(run, i) && Carried(p, run.before, i)
    requires run.before.state.attempts[i].ProbeReflog?
    ensures Carried(p, run, i)
  {
    LostProbesDoNotAnswer(run.actor.turn.ending, true);
    LostProbesDoNotAnswer(run.actor.turn.ending,
                          run.before.state.attempts[i].branch in run.before.state.repo.refs);
  }

  lemma {:induction false} SwapStepCarries(p: Promotion, run: Run, i: nat)
    requires Valid(p, run) && ActsHere(run, i) && Carried(p, run.before, i)
    requires run.before.state.attempts[i].Swap? || run.before.state.attempts[i].LostSwap?
    ensures Carried(p, run, i)
  {
  }

  lemma {:induction false} GateStepCarries(p: Promotion, run: Run, i: nat)
    requires Valid(p, run) && ActsHere(run, i) && Carried(p, run.before, i)
    requires var phase := run.before.state.attempts[i];
             phase.CheckSubmodules? || phase.ComparePin? || phase.RefuseAtHead?
    ensures Carried(p, run, i)
  {
  }

  lemma {:induction false} ObservationStepCarries(p: Promotion, run: Run, i: nat)
    requires Valid(p, run) && ActsHere(run, i) && Carried(p, run.before, i)
    requires match run.before.state.attempts[i]
             case CheckSubmodules | ComparePin | RefuseAtHead(_) => false
             case ProbeBranch(_) | ProbeReflog(_, _) | Swap(_, _) | LostSwap(_) => false
             case _ => true
    ensures Carried(p, run, i)
  {
  }

  lemma {:induction false} CarriedStep(p: Promotion, run: Run, i: nat)
    requires Valid(p, run) && ActsHere(run, i) && Carried(p, run.before, i)
    ensures Carried(p, run, i)
  {
    match run.before.state.attempts[i]
    case ProbeBranch(_) => BranchStepCarries(p, run, i);
    case ProbeReflog(_, _) => ReflogStepCarries(p, run, i);
    case Swap(_, _) => SwapStepCarries(p, run, i);
    case LostSwap(_) => SwapStepCarries(p, run, i);
    case CheckSubmodules => GateStepCarries(p, run, i);
    case ComparePin => GateStepCarries(p, run, i);
    case RefuseAtHead(_) => GateStepCarries(p, run, i);
    case _ => ObservationStepCarries(p, run, i);
  }

  /**
   * A blocked promotion reports a head it really read, and a reason it really met: no comparable
   * pin, a component that differed, a branch probe that said no, another commit than the initial
   * one without the promotion's own entry, or a swap that completed and was refused.
   */
  lemma {:induction false} BlockedIsJustified(p: Promotion, run: Run, i: nat)
    requires Valid(p, run)
    ensures Carried(p, run, i)
  {
    if run.Then? {
      BlockedIsJustified(p, run.before, i);
      if run.actor.Act? && run.actor.i == i {
        CarriedStep(p, run, i);
      }
    }
  }

  // ------------------------------------------------------- when a finding is true

  /** The question whose "no" a phase turns into a finding, as the repository would answer it. */
  function DecidingAnswer(p: Promotion, phase: Phase, r: Repo): Option<bool> {
    match phase
    case StagedAncestry(oid) => Some(p.objects.descends(p.initial, oid))
    case FinalAncestry(oid) => Some(p.objects.descends(p.initial, oid))
    case ProbeBranch(_) => Some(r.head.OnBranch?)
    case Swap(_, branch) => Some(At(r, branch, p.initial))
    case _ => None
  }

  /** The step's result is one of the findings: not descended, detached HEAD, concurrent update. */
  predicate IsFinding(next: Phase) {
    match next
    case Ended(Failed(_, NotDescended)) => true
    case Ended(Done(Blocked(_, DetachedHead))) => true
    case LostSwap(_) => true
    case _ => false
  }

  /** The phases an attempt that made a finding is in from then on. */
  predicate HasFinding(phase: Phase) {
    IsFinding(phase) || match phase
                        case Ended(Done(Blocked(_, ConcurrentBranchUpdate))) => true
                        case _ => false
  }

  /** A refusal at the configuration gate speaks of the configuration only. */
  predicate RefusesForConfig(phase: Phase) {
    phase.RefuseAtHead? ==> phase.reason.RepositoryConfigUnpinned? || phase.reason.RepositoryConfigChanged?
  }

  /** A question is turned into a finding exactly when it is answered "no", truly or by a broken probe. */
  lemma {:induction false} QuestionStep(p: Promotion, phase: Phase, r: Repo, turn: Turn)
    requires DecidingAnswer(p, phase, r).Some?
    ensures IsFinding(Advance(p, phase, r, turn).0) <==>
            !Lost(turn.ending) && (!DecidingAnswer(p, phase, r).value || Broken(turn.ending))
  {
    LostProbesDoNotAnswer(turn.ending, DecidingAnswer(p, phase, r).value);
  }

  lemma {:induction false} NoQuestionNoFinding(p: Promotion, phase: Phase, r: Repo, turn: Turn)
    requires !phase.Ended? && RefusesForConfig(phase) && DecidingAnswer(p, phase, r).None?
    ensures !IsFinding(Advance(p, phase, r, turn).0)
  {
  }

  /** A phase after which a finding may be held, and what a refusal speaks of. */
  lemma {:induction false} FindingKept(p: Promotion, phase: Phase, r: Repo, turn: Turn)
    requires !phase.Ended? && RefusesForConfig(phase)
    ensures var next := Advance(p, phase, r, turn).0;
            RefusesForConfig(next) && (HasFinding(next) <==> IsFinding(next) || phase.LostSwap?)
  {
  }

  /** A phase makes a finding exactly when its question is answered "no", truly or by a broken probe. */
  lemma {:induction false} FindingStep(p: Promotion, phase: Phase, r: Repo, turn: Turn)
    requires !phase.Ended? && RefusesForConfig(phase)
    ensures var next := Advance(p, phase, r, turn).0;
            && RefusesForConfig(next)
            && (IsFinding(next) <==>
                  && DecidingAnswer(p, phase, r).Some? && !Lost(turn.ending)
                  && (!DecidingAnswer(p, phase, r).value || Broken(turn.ending)))
            && (HasFinding(next) <==> IsFinding(next) || phase.LostSwap?)
  {
    FindingKept(p, phase, r, turn);
    if DecidingAnswer(p, phase, r).Some? {
      QuestionStep(p, phase, r, turn);
    } else {
      NoQuestionNoFinding(p, phase, r, turn);
    }
  }

  /** Attempt `i` makes a finding at this step, and the repository then is as `truly` says. */
  predicate FindsHere(p: Promotion, s: System, actor: Actor, t: System, i: nat, truly: bool) {
    && actor.Act? && actor.i == i && i < |s.attempts| && i < |t.attempts|
    && IsFinding(t.attempts[i]) && DecidingAnswer(p, s.attempts[i], s.repo) == Some(!truly)
  }

  ghost predicate Found(p: Promotion, run: Run, i: nat, truly: bool) {
    run.Then? && (Found(p, run.before, i, truly)
                  || FindsHere(p, run.before.state, run.actor, run.state, i, truly))
  }

  /** A deciding probe of attempt `i` ends broken although its answer is "yes". */
  predicate MisledHere(p: Promotion, s: System, actor: Actor, i: nat) {
    && actor.Act? && actor.i == i && i < |s.attempts|
    && DecidingAnswer(p, s.attempts[i], s.repo) == Some(true) && Broken(actor.turn.ending)
  }

  ghost predicate Misled(p: Promotion, run: Run, i: nat) {
    run.Then? && (Misled(p, run.before, i) || MisledHere(p, run.before.state, run.actor, i))
  }

  /** Every finding there is was made once, truly or falsely; no attempt without one made any. */
  ghost predicate Accounted(p: Promotion, run: Run, i: nat) {
    && (Found(p, run, i, false) <==> Misled(p, run, i))
    && (i < |run.state.attempts| ==> RefusesForConfig(run.state.attempts[i]))
    && (i < |run.state.attempts| && HasFinding(run.state.attempts[i]) ==>
          (Found(p, run, i, true) <==> !Found(p, run, i, false)))
    && (i < |run.state.attempts| && !run.state.attempts[i].Ended? && !run.state.attempts[i].LostSwap? ==>
          !Found(p, run, i, true) && !Found(p, run, i, false))
    && (i >= |run.state.attempts| ==> !Found(p, run, i, true) && !Found(p, run, i, false))
  }

  lemma {:induction false} AccountedStep(p: Promotion, run: Run, i: nat)
    requires Valid(p, run) && run.Then? && Accounted(p, run.before, i)
    requires run.actor.Act? && run.actor.i == i
    ensures Accounted(p, run, i)
  {
    var s := run.before.state;
    FindingStep(p, s.attempts[i], s.repo, run.actor.turn);
  }

  /**
   * Over every run, the findings not-descended, detached HEAD and concurrent update are true of
   * the repository at the step that makes them exactly when no deciding probe of the attempt
   * ended without exiting cleanly while the true answer was "yes"; lost probes make none.
   */
  lemma {:induction false} FindingsAreTrueUnlessMisled(p: Promotion, run: Run, i: nat)
    requires Valid(p, run)
    ensures Accounted(p, run, i)
  {
    if run.Then? {
      FindingsAreTrueUnlessMisled(p, run.before, i);
      if run.actor.Act? && run.actor.i == i {
        AccountedStep(p, run, i);
      }
    }
  }
}
