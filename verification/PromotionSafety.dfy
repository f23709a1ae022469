/** What holds of every run of promotion attempts, whatever other writers do and whenever they crash. */
module PromotionSafety {
  import opened Common
  import opened GitProbe
  import opened GitRepository
  import opened Producer
  import opened Promotion

  // ------------------------------------------ an effect-free end is effect free

  /** No step of attempt `i` changed the repository. */
  ghost predicate Untouched(run: Run, i: nat) {
    run.Then? ==>
      Untouched(run.before, i) && (run.actor.Act? && run.actor.i == i ==> run.state.repo == run.before.state.repo)
  }

  /** Ends that claim nothing was written, and every phase before the swap. */
  predicate ClaimsNoEffect(phase: Phase) {
    match phase
    case Sync | FinalRoot | FinalStatus | FinalHead | FinalAncestry(_) => false
    case Ended(Done(Promoted)) => false
    case Ended(Failed(dispatched, _)) => !dispatched
    case Ended(Crashed) => false
    case _ => true
  }

  /** A swap of attempt `i` takes effect here although a signal, read as a refusal, ended it. */
  predicate LandsSilently(p: Promotion, s: System, actor: Actor, i: nat) {
    && actor.Act? && actor.i == i && i < |s.attempts| && s.attempts[i].Swap?
    && Signalled(actor.turn.ending) && actor.turn.moved
    && At(s.repo, s.attempts[i].branch, p.initial)
  }

  ghost predicate LandedSilently(p: Promotion, run: Run, i: nat) {
    run.Then? && (LandedSilently(p, run.before, i) || LandsSilently(p, run.before.state, run.actor, i))
  }

  lemma {:induction false} NotYetRequested(p: Promotion, run: Run, i: nat)
    requires Valid(p, run) && i >= |run.state.attempts|
    ensures Untouched(run, i) && !LandedSilently(p, run, i)
  {
    if run.Then? {
      NotYetRequested(p, run.before, i);
    }
  }

  lemma SwappedIsAChange(r: Repo, ref: RefName, oid: Oid, subject: string)
    ensures Swapped(r, ref, oid, subject) != r
  {
    assert |Swapped(r, ref, oid, subject).reflogs[ref]| == |Reflog(r, ref)| + 1;
  }

  /** Claiming no effect is only reached from claiming no effect, and all but silently landing writes nothing. */
  lemma {:induction false} NoEffectStep(p: Promotion, phase: Phase, r: Repo, turn: Turn)
    requires !phase.Ended?
    ensures var (next, after) := Advance(p, phase, r, turn);
            ClaimsNoEffect(next) ==>
              && ClaimsNoEffect(phase)
              && (after == r <==>
                    !(phase.Swap? && Signalled(turn.ending) && turn.moved && At(r, phase.branch, p.initial)))
  {
    if phase.Swap? {
      SwappedIsAChange(r, phase.branch, p.accepted, Subject(p));
      LostProbesDoNotAnswer(turn.ending, At(r, phase.branch, p.initial));
    }
  }

  /**
   * An attempt that ends Blocked, or in an error not marked dispatched, changed nothing, no ref,
   * no reflog, not HEAD, not the working tree, exactly when none of its swaps was killed by a
   * signal after the ref had moved.
   */
  lemma {:induction false} BlockedChangedNothing(p: Promotion, run: Run, i: nat)
    requires Valid(p, run) && i < |run.state.attempts| && ClaimsNoEffect(run.state.attempts[i])
    ensures Untouched(run, i) <==> !LandedSilently(p, run, i)
  {
    if run.Then? {
      if i >= |run.before.state.attempts| {
        NotYetRequested(p, run.before, i);
      } else {
        if run.actor.Act? && run.actor.i == i {
          NoEffectStep(p, run.before.state.attempts[i], run.before.state.repo, run.actor.turn);
        }
        BlockedChangedNothing(p, run.before, i);
      }
    }
  }

  // ---------------------------------------------- no Git before the comparison

  /** Phases in which the attempt runs Git. */
  predicate RunsGit(phase: Phase) {
    match phase
    case CheckSubmodules | ComparePin | RefuseAtHead(_) | Ended(_) => false
    case _ => true
  }

  /** Attempt `i` reads the configuration here and finds it exactly as pinned. */
  predicate ComparesHere(p: Promotion, s: System, actor: Actor, i: nat) {
    && actor.Act? && actor.i == i && !actor.turn.ending.NeverObserved?
    && i < |s.attempts| && s.attempts[i].ComparePin?
    && p.pin == Some(s.repo.config)
  }

  ghost predicate Compared(p: Promotion, run: Run, i: nat) {
    run.Then? && (Compared(p, run.before, i) || ComparesHere(p, run.before.state, run.actor, i))
  }

  lemma ComparisonStep(p: Promotion, phase: Phase, r: Repo, turn: Turn)
    requires !phase.Ended?
    ensures RunsGit(Advance(p, phase, r, turn).0) ==>
              RunsGit(phase) || (phase.ComparePin? && !turn.ending.NeverObserved? && p.pin == Some(r.config))
  {
  }

  /** No Git step precedes a successful pin comparison by the same attempt. */
  lemma {:induction false} GitOnlyAfterComparison(p: Promotion, run: Run, i: nat)
    requires Valid(p, run) && i < |run.state.attempts| && RunsGit(run.state.attempts[i])
    ensures Compared(p, run, i)
  {
    if run.Then? && i < |run.before.state.attempts| {
      if run.actor.Act? && run.actor.i == i {
        ComparisonStep(p, run.before.state.attempts[i], run.before.state.repo, run.actor.turn);
      }
      if RunsGit(run.before.state.attempts[i]) {
        GitOnlyAfterComparison(p, run.before, i);
      }
    }
  }

  predicate AfterSync(phase: Phase) {
    phase.FinalRoot? || phase.FinalStatus? || phase.FinalHead? || phase.FinalAncestry?
  }

  /**
   * A probe without an answer ends the attempt in an error, never in an outcome or a finding; the
   * one exception, the head read after a lost swap, only falls back to the head seen before.
   */
  lemma {:induction false} LostProbeNeverDecides(p: Promotion, phase: Phase, r: Repo, turn: Turn)
    requires RunsGit(phase) && Lost(turn.ending)
    ensures var next := Advance(p, phase, r, turn).0;
            next.Ended? &&
            if phase.LostSwap? then next.end == Done(Blocked(phase.head, ConcurrentBranchUpdate))
            else next.end.Failed? && next.end.why.Unknown?
                 && (next.end.dispatched <==> Writes(phase) || AfterSync(phase))
  {
    LostProbesDoNotAnswer(turn.ending, true);
  }

  // ------------------------------------------------------- promoted is true

  /** A compare-and-swap of this promotion took effect at this step. */
  ghost predicate LandsHere(s: System, actor: Actor, t: System) {
    actor.Act? && actor.i < |s.attempts| && s.attempts[actor.i].Swap? && t.repo != s.repo
  }

  ghost predicate Landed(run: Run) {
    run.Then? && (Landed(run.before) || LandsHere(run.before.state, run.actor, run.state))
  }

  /** The branch attempt `i` looks at, HEAD's or the newest entry of its reflog, is at accepted. */
  ghost predicate SeesAccepted(p: Promotion, s: System, actor: Actor, i: nat) {
    && actor.Act? && actor.i == i && i < |s.attempts|
    && match s.attempts[i]
       case FinalHead => HeadOid(s.repo) == Some(p.accepted)
       case ProbeReflog(_, branch) =>
         Reflog(s.repo, branch) != [] && Reflog(s.repo, branch)[0].revision == p.accepted
         && Carries(Reflog(s.repo, branch), p.accepted, Subject(p))
       case _ => false
  }

  /** After a swap landed, attempt `i` saw the branch at the accepted commit. */
  ghost predicate SawAcceptedAfterLanding(p: Promotion, run: Run, i: nat) {
    run.Then? &&
      (SawAcceptedAfterLanding(p, run.before, i)
       || (Landed(run.before) && SeesAccepted(p, run.before.state, run.actor, i)))
  }

  /** A swap lands only on a branch at the initial commit, and moves it to the accepted one. */
  lemma LandingMovesInitialToAccepted(p: Promotion, s: System, actor: Actor, t: System)
    requires Step(p, s, actor, t) && LandsHere(s, actor, t)
    ensures var branch := s.attempts[actor.i].branch;
            && At(s.repo, branch, p.initial)
            && t.repo == Swapped(s.repo, branch, p.accepted, Subject(p))
  {
  }

  /** The branch's own reflog holds an entry with the promotion's subject. */
  predicate MarkedIn(p: Promotion, r: Repo, branch: RefName) {
    exists k :: 0 <= k < |Reflog(r, branch)| && Reflog(r, branch)[k].subject == Subject(p)
  }

  lemma {:induction false} MarkedInIsMarked(p: Promotion, r: Repo, branch: RefName)
    requires MarkedIn(p, r, branch)
    ensures Marked(p, r)
  {
    assert branch in r.reflogs;
  }

  lemma {:induction false} ResetReflog(r: Repo, oid: Oid, logged: bool, branch: RefName)
    ensures var after := Reflog(HeadMoved(r, oid, logged), branch);
            after == Reflog(r, branch) || after == [Entry(oid, "reset: moving to " + oid)] + Reflog(r, branch)
  {
  }

  lemma {:induction false} ResetMarksNoBranch(p: Promotion, r: Repo, oid: Oid, logged: bool, branch: RefName)
    requires MarkedIn(p, HeadMoved(r, oid, logged), branch)
    ensures MarkedIn(p, r, branch)
  {
    ResetReflog(r, oid, logged, branch);
    var after, subject := Reflog(HeadMoved(r, oid, logged), branch), "reset: moving to " + oid;
    var k :| 0 <= k < |after| && after[k].subject == Subject(p);
    if after != Reflog(r, branch) {
      assert subject[0] == 'r' && Subject(p)[0] == 'i';
      assert k > 0 && Reflog(r, branch)[k - 1] == after[k];
    }
  }

  /** Resetting never writes the promotion's subject. */
  lemma {:induction false} ResetDoesNotMark(p: Promotion, r: Repo, oid: Oid, logged: bool)
    requires Marked(p, HeadMoved(r, oid, logged))
    ensures Marked(p, r)
  {
    var after := HeadMoved(r, oid, logged);
    var branch :| branch in after.reflogs
                  && exists k :: 0 <= k < |after.reflogs[branch]| && after.reflogs[branch][k].subject == Subject(p);
    var k :| 0 <= k < |after.reflogs[branch]| && after.reflogs[branch][k].subject == Subject(p);
    assert Reflog(after, branch)[k].subject == Subject(p);
    ResetMarksNoBranch(p, r, oid, logged, branch);
    MarkedInIsMarked(p, r, branch);
  }

  /** The parts of the repository refs are kept in. */
  predicate SameRefs(a: Repo, b: Repo) {
    a.refs == b.refs && a.reflogs == b.reflogs && a.head == b.head
  }

  lemma {:induction false} WorktreeKeepsRefs(r: Repo, worktree: Worktree)
    ensures SameRefs(r.(worktree := worktree), r)
  {
  }

  /** The working tree aside, a sync moves what HEAD names or nothing. */
  lemma {:induction false} SyncMovesHeadOrNothing(p: Promotion, r: Repo, turn: Turn)
    ensures var after := AttemptSync(p, r, turn).1;
            SameRefs(after, HeadMoved(r, p.accepted, turn.logged)) || SameRefs(after, r)
  {
    var moved := HeadMoved(r, p.accepted, turn.logged);
    WorktreeKeepsRefs(moved, p.objects.tree(p.accepted));
    WorktreeKeepsRefs(moved, turn.worktree);
    WorktreeKeepsRefs(r, turn.worktree);
  }

  lemma SameRefsMark(p: Promotion, a: Repo, b: Repo)
    requires SameRefs(a, b) && Marked(p, a)
    ensures Marked(p, b)
  {
  }

  lemma {:induction false} SyncDoesNotMark(p: Promotion, r: Repo, turn: Turn)
    requires Marked(p, AttemptSync(p, r, turn).1)
    ensures Marked(p, r)
  {
    var after := AttemptSync(p, r, turn).1;
    var moved := HeadMoved(r, p.accepted, turn.logged);
    SyncMovesHeadOrNothing(p, r, turn);
    if SameRefs(after, moved) {
      SameRefsMark(p, after, moved);
      ResetDoesNotMark(p, r, p.accepted, turn.logged);
    } else {
      SameRefsMark(p, after, r);
    }
  }

  lemma {:induction false} AdvanceMarks(p: Promotion, phase: Phase, r: Repo, turn: Turn)
    requires !phase.Ended? && Marked(p, Advance(p, phase, r, turn).1)
    ensures Marked(p, r) || (phase.Swap? && Advance(p, phase, r, turn).1 != r)
  {
    if phase.Sync? {
      SyncDoesNotMark(p, r, turn);
    }
  }

  lemma {:induction false} MarkStep(p: Promotion, s: System, actor: Actor, t: System)
    requires Step(p, s, actor, t) && Marked(p, t.repo)
    ensures Marked(p, s.repo) || LandsHere(s, actor, t)
  {
    if actor.Act? {
      AdvanceMarks(p, s.attempts[actor.i], s.repo, actor.turn);
    }
  }

  /** The promotion's subject is in a reflog only if a swap of this promotion landed. */
  lemma {:induction false} MarkedMeansLanded(p: Promotion, run: Run)
    requires Valid(p, run) && Marked(p, run.state.repo)
    ensures Landed(run)
  {
    if run.Then? {
      MarkStep(p, run.before.state, run.actor, run.state);
      if Marked(p, run.before.state.repo) {
        MarkedMeansLanded(p, run.before);
      }
    }
  }

  /** Past the swap: what the attempt has already established. */
  ghost predicate Established(p: Promotion, run: Run, i: nat) {
    i < |run.state.attempts| ==>
      match run.state.attempts[i]
      case Sync | FinalRoot | FinalStatus | FinalHead => Landed(run)
      case FinalAncestry(oid) => Landed(run) && (oid == p.accepted ==> SawAcceptedAfterLanding(p, run, i))
      case Ended(Done(Promoted)) => Landed(run) && SawAcceptedAfterLanding(p, run, i)
      case _ => true
  }

  lemma CarriesIsMarked(p: Promotion, r: Repo, ref: RefName)
    requires Carries(Reflog(r, ref), p.accepted, Subject(p))
    ensures Marked(p, r) && Reflog(r, ref) != [] && Reflog(r, ref)[0].revision == p.accepted
  {
    CarriesMeans(Reflog(r, ref), p.accepted, Subject(p));
  }

  lemma EstablishedStep(p: Promotion, run: Run, i: nat)
    requires Valid(p, run) && run.Then? && Established(p, run.before, i)
    requires run.actor.Act? && run.actor.i == i && i < |run.state.attempts|
    ensures Established(p, run, i)
  {
    var s := run.before.state;
    match s.attempts[i]
    case ProbeReflog(head, branch) =>
      if run.state.attempts[i] == Ended(Done(Promoted)) {
        CarriesIsMarked(p, s.repo, branch);
        MarkedMeansLanded(p, run.before);
      }
    case Swap(head, branch) =>
      if run.state.attempts[i].Sync? {
        assert |run.state.repo.reflogs[branch]| == |Reflog(s.repo, branch)| + 1;
        assert LandsHere(s, run.actor, run.state);
      }
    case _ =>
  }

  lemma {:induction false} EstablishedAlways(p: Promotion, run: Run, i: nat)
    requires Valid(p, run)
    ensures Established(p, run, i)
  {
    if run.Then? {
      EstablishedAlways(p, run.before, i);
      if run.actor.Act? && run.actor.i == i {
        EstablishedStep(p, run, i);
      }
    }
  }

  /**
   * Promoted is reported only when this promotion's own compare-and-swap landed, from the initial
   * commit, and the reporting attempt saw the branch at the accepted commit after that.
   */
  lemma PromotedMeansLanded(p: Promotion, run: Run, i: nat)
    requires Valid(p, run) && i < |run.state.attempts| && run.state.attempts[i] == Ended(Done(Promoted))
    ensures Landed(run) && SawAcceptedAfterLanding(p, run, i)
  {
    EstablishedAlways(p, run, i);
  }

  // ------------------------------------------------------- what is overwritten

  predicate Expected(p: Promotion, oid: Oid) {
    oid == p.initial || oid == p.accepted
  }

  /** Every branch value this step replaces is the initial or the accepted commit. */
  ghost predicate OverwritesExpected(p: Promotion, r: Repo, after: Repo) {
    forall ref :: ref in r.refs && !At(after, ref, r.refs[ref]) ==> Expected(p, r.refs[ref])
  }

  /** A reset now would replace nothing but the initial or the accepted commit. */
  predicate ResetIsSafe(p: Promotion, r: Repo) {
    r.head.OnBranch? && r.head.ref in r.refs ==> Expected(p, r.refs[r.head.ref])
  }

  /** Some attempt has swapped the branch and not yet synced the working tree. */
  predicate SyncPending(s: System) {
    exists i :: 0 <= i < |s.attempts| && s.attempts[i].Sync?
  }

  /** A swap is confirmed here, so that a sync follows. */
  predicate ConfirmsSwap(s: System, actor: Actor, t: System) {
    && actor.Act? && actor.i < |s.attempts| && s.attempts[actor.i].Swap?
    && actor.i < |t.attempts| && t.attempts[actor.i].Sync?
  }

  /**
   * The schedules in question: no other writer changes anything between a swap and its sync, and a swap is
   * confirmed only while HEAD names no branch with a third party's value.
   */
  ghost predicate Quiet(p: Promotion, run: Run) {
    run.Then? ==>
      && Quiet(p, run.before)
      && (run.actor.Foreign? && SyncPending(run.before.state) ==> run.state.repo == run.before.state.repo)
      && (ConfirmsSwap(run.before.state, run.actor, run.state) ==> ResetIsSafe(p, run.before.state.repo))
  }

  ghost predicate OverwritesOnlyExpected(p: Promotion, run: Run) {
    run.Then? ==>
      && OverwritesOnlyExpected(p, run.before)
      && (!run.actor.Foreign? ==> OverwritesExpected(p, run.before.state.repo, run.state.repo))
  }

  lemma {:induction false} QuietStep(p: Promotion, s: System, actor: Actor, t: System)
    requires Step(p, s, actor, t)
    requires actor.Foreign? && SyncPending(s) ==> t.repo == s.repo
    requires ConfirmsSwap(s, actor, t) ==> ResetIsSafe(p, s.repo)
    requires SyncPending(s) ==> ResetIsSafe(p, s.repo)
    ensures SyncPending(t) ==> ResetIsSafe(p, t.repo)
    ensures !actor.Foreign? ==> OverwritesExpected(p, s.repo, t.repo)
  {
    match actor
    case Foreign =>
      assert SyncPending(t) ==> SyncPending(s);
    case Request =>
      assert SyncPending(t) ==> SyncPending(s);
    case Crash(i) =>
      assert SyncPending(t) ==> SyncPending(s);
    case Act(i, turn) =>
      QuietAct(p, s, i, turn, t);
  }

  /** What a write may do, in the schedules in question. */
  ghost predicate WritesExpected(p: Promotion, r: Repo, after: Repo) {
    OverwritesExpected(p, r, after) && (ResetIsSafe(p, r) ==> ResetIsSafe(p, after))
  }

  lemma SwapWritesExpected(p: Promotion, head: Oid, branch: RefName, r: Repo, turn: Turn)
    ensures WritesExpected(p, r, AttemptSwap(p, head, branch, r, turn).1)
  {
    LostProbesDoNotAnswer(turn.ending, At(r, branch, p.initial));
  }

  lemma ResetWritesExpected(p: Promotion, r: Repo, logged: bool)
    requires ResetIsSafe(p, r)
    ensures WritesExpected(p, r, HeadMoved(r, p.accepted, logged))
  {
  }

  lemma SameRefsExpected(p: Promotion, r: Repo, a: Repo, b: Repo)
    requires SameRefs(a, b) && WritesExpected(p, r, a)
    ensures WritesExpected(p, r, b)
  {
  }

  lemma {:induction false} SyncWritesExpected(p: Promotion, r: Repo, turn: Turn)
    requires ResetIsSafe(p, r)
    ensures WritesExpected(p, r, AttemptSync(p, r, turn).1)
  {
    var after := AttemptSync(p, r, turn).1;
    var moved := HeadMoved(r, p.accepted, turn.logged);
    SyncMovesHeadOrNothing(p, r, turn);
    if SameRefs(after, moved) {
      ResetWritesExpected(p, r, turn.logged);
      SameRefsExpected(p, r, moved, after);
    } else {
      SameRefsExpected(p, r, r, after);
    }
  }

  lemma {:induction false} AdvanceOverwrites(p: Promotion, phase: Phase, r: Repo, turn: Turn)
    requires !phase.Ended? && (phase.Sync? ==> ResetIsSafe(p, r))
    ensures WritesExpected(p, r, Advance(p, phase, r, turn).1)
    ensures Advance(p, phase, r, turn).0.Sync? ==> phase.Swap?
  {
    match phase
    case Swap(head, branch) => SwapWritesExpected(p, head, branch, r, turn);
    case Sync => SyncWritesExpected(p, r, turn);
    case _ =>
  }

  lemma {:induction false} QuietAct(p: Promotion, s: System, i: nat, turn: Turn, t: System)
    requires Step(p, s, Act(i, turn), t)
    requires ConfirmsSwap(s, Act(i, turn), t) ==> ResetIsSafe(p, s.repo)
    requires SyncPending(s) ==> ResetIsSafe(p, s.repo)
    ensures SyncPending(t) ==> ResetIsSafe(p, t.repo)
    ensures OverwritesExpected(p, s.repo, t.repo)
  {
    assert s.attempts[i].Sync? ==> SyncPending(s);
    AdvanceOverwrites(p, s.attempts[i], s.repo, turn);
    if SyncPending(t) {
      var j :| 0 <= j < |t.attempts| && t.attempts[j].Sync?;
      assert j != i ==> s.attempts[j].Sync?;
    }
  }

  /**
   * Over every interleaving of attempts, crashes, retries and other writers in which nobody else
   * changes anything between a swap and its sync and HEAD is safe when a swap is confirmed, every
   * branch value a promotion replaces is the initial or the accepted commit.
   */
  lemma {:induction false} PromotersOverwriteOnlyExpected(p: Promotion, run: Run)
    requires Valid(p, run) && Quiet(p, run)
    ensures SyncPending(run.state) ==> ResetIsSafe(p, run.state.repo)
    ensures OverwritesOnlyExpected(p, run)
  {
    if run.Then? {
      PromotersOverwriteOnlyExpected(p, run.before);
      QuietStep(p, run.before.state, run.actor, run.state);
    }
  }

  /** HEAD still on the branch that was probed is enough for a landing to be safe. */
  lemma HeadStillOnBranchIsSafe(p: Promotion, s: System, actor: Actor, t: System)
    requires Step(p, s, actor, t) && LandsHere(s, actor, t)
    requires s.repo.head == OnBranch(s.attempts[actor.i].branch)
    ensures ResetIsSafe(p, s.repo)
  {
    LandingMovesInitialToAccepted(p, s, actor, t);
  }

  lemma {:induction false} SwapThenReset(p: Promotion, r: Repo, branch: RefName, logged: bool)
    requires At(r, branch, p.initial)
    ensures var swapped := Swapped(r, branch, p.accepted, Subject(p));
            OverwritesExpected(p, r, swapped)
            && (OverwritesExpected(p, swapped, HeadMoved(swapped, p.accepted, logged)) <==> ResetIsSafe(p, r))
  {
    var swapped := Swapped(r, branch, p.accepted, Subject(p));
    if !ResetIsSafe(p, r) {
      var ref := r.head.ref;
      assert ref != branch && At(swapped, ref, r.refs[ref]);
      assert At(HeadMoved(swapped, p.accepted, logged), ref, p.accepted);
    }
  }

  /**
   * The condition on HEAD is needed: when nothing at all happens between a swap and its completed
   * sync, the two replace only expected values exactly when HEAD was safe as the swap landed.
   */
  lemma {:induction false} SafeExactlyWhenHeadIs(p: Promotion, head: Oid, branch: RefName, r: Repo,
                                                 swap: Turn, sync: Turn)
    requires Ask(swap.ending, At(r, branch, p.initial)) == Ok(true) && Ask(sync.ending, true) == Ok(true)
    ensures var swapped := Advance(p, Swap(head, branch), r, swap).1;
            var synced := Advance(p, Sync, swapped, sync).1;
            OverwritesExpected(p, r, swapped) && OverwritesExpected(p, swapped, synced) <==> ResetIsSafe(p, r)
  {
    LostProbesDoNotAnswer(swap.ending, At(r, branch, p.initial));
    var swapped := Swapped(r, branch, p.accepted, Subject(p));
    var moved := HeadMoved(swapped, p.accepted, sync.logged);
    SwapThenReset(p, r, branch, sync.logged);
    WorktreeKeepsRefs(moved, p.objects.tree(p.accepted));
    assert OverwritesExpected(p, swapped, moved.(worktree := p.objects.tree(p.accepted)))
      <==> OverwritesExpected(p, swapped, moved);
  }
}
