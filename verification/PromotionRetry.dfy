/** What an undisturbed attempt decides, and so what a retry after a crash finds. */
module PromotionRetry {
  import opened Common
  import opened GitProbe
  import opened GitRepository
  import opened Producer
  import opened Promotion
  import opened PromotionAttempt
  import PromotionSafety

  /** Nobody else acts before step `k`, and its probe completes. */
  ghost predicate CalmAt(script: Script<Repo>, k: nat) {
    script(k).turn.ending == CLEAN_EXIT && forall r: Repo :: script(k).arrive(r) == r
  }

  ghost predicate CalmUntil(script: Script<Repo>, n: nat) {
    forall k: nat :: k < n ==> CalmAt(script, k)
  }

  ghost predicate Undisturbed(script: Script<Repo>) {
    forall k: nat :: CalmAt(script, k)
  }

  /** The gates before any Git process. */
  predicate ConfigHolds(p: Promotion, r: Repo) {
    !r.submodules && p.pin == Some(r.config)
  }

  /** The gates that do not look at the canonical tree. */
  predicate GatesHold(p: Promotion, r: Repo) {
    && ConfigHolds(p, r)
    && r.stagedRoot
    && r.stagedHead == p.accepted
    && p.objects.cleanAt(r.stagedTree, p.accepted)
    && p.objects.descends(p.initial, p.accepted)
  }

  predicate OnBranchAt(r: Repo, branch: RefName, head: Oid) {
    r.head == OnBranch(branch) && LocalBranch(branch) && At(r, branch, head)
  }

  lemma UndisturbedStep(p: Promotion, phase: Phase, script: Script<Repo>, m: Moment<Repo>)
    requires CalmAt(script, m.clock) && !phase.Ended?
    ensures var (next, repo) := Advance(p, phase, m.state, script(m.clock).turn);
            Play(p, phase, script, m) == Play(p, next, script, Moment(repo, m.clock + 1))
  {
    PlayStep(p, phase, script, m);
  }

  lemma ConfigGatesPass(p: Promotion, r: Repo, script: Script<Repo>)
    requires CalmUntil(script, 10) && ConfigHolds(p, r)
    ensures Play(p, CheckSubmodules, script, Moment(r, 0)) == Play(p, StagedRoot, script, Moment(r, 2))
  {
    UndisturbedStep(p, CheckSubmodules, script, Moment(r, 0));
    UndisturbedStep(p, ComparePin, script, Moment(r, 1));
  }

  /** Undisturbed, a clean observation of a clean root succeeds in three steps, or four with an ancestor. */
  lemma {:induction false} CalmObservation(objects: Objects, look: Repo -> Checkout, initial: Option<Oid>,
                                           script: Script<Repo>, r: Repo, clock: nat)
    requires CalmAt(script, clock) && CalmAt(script, clock + 1) && CalmAt(script, clock + 2)
    requires initial.Some? ==> CalmAt(script, clock + 3)
    requires look(r).isRoot && CleanCheckout(objects, look(r))
    requires initial.Some? ==> objects.descends(initial.value, look(r).head.value)
    ensures ObserveClean(objects, look, initial, script, Moment(r, clock))
         == (Ok(look(r).head.value), Moment(r, clock + if initial.Some? then 4 else 3))
  {
  }

  lemma StagedObservationPasses(p: Promotion, r: Repo, script: Script<Repo>)
    requires CalmUntil(script, 10) && GatesHold(p, r)
    ensures Play(p, StagedRoot, script, Moment(r, 2)) == Play(p, CanonicalRoot, script, Moment(r, 6))
  {
    CalmObservation(p.objects, StagedCheckout, Some(p.initial), script, r, 2);
    StagedIsFourPhases(p, script, Moment(r, 2));
  }

  lemma StagedGatesPass(p: Promotion, r: Repo, script: Script<Repo>)
    requires CalmUntil(script, 10) && GatesHold(p, r)
    ensures Play(p, CheckSubmodules, script, Moment(r, 0)) == Play(p, CanonicalRoot, script, Moment(r, 6))
  {
    ConfigGatesPass(p, r, script);
    StagedObservationPasses(p, r, script);
  }

  /** The canonical workspace is its own worktree root, and clean. */
  predicate CanonicalReady(p: Promotion, r: Repo) {
    r.canonicalRoot && CleanCheckout(p.objects, CanonicalCheckout(r))
  }

  lemma CanonicalObservationPasses(p: Promotion, r: Repo, head: Oid, script: Script<Repo>)
    requires CalmUntil(script, 10) && CanonicalReady(p, r) && HeadOid(r) == Some(head)
    ensures Play(p, CanonicalRoot, script, Moment(r, 6)) == Play(p, ProbeBranch(head), script, Moment(r, 9))
  {
    CalmObservation(p.objects, CanonicalCheckout, None, script, r, 6);
    CanonicalIsThreePhases(p, script, Moment(r, 6));
  }

  lemma BranchProbePasses(p: Promotion, r: Repo, branch: RefName, head: Oid, script: Script<Repo>)
    requires CalmAt(script, 9) && OnBranchAt(r, branch, head)
    ensures Play(p, ProbeBranch(head), script, Moment(r, 9))
         == if head == p.accepted then Play(p, ProbeReflog(head, branch), script, Moment(r, 10))
            else Play(p, MovedOrSwap(p, head, branch), script, Moment(r, 10))
  {
    UndisturbedStep(p, ProbeBranch(head), script, Moment(r, 9));
  }

  lemma CanonicalGatesPass(p: Promotion, r: Repo, branch: RefName, head: Oid, script: Script<Repo>)
    requires CalmUntil(script, 10) && OnBranchAt(r, branch, head) && CanonicalReady(p, r)
    ensures Play(p, CanonicalRoot, script, Moment(r, 6))
         == if head == p.accepted then Play(p, ProbeReflog(head, branch), script, Moment(r, 10))
            else Play(p, MovedOrSwap(p, head, branch), script, Moment(r, 10))
  {
    CanonicalObservationPasses(p, r, head, script);
    BranchProbePasses(p, r, branch, head, script);
  }

  /** What a completed promotion leaves behind. */
  function PromotedRepo(p: Promotion, r: Repo, branch: RefName, logged: bool): Repo {
    HeadMoved(Swapped(r, branch, p.accepted, Subject(p)), p.accepted, logged)
      .(worktree := p.objects.tree(p.accepted))
  }

  lemma SyncSucceeds(p: Promotion, r: Repo, script: Script<Repo>, clock: nat)
    requires CalmAt(script, clock)
    ensures Play(p, Sync, script, Moment(r, clock))
         == Play(p, FinalRoot, script,
                 Moment(HeadMoved(r, p.accepted, script(clock).turn.logged)
                          .(worktree := p.objects.tree(p.accepted)), clock + 1))
  {
    UndisturbedStep(p, Sync, script, Moment(r, clock));
  }

  lemma FinalObservationPasses(p: Promotion, r: Repo, script: Script<Repo>, clock: nat)
    requires forall k: nat :: clock <= k ==> CalmAt(script, k)
    requires p.objects.descends(p.initial, p.accepted)
    requires r.canonicalRoot && HeadOid(r) == Some(p.accepted) && p.objects.cleanAt(r.worktree, p.accepted)
    ensures Play(p, FinalRoot, script, Moment(r, clock)) == (Done(Promoted), Moment(r, clock + 4))
  {
    CalmObservation(p.objects, CanonicalCheckout, Some(p.initial), script, r, clock);
    FinalIsFourPhases(p, script, Moment(r, clock));
  }

  lemma SwapLands(p: Promotion, r: Repo, branch: RefName, script: Script<Repo>, clock: nat)
    requires CalmAt(script, clock) && At(r, branch, p.initial)
    ensures Play(p, Swap(p.initial, branch), script, Moment(r, clock))
         == Play(p, Sync, script, Moment(Swapped(r, branch, p.accepted, Subject(p)), clock + 1))
  {
    UndisturbedStep(p, Swap(p.initial, branch), script, Moment(r, clock));
  }

  /** After a landed swap, whatever HEAD names is moved and the attempt succeeds. */
  lemma SyncThenPromoted(p: Promotion, r: Repo, script: Script<Repo>, clock: nat)
    requires forall k: nat :: clock <= k ==> CalmAt(script, k)
    requires r.canonicalRoot && p.objects.cleanAt(p.objects.tree(p.accepted), p.accepted)
    requires p.objects.descends(p.initial, p.accepted)
    ensures var synced := HeadMoved(r, p.accepted, script(clock).turn.logged)
                            .(worktree := p.objects.tree(p.accepted));
            Play(p, Sync, script, Moment(r, clock)) == (Done(Promoted), Moment(synced, clock + 5))
  {
    SyncSucceeds(p, r, script, clock);
    var synced := HeadMoved(r, p.accepted, script(clock).turn.logged).(worktree := p.objects.tree(p.accepted));
    FinalObservationPasses(p, synced, script, clock + 1);
  }

  lemma SwapSucceeds(p: Promotion, r: Repo, branch: RefName, script: Script<Repo>, clock: nat)
    requires Undisturbed(script) && OnBranchAt(r, branch, p.initial) && r.canonicalRoot
    requires p.objects.cleanAt(p.objects.tree(p.accepted), p.accepted)
    requires p.objects.descends(p.initial, p.accepted)
    ensures Play(p, Swap(p.initial, branch), script, Moment(r, clock))
         == (Done(Promoted),
             Moment(PromotedRepo(p, r, branch, script(clock + 1).turn.logged), clock + 6))
  {
    SwapLands(p, r, branch, script, clock);
    SyncThenPromoted(p, Swapped(r, branch, p.accepted, Subject(p)), script, clock + 1);
  }

  lemma ReflogDecides(p: Promotion, r: Repo, branch: RefName, script: Script<Repo>)
    requires CalmAt(script, 10) && branch in r.refs
    ensures Play(p, ProbeReflog(p.accepted, branch), script, Moment(r, 10))
         == if Carries(Reflog(r, branch), p.accepted, Subject(p)) then (Done(Promoted), Moment(r, 11))
            else Play(p, MovedOrSwap(p, p.accepted, branch), script, Moment(r, 11))
  {
    UndisturbedStep(p, ProbeReflog(p.accepted, branch), script, Moment(r, 10));
  }

  /** Where the gates lead when the branch is not at the accepted commit. */
  lemma ReachesSwap(p: Promotion, r: Repo, branch: RefName, head: Oid, script: Script<Repo>)
    requires CalmUntil(script, 10) && GatesHold(p, r) && head != p.accepted
    requires OnBranchAt(r, branch, head) && CanonicalReady(p, r)
    ensures Play(p, CheckSubmodules, script, Moment(r, 0))
         == Play(p, MovedOrSwap(p, head, branch), script, Moment(r, 10))
  {
    StagedGatesPass(p, r, script);
    CanonicalGatesPass(p, r, branch, head, script);
  }

  /** And where they lead when it is. */
  lemma ReachesReflog(p: Promotion, r: Repo, branch: RefName, script: Script<Repo>)
    requires CalmUntil(script, 11) && GatesHold(p, r)
    requires OnBranchAt(r, branch, p.accepted) && CanonicalReady(p, r)
    ensures Play(p, CheckSubmodules, script, Moment(r, 0))
         == if Carries(Reflog(r, branch), p.accepted, Subject(p)) then (Done(Promoted), Moment(r, 11))
            else Play(p, MovedOrSwap(p, p.accepted, branch), script, Moment(r, 11))
  {
    StagedGatesPass(p, r, script);
    CanonicalGatesPass(p, r, branch, p.accepted, script);
    ReflogDecides(p, r, branch, script);
  }

  /**
   * All an undisturbed attempt can decide once its gates hold and the canonical tree is clean on
   * a local branch: its own landed swap is recognised and nothing is written; any other commit
   * than the initial one is reported as moved, and nothing is written; the initial one is swapped.
   */
  lemma UndisturbedAttempt(p: Promotion, r: Repo, branch: RefName, head: Oid, script: Script<Repo>)
    requires Undisturbed(script) && GatesHold(p, r)
    requires OnBranchAt(r, branch, head) && CanonicalReady(p, r)
    ensures var (end, m) := Play(p, CheckSubmodules, script, Moment(r, 0));
            var carried := Carries(Reflog(r, branch), p.accepted, Subject(p));
            && (head == p.accepted && carried ==> end == Done(Promoted) && m.state == r)
            && (head != p.initial && (head != p.accepted || !carried) ==>
                  end == Done(Blocked(head, CanonicalHeadMoved)) && m.state == r)
            && (head == p.initial && (head != p.accepted || !carried)
                && p.objects.cleanAt(p.objects.tree(p.accepted), p.accepted) ==>
                  && end == Done(Promoted)
                  && exists logged :: m.state == PromotedRepo(p, r, branch, logged))
  {
    if head == p.accepted {
      ReachesReflog(p, r, branch, script);
    } else {
      ReachesSwap(p, r, branch, head, script);
    }
    var carried := Carries(Reflog(r, branch), p.accepted, Subject(p));
    if head == p.initial && (head != p.accepted || !carried)
       && p.objects.cleanAt(p.objects.tree(p.accepted), p.accepted) {
      SwapSucceeds(p, r, branch, script, if head == p.accepted then 11 else 10);
    }
  }

  lemma {:induction false} CanonicalRootPasses(p: Promotion, r: Repo, script: Script<Repo>)
    requires CalmAt(script, 6) && r.canonicalRoot
    ensures Play(p, CanonicalRoot, script, Moment(r, 6)) == Play(p, CanonicalStatus, script, Moment(r, 7))
  {
    UndisturbedStep(p, CanonicalRoot, script, Moment(r, 6));
  }

  lemma {:induction false} DirtyStatusRefuses(p: Promotion, r: Repo, script: Script<Repo>)
    requires CalmAt(script, 7) && !CleanCheckout(p.objects, CanonicalCheckout(r))
    ensures Play(p, CanonicalStatus, script, Moment(r, 7)) == (Failed(false, Dirty), Moment(r, 8))
  {
    UndisturbedStep(p, CanonicalStatus, script, Moment(r, 7));
  }

  /** A canonical tree that is not clean refuses the attempt, which writes nothing. */
  lemma {:induction false} DirtyIsRefused(p: Promotion, r: Repo, script: Script<Repo>)
    requires Undisturbed(script) && GatesHold(p, r)
    requires r.canonicalRoot && !CleanCheckout(p.objects, CanonicalCheckout(r))
    ensures Play(p, CheckSubmodules, script, Moment(r, 0)) == (Failed(false, Dirty), Moment(r, 8))
  {
    StagedGatesPass(p, r, script);
    CanonicalRootPasses(p, r, script);
    DirtyStatusRefuses(p, r, script);
  }

  // --------------------------------------------------------- what a retry finds

  /** Entries of the accepted commit above a promotion's own keep it visible while they are few. */
  lemma CarriedWhileFew(above: seq<Entry>, below: seq<Entry>, oid: Oid, subject: string)
    requires forall e :: e in above ==> e.revision == oid && e.subject != subject
    ensures Carries(above + [Entry(oid, subject)] + below, oid, subject) <==> |above| < REFLOG_WINDOW
  {
    var entries := above + [Entry(oid, subject)] + below;
    CarriesMeans(entries, oid, subject);
    assert forall j :: 0 <= j < |above| ==> entries[j] in above;
    assert entries[|above|] == Entry(oid, subject);
  }

  /**
   * After a swap landed and the attempt died before its sync, a retry is refused for the stale
   * tree until it is synced; synced, by hand or by anyone's logged or unlogged reset, a retry
   * reports the promotion and writes nothing.
   */
  lemma RetryAfterCrash(p: Promotion, r: Repo, branch: RefName, logged: bool, script: Script<Repo>)
    requires Undisturbed(script) && GatesHold(p, r)
    requires OnBranchAt(r, branch, p.initial) && r.canonicalRoot
    requires p.objects.cleanAt(p.objects.tree(p.accepted), p.accepted)
    ensures var crashed := Swapped(r, branch, p.accepted, Subject(p));
            !p.objects.cleanAt(r.worktree, p.accepted) ==>
              Play(p, CheckSubmodules, script, Moment(crashed, 0)) == (Failed(false, Dirty), Moment(crashed, 8))
    ensures var synced := PromotedRepo(p, r, branch, logged);
            Play(p, CheckSubmodules, script, Moment(synced, 0)).0 == Done(Promoted)
            && Play(p, CheckSubmodules, script, Moment(synced, 0)).1.state == synced
  {
    var crashed := Swapped(r, branch, p.accepted, Subject(p));
    var synced := PromotedRepo(p, r, branch, logged);
    if !p.objects.cleanAt(r.worktree, p.accepted) {
      DirtyIsRefused(p, crashed, script);
    }
    var above := if logged then [Entry(p.accepted, "reset: moving to " + p.accepted)] else [];
    SubjectIsNoReset(p);
    CarriedWhileFew(above, Reflog(r, branch), p.accepted, Subject(p));
    assert Reflog(synced, branch) == above + [Entry(p.accepted, Subject(p))] + Reflog(r, branch);
    UndisturbedAttempt(p, synced, branch, p.accepted, script);
  }

  lemma SubjectIsNoReset(p: Promotion)
    ensures "reset: moving to " + p.accepted != Subject(p)
  {
    assert Subject(p)[0] == 'i' && ("reset: moving to " + p.accepted)[0] == 'r';
  }

  // ----------------------------------------------- when HEAD moves before the swap

  /**
   * Nobody acts between the swap and the sync, and still a third party's branch is lost: HEAD was
   * pointed at it after the promotion probed its branch, so the reset moves it instead. The
   * attempt reports success.
   */
  lemma {:induction false} RepointedHeadLosesABranch(p: Promotion, r: Repo, branch: RefName, other: RefName,
                                                     script: Script<Repo>)
    requires CalmUntil(script, 10) && GatesHold(p, r) && p.initial != p.accepted
    requires OnBranchAt(r, branch, p.initial) && CanonicalReady(p, r)
    requires other != branch && other in r.refs && r.refs[other] != p.initial && r.refs[other] != p.accepted
    requires script(10).arrive(r) == r.(head := OnBranch(other)) && script(10).turn.ending == CLEAN_EXIT
    requires forall k: nat :: k > 10 ==> CalmAt(script, k)
    requires p.objects.cleanAt(p.objects.tree(p.accepted), p.accepted)
    ensures var (end, m) := Play(p, CheckSubmodules, script, Moment(r, 0));
            end == Done(Promoted) && At(m.state, other, p.accepted) && At(m.state, branch, p.accepted)
  {
    ReachesSwap(p, r, branch, p.initial, script);
    RepointedSwapEnds(p, r, branch, other, script);
  }

  lemma {:induction false} RepointedSwapEnds(p: Promotion, r: Repo, branch: RefName, other: RefName,
                                             script: Script<Repo>)
    requires OnBranchAt(r, branch, p.initial) && other != branch && other in r.refs
    requires script(10).arrive(r) == r.(head := OnBranch(other)) && script(10).turn.ending == CLEAN_EXIT
    requires forall k: nat :: k > 10 ==> CalmAt(script, k)
    requires p.initial != p.accepted && p.objects.cleanAt(p.objects.tree(p.accepted), p.accepted)
    requires GatesHold(p, r) && CanonicalReady(p, r)
    ensures var (end, m) := Play(p, Swap(p.initial, branch), script, Moment(r, 10));
            end == Done(Promoted) && At(m.state, other, p.accepted) && At(m.state, branch, p.accepted)
  {
    var turned := r.(head := OnBranch(other));
    RepointedSwapLands(p, r, branch, turned, script);
    SyncThenPromoted(p, Swapped(turned, branch, p.accepted, Subject(p)), script, 11);
  }

  lemma RepointedSwapLands(p: Promotion, r: Repo, branch: RefName, turned: Repo, script: Script<Repo>)
    requires script(10).arrive(r) == turned && script(10).turn.ending == CLEAN_EXIT && At(turned, branch, p.initial)
    ensures Play(p, Swap(p.initial, branch), script, Moment(r, 10))
         == Play(p, Sync, script, Moment(Swapped(turned, branch, p.accepted, Subject(p)), 11))
  {
    PlayStep(p, Swap(p.initial, branch), script, Moment(r, 10));
  }

  // ------------------------------------------- when a signal ends a landed swap

  /**
   * A swap killed by a signal after the ref moved ends the attempt as lost to a concurrent writer,
   * with the branch at the accepted commit and the promotion's own entry on it; the attempt
   * claims to have changed nothing.
   */
  lemma {:induction false} SignalledSwapEndsBlocked(p: Promotion, r: Repo, branch: RefName, number: int,
                                                    script: Script<Repo>)
    requires CalmUntil(script, 10) && GatesHold(p, r) && p.initial != p.accepted
    requires OnBranchAt(r, branch, p.initial) && CanonicalReady(p, r)
    requires script(10).arrive(r) == r && script(10).turn.moved
    requires script(10).turn.ending == Ran(ProcessOutput(Some(Signal(number)), false)) && CalmAt(script, 11)
    ensures Play(p, CheckSubmodules, script, Moment(r, 0))
         == (Done(Blocked(p.accepted, ConcurrentBranchUpdate)),
             Moment(Swapped(r, branch, p.accepted, Subject(p)), 12))
    ensures PromotionSafety.ClaimsNoEffect(Ended(Done(Blocked(p.accepted, ConcurrentBranchUpdate))))
  {
    ReachesSwap(p, r, branch, p.initial, script);
    SignalledSwapIsLost(p, r, branch, number, script);
    LostSwapReportsHead(p, Swapped(r, branch, p.accepted, Subject(p)), script);
  }

  lemma {:induction false} SignalledSwapIsLost(p: Promotion, r: Repo, branch: RefName, number: int, script: Script<Repo>)
    requires At(r, branch, p.initial) && script(10).arrive(r) == r && script(10).turn.moved
    requires script(10).turn.ending == Ran(ProcessOutput(Some(Signal(number)), false))
    ensures Play(p, Swap(p.initial, branch), script, Moment(r, 10))
         == Play(p, LostSwap(p.initial), script, Moment(Swapped(r, branch, p.accepted, Subject(p)), 11))
  {
    PlayStep(p, Swap(p.initial, branch), script, Moment(r, 10));
  }

  lemma {:induction false} LostSwapReportsHead(p: Promotion, r: Repo, script: Script<Repo>)
    requires CalmAt(script, 11) && HeadOid(r) == Some(p.accepted)
    ensures Play(p, LostSwap(p.initial), script, Moment(r, 11))
         == (Done(Blocked(p.accepted, ConcurrentBranchUpdate)), Moment(r, 12))
  {
    UndisturbedStep(p, LostSwap(p.initial), script, Moment(r, 11));
  }
}
