/** Everything an undisturbed attempt can decide: the first gate that is shut, or a promotion. */
module PromotionDecision {
  import opened Common
  import opened GitRepository
  import opened Producer
  import opened Promotion
  import opened PromotionAttempt
  import opened PromotionRetry

  /** What an undisturbed attempt ends as, with the repository it leaves. */
  function EndOf(p: Promotion, r: Repo, script: Script<Repo>): (End, Repo) {
    var (end, m) := Play(p, CheckSubmodules, script, Moment(r, 0));
    (end, m.state)
  }

  // ------------------------------------------------- the configuration gates

  lemma {:induction false} SubmodulesRefuse(p: Promotion, r: Repo, script: Script<Repo>)
    requires Undisturbed(script) && r.submodules
    ensures EndOf(p, r, script) == (Failed(false, SubmoduleConfiguration), r)
  {
    UndisturbedStep(p, CheckSubmodules, script, Moment(r, 0));
  }

  lemma {:induction false} ReasonIsReported(p: Promotion, r: Repo, script: Script<Repo>, reason: Reason, clock: nat)
    requires Undisturbed(script)
    ensures Play(p, RefuseAtHead(reason), script, Moment(r, clock))
         == (if HeadOid(r).Some? then Done(Blocked(HeadOid(r).value, reason)) else Failed(false, ReadFailed),
             Moment(r, clock + 1))
  {
    UndisturbedStep(p, RefuseAtHead(reason), script, Moment(r, clock));
  }

  /** Without a comparable pin, or with a changed component, the head is reported with that reason. */
  lemma {:induction false} PinRefuses(p: Promotion, r: Repo, script: Script<Repo>)
    requires Undisturbed(script) && !r.submodules && p.pin != Some(r.config)
    ensures var reason := if p.pin.None? then RepositoryConfigUnpinned
                          else RepositoryConfigChanged(FirstDifference(p.pin.value, r.config).value);
            EndOf(p, r, script)
            == (if HeadOid(r).Some? then Done(Blocked(HeadOid(r).value, reason)) else Failed(false, ReadFailed), r)
  {
    UndisturbedStep(p, CheckSubmodules, script, Moment(r, 0));
    UndisturbedStep(p, ComparePin, script, Moment(r, 1));
    ReasonIsReported(p, r, script,
                     if p.pin.None? then RepositoryConfigUnpinned
                     else RepositoryConfigChanged(FirstDifference(p.pin.value, r.config).value), 2);
  }

  // ------------------------------------------------------ the observations

  /** What a clean observation of a tree that nobody touches reports. */
  lemma {:induction false} CalmObservationDecides(objects: Objects, look: Repo -> Checkout, initial: Option<Oid>,
                                                  script: Script<Repo>, r: Repo, clock: nat)
    requires Undisturbed(script)
    ensures var (seen, m) := ObserveClean(objects, look, initial, script, Moment(r, clock));
            var c := look(r);
            && m.state == r
            && (!c.isRoot ==> seen == Err(NotWorktreeRoot))
            && (c.isRoot && !CleanCheckout(objects, c) ==> seen == Err(Dirty))
            && (c.isRoot && CleanCheckout(objects, c) ==>
                  seen == if initial.Some? && !objects.descends(initial.value, c.head.value) then Err(NotDescended)
                          else Ok(c.head.value))
  {
    assert CalmAt(script, clock) && CalmAt(script, clock + 1) && CalmAt(script, clock + 2) && CalmAt(script, clock + 3);
  }

  /**
   * The staged tree: not its own root, not clean, not a descendant, not at the accepted commit,
   * in that order.
   */
  lemma {:induction false} StagedTreeDecides(p: Promotion, r: Repo, script: Script<Repo>)
    requires Undisturbed(script) && ConfigHolds(p, r) && !GatesHold(p, r)
    ensures EndOf(p, r, script)
         == (Failed(false, if !r.stagedRoot then NotWorktreeRoot
                           else if !p.objects.cleanAt(r.stagedTree, r.stagedHead) then Dirty
                           else if !p.objects.descends(p.initial, r.stagedHead) then NotDescended
                           else StagedHeadMismatch), r)
  {
    ConfigGatesPass(p, r, script);
    CalmObservationDecides(p.objects, StagedCheckout, Some(p.initial), script, r, 2);
    StagedIsFourPhases(p, script, Moment(r, 2));
  }

  lemma {:induction false} CanonicalTreeDecides(p: Promotion, r: Repo, script: Script<Repo>)
    requires Undisturbed(script) && GatesHold(p, r) && !CanonicalReady(p, r)
    ensures EndOf(p, r, script) == (Failed(false, if r.canonicalRoot then Dirty else NotWorktreeRoot), r)
  {
    StagedGatesPass(p, r, script);
    CalmObservationDecides(p.objects, CanonicalCheckout, None, script, r, 6);
    CanonicalIsThreePhases(p, script, Moment(r, 6));
  }

  /** A HEAD on no branch, or on one that is not local. */
  lemma {:induction false} ForeignHeadStops(p: Promotion, r: Repo, head: Oid, script: Script<Repo>)
    requires Undisturbed(script) && (r.head.OnBranch? ==> !LocalBranch(r.head.ref))
    ensures Play(p, ProbeBranch(head), script, Moment(r, 9))
         == (if r.head.OnBranch? then Failed(false, NotALocalBranch) else Done(Blocked(head, DetachedHead)),
             Moment(r, 10))
  {
    UndisturbedStep(p, ProbeBranch(head), script, Moment(r, 9));
  }

  lemma {:induction false} HeadDecides(p: Promotion, r: Repo, script: Script<Repo>)
    requires Undisturbed(script) && GatesHold(p, r) && CanonicalReady(p, r)
    requires r.head.OnBranch? ==> !LocalBranch(r.head.ref)
    ensures EndOf(p, r, script)
         == (if r.head.OnBranch? then Failed(false, NotALocalBranch)
             else Done(Blocked(r.head.oid, DetachedHead)), r)
  {
    StagedGatesPass(p, r, script);
    CanonicalObservationPasses(p, r, HeadOid(r).value, script);
    ForeignHeadStops(p, r, HeadOid(r).value, script);
  }

  // ------------------------------------------------------------- the branch

  /** Every gate before the branch's commit is open. */
  predicate OnTheBranch(p: Promotion, r: Repo) {
    GatesHold(p, r) && CanonicalReady(p, r) && r.head.OnBranch? && LocalBranch(r.head.ref)
  }

  /** The branch shows this promotion's own swap. */
  predicate AlreadyLanded(p: Promotion, r: Repo) {
    && r.head.OnBranch? && At(r, r.head.ref, p.accepted)
    && Carries(Reflog(r, r.head.ref), p.accepted, Subject(p))
  }

  /** The branch is at the initial commit, and nothing shows that it was promoted. */
  predicate ToBeSwapped(p: Promotion, r: Repo) {
    OnTheBranch(p, r) && At(r, r.head.ref, p.initial) && !AlreadyLanded(p, r)
  }

  /** A swap and its sync; if even the accepted tree is not clean, the error is marked dispatched. */
  lemma {:induction false} SwapAndSync(p: Promotion, r: Repo, script: Script<Repo>, clock: nat)
    requires Undisturbed(script) && ToBeSwapped(p, r)
    ensures var (end, m) := Play(p, Swap(p.initial, r.head.ref), script, Moment(r, clock));
            && m.state == PromotedRepo(p, r, r.head.ref, script(clock + 1).turn.logged)
            && end == if p.objects.cleanAt(p.objects.tree(p.accepted), p.accepted) then Done(Promoted)
                      else Failed(true, Dirty)
  {
    var branch := r.head.ref;
    var swapped := Swapped(r, branch, p.accepted, Subject(p));
    var synced := PromotedRepo(p, r, branch, script(clock + 1).turn.logged);
    SwapLands(p, r, branch, script, clock);
    SyncSucceeds(p, swapped, script, clock + 1);
    CalmObservationDecides(p.objects, CanonicalCheckout, Some(p.initial), script, synced, clock + 2);
    FinalIsFourPhases(p, script, Moment(synced, clock + 2));
  }

  lemma {:induction false} BranchIsSwapped(p: Promotion, r: Repo, script: Script<Repo>)
    requires Undisturbed(script) && ToBeSwapped(p, r)
    ensures var (end, after) := EndOf(p, r, script);
            && (exists logged :: after == PromotedRepo(p, r, r.head.ref, logged))
            && end == if p.objects.cleanAt(p.objects.tree(p.accepted), p.accepted) then Done(Promoted)
                      else Failed(true, Dirty)
  {
    if p.initial == p.accepted {
      ReachesReflog(p, r, r.head.ref, script);
      SwapAndSync(p, r, script, 11);
    } else {
      ReachesSwap(p, r, r.head.ref, p.initial, script);
      SwapAndSync(p, r, script, 10);
    }
  }

  lemma {:induction false} PromotedRepoIsAChange(p: Promotion, r: Repo, branch: RefName, logged: bool)
    ensures r.head == OnBranch(branch) ==> PromotedRepo(p, r, branch, logged) != r
  {
    assert r.head == OnBranch(branch) ==> |Reflog(PromotedRepo(p, r, branch, logged), branch)| > |Reflog(r, branch)|;
  }

  /** A shut gate refuses the attempt, without promoting and without a change. */
  lemma {:induction false} ShutGateRefuses(p: Promotion, r: Repo, script: Script<Repo>)
    requires Undisturbed(script) && !OnTheBranch(p, r)
    ensures EndOf(p, r, script).0 != Done(Promoted) && EndOf(p, r, script).1 == r
  {
    if r.submodules {
      SubmodulesRefuse(p, r, script);
    } else if !ConfigHolds(p, r) {
      PinRefuses(p, r, script);
    } else if !GatesHold(p, r) {
      StagedTreeDecides(p, r, script);
    } else if !CanonicalReady(p, r) {
      CanonicalTreeDecides(p, r, script);
    } else {
      HeadDecides(p, r, script);
    }
  }

  /**
   * Undisturbed, an attempt promotes exactly when every gate is open and the branch either shows
   * its own swap already or is at the initial commit with an accepted tree that checks out clean;
   * it changes the repository exactly when the branch is at the initial commit behind open gates
   * and shows no such swap.
   */
  lemma {:induction false} PromotedExactlyWhen(p: Promotion, r: Repo, script: Script<Repo>)
    requires Undisturbed(script)
    ensures var (end, after) := EndOf(p, r, script);
            && (end == Done(Promoted) <==>
                  && OnTheBranch(p, r)
                  && (AlreadyLanded(p, r)
                      || (At(r, r.head.ref, p.initial) && p.objects.cleanAt(p.objects.tree(p.accepted), p.accepted))))
            && (after != r <==> ToBeSwapped(p, r))
  {
    if !OnTheBranch(p, r) {
      ShutGateRefuses(p, r, script);
    } else if ToBeSwapped(p, r) {
      BranchIsSwapped(p, r, script);
      var logged :| EndOf(p, r, script).1 == PromotedRepo(p, r, r.head.ref, logged);
      PromotedRepoIsAChange(p, r, r.head.ref, logged);
    } else {
      UndisturbedAttempt(p, r, r.head.ref, HeadOid(r).value, script);
    }
  }
}
