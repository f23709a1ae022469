/** Promotion as steps: many attempts, other writers, crashes and retries over one repository. */
module Promotion {
  import opened Common
  import opened GitProbe
  import opened GitRepository
  import opened Producer

  /** What every attempt to promote one accepted outcome shares. */
  datatype Promotion = Promotion(
    initial: Oid,
    accepted: Oid,
    /** The comparable configuration pin, when there is one. */
    pin: Option<ConfigDigest>,
    objects: Objects)

  /** The reflog subject that names the exact move. */
  function Subject(p: Promotion): string {
    "impulse governed promotion " + p.initial + ".." + p.accepted
  }

  datatype Reason =
    | RepositoryConfigUnpinned
    | RepositoryConfigChanged(component: Component)
    | DetachedHead
    | CanonicalHeadMoved
    | ConcurrentBranchUpdate

  datatype Outcome = Promoted | Blocked(canonicalHead: Oid, reason: Reason)

  /** How an attempt ends; a dispatched failure is one whose effect may have happened. */
  datatype End = Done(outcome: Outcome) | Failed(dispatched: bool, why: Failure) | Crashed

  /** What an attempt does next, with what it has observed so far. */
  datatype Phase =
    | CheckSubmodules
    | ComparePin
    | RefuseAtHead(reason: Reason)
    | StagedRoot
    | StagedStatus
    | StagedHead
    | StagedAncestry(oid: Oid)
    | CanonicalRoot
    | CanonicalStatus
    | CanonicalHead
    | ProbeBranch(head: Oid)
    | ProbeReflog(head: Oid, branch: RefName)
    | Swap(head: Oid, branch: RefName)
    | LostSwap(head: Oid)
    | Sync
    | FinalRoot
    | FinalStatus
    | FinalHead
    | FinalAncestry(oid: Oid)
    | Ended(end: End)

  predicate LocalBranch(ref: RefName) {
    "refs/heads/" <= ref
  }

  function Fail(why: Failure): Phase {
    Ended(Failed(false, why))
  }

  function Dispatched(why: Failure): Phase {
    Ended(Failed(true, why))
  }

  function StagedCheckout(r: Repo): Checkout {
    Checkout(r.stagedRoot, Some(r.stagedHead), r.stagedTree)
  }

  function CanonicalCheckout(r: Repo): Checkout {
    Checkout(r.canonicalRoot, HeadOid(r), r.worktree)
  }

  function AfterCheck(refused: Option<Failure>, next: Phase, dispatched: bool): Phase {
    match refused
    case Some(why) => Ended(Failed(dispatched, why))
    case None => next
  }

  function AfterHead(head: Result<Oid, Failure>, next: Oid -> Phase, dispatched: bool): Phase {
    match head
    case Ok(oid) => next(oid)
    case Err(why) => Ended(Failed(dispatched, why))
  }

  /** A full observation ends with a commit, which must be the accepted one. */
  function AfterAncestry(p: Promotion, head: Result<Oid, Failure>, next: Phase, otherwise: Failure,
                         dispatched: bool): Phase
  {
    match head
    case Ok(oid) => if oid == p.accepted then next else Ended(Failed(dispatched, otherwise))
    case Err(why) => Ended(Failed(dispatched, why))
  }

  /** After the branch is known and the reflog does not claim it. */
  function MovedOrSwap(p: Promotion, head: Oid, branch: RefName): Phase {
    if head != p.initial then Ended(Done(Blocked(head, CanonicalHeadMoved))) else Swap(head, branch)
  }

  function AfterBranchProbe(p: Promotion, r: Repo, head: Oid, ending: Ending): Phase {
    match Ask(ending, r.head.OnBranch?)
    case Err(e) => Fail(Unknown(e))
    case Ok(false) => Ended(Done(Blocked(head, DetachedHead)))
    case Ok(true) =>
      var branch := r.head.ref;
      if !LocalBranch(branch) then Fail(NotALocalBranch)
      else if head == p.accepted then ProbeReflog(head, branch)
      else MovedOrSwap(p, head, branch)
  }

  function AfterReflogProbe(p: Promotion, r: Repo, head: Oid, branch: RefName, ending: Ending): Phase {
    match Ask(ending, branch in r.refs)
    case Err(e) => Fail(Unknown(e))
    case Ok(found) =>
      if found && Carries(Reflog(r, branch), p.accepted, Subject(p)) then Ended(Done(Promoted))
      else MovedOrSwap(p, head, branch)
  }

  /** The pin comparison: filesystem reads only, before any Git process. */
  function AfterComparison(p: Promotion, r: Repo, ending: Ending): Phase {
    match p.pin
    case None => RefuseAtHead(RepositoryConfigUnpinned)
    case Some(pinned) =>
      if ending.NeverObserved? then Fail(ReadFailed)
      else
        match FirstDifference(pinned, r.config)
        case Some(component) => RefuseAtHead(RepositoryConfigChanged(component))
        case None => StagedRoot
  }

  /** Where a lost compare-and-swap leaves the attempt: it reports the head it can see. */
  function AfterLostSwap(r: Repo, head: Oid, ending: Ending): Phase {
    var seen := if HeadOid(r).Some? && Ask(ending, true) == Ok(true) then HeadOid(r).value else head;
    Ended(Done(Blocked(seen, ConcurrentBranchUpdate)))
  }

  predicate Writes(phase: Phase) {
    phase.Swap? || phase.Sync?
  }

  /** The next phase of one that only reads. */
  function Observe(p: Promotion, phase: Phase, r: Repo, ending: Ending): Phase
    requires !Writes(phase) && !phase.Ended?
  {
    match phase
    case CheckSubmodules =>
      if ending.NeverObserved? then Fail(ReadFailed)
      else if r.submodules then Fail(SubmoduleConfiguration) else ComparePin
    case ComparePin => AfterComparison(p, r, ending)
    case RefuseAtHead(reason) =>
      if ending.NeverObserved? || HeadOid(r).None? then Fail(ReadFailed)
      else Ended(Done(Blocked(HeadOid(r).value, reason)))
    case StagedRoot =>
      AfterCheck(RootProbe(StagedCheckout(r), ending), StagedStatus, false)
    case StagedStatus =>
      AfterCheck(StatusProbe(p.objects, StagedCheckout(r), ending), StagedHead, false)
    case StagedHead =>
      AfterHead(HeadProbe(StagedCheckout(r), ending), oid => StagedAncestry(oid), false)
    case StagedAncestry(oid) =>
      AfterAncestry(p, AncestryProbe(p.objects, p.initial, oid, ending), CanonicalRoot,
                    StagedHeadMismatch, false)
    case CanonicalRoot =>
      AfterCheck(RootProbe(CanonicalCheckout(r), ending), CanonicalStatus, false)
    case CanonicalStatus =>
      AfterCheck(StatusProbe(p.objects, CanonicalCheckout(r), ending), CanonicalHead, false)
    case CanonicalHead =>
      AfterHead(HeadProbe(CanonicalCheckout(r), ending), oid => ProbeBranch(oid), false)
    case ProbeBranch(head) => AfterBranchProbe(p, r, head, ending)
    case ProbeReflog(head, branch) => AfterReflogProbe(p, r, head, branch, ending)
    case LostSwap(head) => AfterLostSwap(r, head, ending)
    case FinalRoot =>
      AfterCheck(RootProbe(CanonicalCheckout(r), ending), FinalStatus, true)
    case FinalStatus =>
      AfterCheck(StatusProbe(p.objects, CanonicalCheckout(r), ending), FinalHead, true)
    case FinalHead =>
      AfterHead(HeadProbe(CanonicalCheckout(r), ending), oid => FinalAncestry(oid), true)
    case FinalAncestry(oid) =>
      AfterAncestry(p, AncestryProbe(p.objects, p.initial, oid, ending), Ended(Done(Promoted)), NotLanded, true)
  }

  /**
   * The compare-and-swap. A failing exit wrote nothing. Killed by a signal, which reads as "the
   * ref did not match", or without an answer, it may have landed, provided the ref still was what
   * was expected.
   */
  function AttemptSwap(p: Promotion, head: Oid, branch: RefName, r: Repo, turn: Turn): (Phase, Repo) {
    var ready := At(r, branch, p.initial);
    var landed := Swapped(r, branch, p.accepted, Subject(p));
    var unconfirmed := if ready && turn.moved then landed else r;
    match Ask(turn.ending, ready)
    case Ok(true) => (Sync, landed)
    case Ok(false) => (LostSwap(head), if Signalled(turn.ending) then unconfirmed else r)
    case Err(e) => (Dispatched(Unknown(e)), unconfirmed)
  }

  /** `git reset --hard` to the accepted commit, on whatever HEAD names now. */
  function AttemptSync(p: Promotion, r: Repo, turn: Turn): (Phase, Repo) {
    var moved := HeadMoved(r, p.accepted, turn.logged);
    var partial := (if turn.moved then moved else r).(worktree := turn.worktree);
    match Ask(turn.ending, true)
    case Ok(true) => (FinalRoot, moved.(worktree := p.objects.tree(p.accepted)))
    case Ok(false) => (Dispatched(SyncFailed), partial)
    case Err(e) => (Dispatched(Unknown(e)), partial)
  }

  function Advance(p: Promotion, phase: Phase, r: Repo, turn: Turn): (Phase, Repo)
    requires !phase.Ended?
  {
    if phase.Swap? then AttemptSwap(p, phase.head, phase.branch, r, turn)
    else if phase.Sync? then AttemptSync(p, r, turn)
    else (Observe(p, phase, r, turn.ending), r)
  }

  // ------------------------------------------------------------------ runs

  datatype System = System(repo: Repo, attempts: seq<Phase>)

  datatype Actor =
    /** Any other writer. */
    | Foreign
    /** A promotion request arrives, the first one or a retry. */
    | Request
    | Crash(i: nat)
    | Act(i: nat, turn: Turn)

  /** Some reflog holds an entry with the promotion's subject. */
  predicate Marked(p: Promotion, r: Repo) {
    exists ref :: ref in r.reflogs && exists k :: 0 <= k < |r.reflogs[ref]| && r.reflogs[ref][k].subject == Subject(p)
  }

  predicate Active(s: System, i: nat) {
    i < |s.attempts| && !s.attempts[i].Ended?
  }

  /** One step. Other writers may do anything but write the promotion's reflog subject. */
  ghost predicate Step(p: Promotion, s: System, actor: Actor, t: System) {
    match actor
    case Foreign => t.attempts == s.attempts && (Marked(p, t.repo) ==> Marked(p, s.repo))
    case Request => t == s.(attempts := s.attempts + [CheckSubmodules])
    case Crash(i) => Active(s, i) && t == s.(attempts := s.attempts[i := Ended(Crashed)])
    case Act(i, turn) =>
      && Active(s, i)
      && var (phase, repo) := Advance(p, s.attempts[i], s.repo, turn);
         t == System(repo, s.attempts[i := phase])
  }

  /** Everything that happened, newest step outermost. */
  datatype Run = Begin(state: System) | Then(before: Run, actor: Actor, state: System)

  ghost predicate Valid(p: Promotion, run: Run) {
    match run
    case Begin(s) => s.attempts == [] && !Marked(p, s.repo)
    case Then(before, actor, t) => Valid(p, before) && Step(p, before.state, actor, t)
  }
}
