/** What governed producers share: a world that moves between their probes, and a clean observation. */
module Producer {
  import opened Common
  import opened GitProbe
  import opened GitRepository

  datatype Failure =
    | ReadFailed
    | SubmoduleConfiguration
    | ConfigurationUnpinned
    | ConfigurationChanged(component: Component)
    /** A probe that gave no answer. */
    | Unknown(probe: ProbeFailure)
    /** A probe that completed and failed where only success is an answer. */
    | ProbeFailed
    | NotWorktreeRoot
    | Dirty
    | NotDescended
    | StagedHeadMismatch
    | NotALocalBranch
    | SyncFailed
    | NotLanded
    | ClaimMismatch
    | NotMaterialized

  /**
   * What one step meets: how its probe ends and, for a write that is not confirmed, whether the
   * ref moved anyway, what the working tree is left as, and whether a reset is logged.
   */
  datatype Turn = Turn(ending: Ending, moved: bool, worktree: Worktree, logged: bool)

  /** What everyone else does to the world before a step, and what the step then meets. */
  datatype Meeting<!S> = Meeting(arrive: S -> S, turn: Turn)

  type Script<!S> = nat -> Meeting<S>

  /** The world as it stands, and how many steps it has met. */
  datatype Moment<+S> = Moment(state: S, clock: nat)

  function Next<S>(script: Script<S>, m: Moment<S>): Moment<S> {
    Moment(script(m.clock).arrive(m.state), m.clock + 1)
  }

  function TurnOf<S>(script: Script<S>, m: Moment<S>): Turn {
    script(m.clock).turn
  }

  /** One checkout: whether it is the root Git discovers, its HEAD commit, if it resolves, its working tree. */
  datatype Checkout = Checkout(isRoot: bool, head: Option<Oid>, worktree: Worktree)

  predicate CleanCheckout(objects: Objects, c: Checkout) {
    c.head.Some? && objects.cleanAt(c.worktree, c.head.value)
  }

  // ------------------------------- one probe, when only success is an answer

  function Completed(ending: Ending): Option<Failure> {
    match Ask(ending, true)
    case Ok(true) => None
    case Ok(false) => Some(ProbeFailed)
    case Err(e) => Some(Unknown(e))
  }

  function RootProbe(c: Checkout, ending: Ending): Option<Failure> {
    match Completed(ending)
    case Some(why) => Some(why)
    case None => if c.isRoot then None else Some(NotWorktreeRoot)
  }

  function StatusProbe(objects: Objects, c: Checkout, ending: Ending): Option<Failure> {
    match Completed(ending)
    case Some(why) => Some(why)
    case None => if CleanCheckout(objects, c) then None else Some(Dirty)
  }

  function HeadProbe(c: Checkout, ending: Ending): Result<Oid, Failure> {
    match Completed(ending)
    case Some(why) => Err(why)
    case None => if c.head.Some? then Ok(c.head.value) else Err(ProbeFailed)
  }

  function AncestryProbe(objects: Objects, initial: Oid, oid: Oid, ending: Ending): Result<Oid, Failure> {
    match Ask(ending, objects.descends(initial, oid))
    case Ok(true) => Ok(oid)
    case Ok(false) => Err(NotDescended)
    case Err(e) => Err(Unknown(e))
  }

  // ----------------------------------------- the clean observation, step by step

  function ObserveAncestry<S>(objects: Objects, initial: Option<Oid>, oid: Oid, script: Script<S>,
                              m: Moment<S>): (Result<Oid, Failure>, Moment<S>)
  {
    if initial.None? then (Ok(oid), m)
    else (AncestryProbe(objects, initial.value, oid, TurnOf(script, m).ending), Next(script, m))
  }

  function ObserveHead<S>(objects: Objects, look: S -> Checkout, initial: Option<Oid>, script: Script<S>,
                          m: Moment<S>): (Result<Oid, Failure>, Moment<S>)
  {
    var now := Next(script, m);
    match HeadProbe(look(now.state), TurnOf(script, m).ending)
    case Err(why) => (Err(why), now)
    case Ok(oid) => ObserveAncestry(objects, initial, oid, script, now)
  }

  function ObserveStatus<S>(objects: Objects, look: S -> Checkout, initial: Option<Oid>, script: Script<S>,
                            m: Moment<S>): (Result<Oid, Failure>, Moment<S>)
  {
    var now := Next(script, m);
    match StatusProbe(objects, look(now.state), TurnOf(script, m).ending)
    case Some(why) => (Err(why), now)
    case None => ObserveHead(objects, look, initial, script, now)
  }

  /** A clean committed subject of exactly this worktree, descended from `initial` when one is given. */
  function ObserveClean<S>(objects: Objects, look: S -> Checkout, initial: Option<Oid>, script: Script<S>,
                           m: Moment<S>): (Result<Oid, Failure>, Moment<S>)
  {
    var now := Next(script, m);
    match RootProbe(look(now.state), TurnOf(script, m).ending)
    case Some(why) => (Err(why), now)
    case None => ObserveStatus(objects, look, initial, script, now)
  }

  class World<!S> {
    var state: S
    var clock: nat
    const script: Script<S>

    constructor (state: S, script: Script<S>)
      ensures Now() == Moment(state, 0) && this.script == script
    {
      this.state, this.clock, this.script := state, 0, script;
    }

    function Now(): Moment<S>
      reads this
    {
      Moment(state, clock)
    }

    /** Lets everyone else act, then tells how the probe being run now ends. */
    method Meet() returns (turn: Turn)
      modifies this
      ensures Now() == Next(script, old(Now())) && turn == TurnOf(script, old(Now()))
    {
      var meeting := script(clock);
      state, clock := meeting.arrive(state), clock + 1;
      turn := meeting.turn;
    }

    method ObserveCleanSubject(objects: Objects, look: S -> Checkout, initial: Option<Oid>)
      returns (r: Result<Oid, Failure>)
      modifies this
      ensures (r, Now()) == ObserveClean(objects, look, initial, script, old(Now()))
    {
      var turn := Meet();
      var refused := Completed(turn.ending);
      if refused.Some? {
        return Err(refused.value);
      }
      if !look(state).isRoot {
        return Err(NotWorktreeRoot);
      }
      turn := Meet();
      refused := Completed(turn.ending);
      if refused.Some? {
        return Err(refused.value);
      }
      if !CleanCheckout(objects, look(state)) {
        return Err(Dirty);
      }
      turn := Meet();
      var head := HeadProbe(look(state), turn.ending);
      if head.Err? || initial.None? {
        return head;
      }
      turn := Meet();
      var descends := Ask(turn.ending, objects.descends(initial.value, head.value));
      if descends.Err? {
        return Err(Unknown(descends.error));
      }
      if !descends.value {
        return Err(NotDescended);
      }
      return head;
    }
  }

  /** Some turn between two moments gave no answer. */
  ghost predicate LostBetween<S>(script: Script<S>, from: nat, to: nat) {
    exists k :: from <= k < to && Lost(script(k).turn.ending)
  }

  /** The moment `n` steps later. */
  function After<S>(script: Script<S>, m: Moment<S>, n: nat): Moment<S> {
    if n == 0 then m else Next(script, After(script, m, n - 1))
  }

  /** The four moments at which a clean observation looks. */
  lemma {:induction false} FourMoments<S>(script: Script<S>, m: Moment<S>)
    ensures After(script, m, 1) == Next(script, m)
    ensures After(script, m, 2) == Next(script, Next(script, m))
    ensures After(script, m, 3) == Next(script, Next(script, Next(script, m)))
    ensures After(script, m, 4) == Next(script, Next(script, Next(script, Next(script, m))))
  {
    assert After(script, m, 1) == Next(script, m);
    assert After(script, m, 2) == Next(script, After(script, m, 1));
    assert After(script, m, 3) == Next(script, After(script, m, 2));
    assert After(script, m, 4) == Next(script, After(script, m, 3));
  }

  /**
   * A clean observation says "unknown" exactly when one of its probes was lost: such a probe
   * gives no root finding, no cleanliness finding, no ancestry finding and no commit.
   */
  lemma {:induction false} LostProbeIsNoFinding<S>(objects: Objects, look: S -> Checkout, initial: Option<Oid>,
                                                   script: Script<S>, m: Moment<S>)
    ensures var (r, end) := ObserveClean(objects, look, initial, script, m);
            (r.Err? && r.error.Unknown?) <==> LostBetween(script, m.clock, end.clock)
  {
    var (r, end) := ObserveClean(objects, look, initial, script, m);
    LostProbesDoNotAnswer(script(m.clock).turn.ending, true);
    LostProbesDoNotAnswer(script(m.clock + 1).turn.ending, true);
    LostProbesDoNotAnswer(script(m.clock + 2).turn.ending, true);
    if r.Err? && r.error.Unknown? {
      assert Lost(script(end.clock - 1).turn.ending);
    }
  }

  /** An observed commit was HEAD, of a root just seen clean, and descends from the given one. */
  lemma {:induction false} ObservedIsClean<S>(objects: Objects, look: S -> Checkout, initial: Option<Oid>,
                                              script: Script<S>, m: Moment<S>)
    ensures var (r, end) := ObserveClean(objects, look, initial, script, m);
            r.Ok? ==>
              && look(After(script, m, 1).state).isRoot
              && CleanCheckout(objects, look(After(script, m, 2).state))
              && look(After(script, m, 3).state).head == Some(r.value)
              && (initial.Some? ==> objects.descends(initial.value, r.value))
              && end == After(script, m, if initial.Some? then 4 else 3)
  {
    FourMoments(script, m);
  }

  /** The probe at this clock exited cleanly. */
  predicate Answered<S>(script: Script<S>, clock: nat) {
    script(clock).turn.ending == CLEAN_EXIT
  }

  /**
   * A commit is observed exactly when every probe exited cleanly, the root was the worktree's own,
   * then the tree clean at its HEAD, then HEAD that commit, and the commit descends from the
   * given one; a foreign root and an unclean tree are reported exactly when they are what was met.
   */
  lemma {:induction false} ObservedExactly<S>(objects: Objects, look: S -> Checkout, initial: Option<Oid>,
                                              script: Script<S>, m: Moment<S>, oid: Oid)
    ensures var r := ObserveClean(objects, look, initial, script, m).0;
            var root, status, head :=
              look(After(script, m, 1).state), look(After(script, m, 2).state), look(After(script, m, 3).state);
            var rooted := Answered(script, m.clock) && root.isRoot;
            var clean := Answered(script, m.clock + 1) && status.head.Some?
                         && objects.cleanAt(status.worktree, status.head.value);
            && (r == Ok(oid) <==>
                  && rooted && clean && Answered(script, m.clock + 2) && head.head == Some(oid)
                  && (initial.Some? ==> Answered(script, m.clock + 3) && objects.descends(initial.value, oid)))
            && (r == Err(NotWorktreeRoot) <==> Answered(script, m.clock) && !root.isRoot)
            && (r == Err(Dirty) <==> rooted && Answered(script, m.clock + 1) && !clean)
  {
    FourMoments(script, m);
  }

  /**
   * A root or cleanliness finding is true of the tree looked at. Once the ancestry is asked, "not
   * descended" is answered exactly when the commit is truly not descended, or when the probe ended
   * without exiting cleanly: a false finding comes from nothing but such a probe.
   */
  lemma {:induction false} FindingIsTrueUnlessBroken<S>(objects: Objects, look: S -> Checkout, initial: Option<Oid>,
                                                        script: Script<S>, m: Moment<S>)
    ensures var (r, end) := ObserveClean(objects, look, initial, script, m);
            var head := look(After(script, m, 3).state).head;
            var ending := script(m.clock + 3).turn.ending;
            && (r == Err(NotWorktreeRoot) ==> !look(After(script, m, 1).state).isRoot)
            && (r == Err(Dirty) ==> !CleanCheckout(objects, look(After(script, m, 2).state)))
            && (r == Err(NotDescended) ==> initial.Some? && head.Some?)
            && (initial.Some? && (r.Ok? || r.error.NotDescended?) ==>
                  && head.Some?
                  && (r == Err(NotDescended) <==>
                        !objects.descends(initial.value, head.value) || Broken(ending)))
  {
    FourMoments(script, m);
    if initial.Some? && look(After(script, m, 3).state).head.Some? {
      LostProbesDoNotAnswer(script(m.clock + 3).turn.ending,
                            objects.descends(initial.value, look(After(script, m, 3).state).head.value));
    }
  }
}
