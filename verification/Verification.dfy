/** The claim and verification producers: what they observe, what they run, and what they may report. */
module Verification {
  import opened Common
  import opened GitProbe
  import opened GitRepository
  import opened Producer
  import opened SourceTree
  import opened SourceManifest
  import opened ManifestBuilder
  import opened ManifestIdentity

  /** Everything the producers look at: the governed source tree and the detached verifier tree. */
  datatype Bench = Bench(
    submodules: bool,
    config: ConfigDigest,
    source: Checkout,
    detached: Checkout,
    tree: Node,
    lockfile: bool)

  function SourceOf(b: Bench): Checkout {
    b.source
  }

  function DetachedOf(b: Bench): Checkout {
    b.detached
  }

  /** A staged task's worktree has a pin, comparable or not, once it is materialized. */
  datatype Scope = Canonical | Staged(pin: Option<ConfigDigest>) | StagedUnmaterialized

  datatype Task = Task(scope: Scope, initial: Oid, claim: Oid, objects: Objects)

  const PROFILE: seq<string> := ["cargo fmt check", "cargo check", "cargo clippy", "cargo test"]

  datatype Evidence = Evidence(step: string, success: bool, timedOut: bool)

  datatype VerificationOutcome = Passed | Failed | Inconclusive

  datatype VerificationRecord = Verified(outcome: VerificationOutcome, commands: seq<Evidence>)

  // ------------------------------------------------------------------ the gate

  /** At most two filesystem reads, and no Git: submodules first, then the pin comparison. */
  function CheckPin(scope: Scope, script: Script<Bench>, m: Moment<Bench>): (Option<Failure>, Moment<Bench>) {
    if !scope.Staged? then (None, m)
    else
      var first := Next(script, m);
      if TurnOf(script, m).ending.NeverObserved? then (Some(ReadFailed), first)
      else if first.state.submodules then (Some(SubmoduleConfiguration), first)
      else if scope.pin.None? then (Some(ConfigurationUnpinned), first)
      else (ComparePins(scope.pin.value, Next(script, first).state, TurnOf(script, first)), Next(script, first))
  }

  function ComparePins(pinned: ConfigDigest, b: Bench, turn: Turn): Option<Failure> {
    if turn.ending.NeverObserved? then Some(ReadFailed)
    else
      match FirstDifference(pinned, b.config)
      case Some(component) => Some(ConfigurationChanged(component))
      case None => None
  }

  /** The subject in the governed source tree, behind the gate. */
  function SourceSubject(task: Task, script: Script<Bench>, m: Moment<Bench>): (Result<Oid, Failure>, Moment<Bench>) {
    var (refused, now) := CheckPin(task.scope, script, m);
    if refused.Some? then (Err(refused.value), now)
    else if task.scope.StagedUnmaterialized? then (Err(NotMaterialized), now)
    else ObserveClean(task.objects, SourceOf, Some(task.initial), script, now)
  }

  // --------------------------------------------------------------- the commands

  function Succeeded(o: ProcessOutput): bool {
    !o.timedOut && o.status == Some(Code(0))
  }

  /** Runs the steps in order and stops after the first that does not succeed. */
  function RunSteps(steps: seq<string>, script: Script<Bench>, m: Moment<Bench>)
    : (Result<seq<Evidence>, Failure>, Moment<Bench>)
    decreases |steps|
  {
    if steps == [] then (Ok([]), m)
    else
      var now := Next(script, m);
      match TurnOf(script, m).ending
      case NeverObserved => (Err(ReadFailed), now)
      case Ran(output) =>
        var evidence := Evidence(steps[0], Succeeded(output), output.timedOut);
        if !evidence.success then (Ok([evidence]), now)
        else Prepend(evidence, RunSteps(steps[1..], script, now))
  }

  function Prepend(e: Evidence, rest: (Result<seq<Evidence>, Failure>, Moment<Bench>))
    : (Result<seq<Evidence>, Failure>, Moment<Bench>)
  {
    match rest.0
    case Ok(more) => (Ok([e] + more), rest.1)
    case Err(why) => rest
  }

  // ------------------------------------------------------------ the verification

  /**
   * The three observations after the commands run side by side: each meets the world in its own
   * order of events, from the moment the commands ended.
   */
  datatype Lanes = Lanes(source: Script<Bench>, detached: Script<Bench>, bytes: Script<Bench>)

  /** The source head, the detached head and the detached bytes are still what they were. */
  function SubjectStable(task: Task, before: SourceTreeManifest, lanes: Lanes, ran: Bench): bool {
    var start := Moment(ran, 0);
    var source := ObserveClean(task.objects, SourceOf, Some(task.initial), lanes.source, start).0;
    var detached := ObserveClean(task.objects, DetachedOf, Some(task.claim), lanes.detached, start).0;
    var tree := Next(lanes.bytes, start).state.tree;
    source == Ok(task.claim) && detached == Ok(task.claim) && Attestable(tree) && ManifestOf(tree) == before
  }

  function OutcomeOf(stable: bool, commands: seq<Evidence>): VerificationOutcome {
    if !stable then Inconclusive
    else if commands != [] && AllSucceeded(commands) then Passed
    else Failed
  }

  predicate AllSucceeded(commands: seq<Evidence>) {
    forall i :: 0 <= i < |commands| ==> commands[i].success
  }

  /** From the attested detached tree on. */
  function RunAndRecheck(task: Task, script: Script<Bench>, lanes: Lanes, m: Moment<Bench>)
    : (Result<VerificationRecord, Failure>, Moment<Bench>)
  {
    var attested := Next(script, m);
    if !Attestable(attested.state.tree) then (Ok(Verified(Inconclusive, [])), attested)
    else
      var (commands, ran) := RunSteps(PROFILE, script, attested);
      if commands.Err? then (Err(commands.error), ran)
      else
        var stable := SubjectStable(task, ManifestOf(attested.state.tree), lanes, ran.state);
        (Ok(Verified(OutcomeOf(stable, commands.value), commands.value)), ran)
  }

  /** From the created detached worktree on. */
  function VerifyDetached(task: Task, script: Script<Bench>, lanes: Lanes, m: Moment<Bench>)
    : (Result<VerificationRecord, Failure>, Moment<Bench>)
  {
    var created := Next(script, m);
    var refused := Completed(TurnOf(script, m).ending);
    if refused.Some? then (Err(refused.value), created)
    else
      var checked := Next(script, created);
      if Completed(TurnOf(script, created).ending).Some? || !checked.state.lockfile
      then (Ok(Verified(Inconclusive, [])), checked)
      else RunAndRecheck(task, script, lanes, checked)
  }

  /** The outcome, and the moment the last command ended or the verification was refused. */
  function Verify(task: Task, script: Script<Bench>, lanes: Lanes, m: Moment<Bench>)
    : (Result<VerificationRecord, Failure>, Moment<Bench>)
  {
    var (before, now) := SourceSubject(task, script, m);
    if before.Err? then (Err(before.error), now)
    else if before.value != task.claim then (Err(ClaimMismatch), now)
    else VerifyDetached(task, script, lanes, now)
  }

  // ------------------------------------------------------------------ producers

  method EnsureStagedConfigPinHolds(w: World<Bench>, scope: Scope) returns (refused: Option<Failure>)
    modifies w
    ensures (refused, w.Now()) == CheckPin(scope, w.script, old(w.Now()))
  {
    if !scope.Staged? {
      return None;
    }
    var turn := w.Meet();
    if turn.ending.NeverObserved? {
      return Some(ReadFailed);
    }
    if w.state.submodules {
      return Some(SubmoduleConfiguration);
    }
    if scope.pin.None? {
      return Some(ConfigurationUnpinned);
    }
    turn := w.Meet();
    if turn.ending.NeverObserved? {
      return Some(ReadFailed);
    }
    var difference := FirstDifference(scope.pin.value, w.state.config);
    return if difference.Some? then Some(ConfigurationChanged(difference.value)) else None;
  }

  /** The claim's subject revision. */
  method DeriveClaim(w: World<Bench>, task: Task) returns (r: Result<Oid, Failure>)
    modifies w
    ensures (r, w.Now()) == SourceSubject(task, w.script, old(w.Now()))
  {
    var refused := EnsureStagedConfigPinHolds(w, task.scope);
    if refused.Some? {
      return Err(refused.value);
    }
    if task.scope.StagedUnmaterialized? {
      return Err(NotMaterialized);
    }
    r := w.ObserveCleanSubject(task.objects, SourceOf, Some(task.initial));
  }

  /** The loop over the profile. */
  method RunProfile(w: World<Bench>) returns (r: Result<seq<Evidence>, Failure>)
    modifies w
    ensures (r, w.Now()) == RunSteps(PROFILE, w.script, old(w.Now()))
  {
    var commands: seq<Evidence> := [];
    ghost var start := w.Now();
    assert PROFILE[0..] == PROFILE;
    assert Appended(commands, RunSteps(PROFILE, w.script, start)) == RunSteps(PROFILE, w.script, start) by {
      var whole := RunSteps(PROFILE, w.script, start).0;
      if whole.Ok? {
        assert commands + whole.value == whole.value;
      }
    }
    for i := 0 to |PROFILE|
      invariant RunSteps(PROFILE, w.script, start) == Appended(commands, RunSteps(PROFILE[i..], w.script, w.Now()))
    {
      assert PROFILE[i..][0] == PROFILE[i] && PROFILE[i..][1..] == PROFILE[i + 1..];
      var turn := w.Meet();
      if turn.ending.NeverObserved? {
        return Err(ReadFailed);
      }
      var output := turn.ending.output;
      var evidence := Evidence(PROFILE[i], Succeeded(output), output.timedOut);
      AppendedStep(commands, evidence, RunSteps(PROFILE[i + 1..], w.script, w.Now()));
      commands := commands + [evidence];
      if !evidence.success {
        return Ok(commands);
      }
    }
    assert commands + [] == commands;
    return Ok(commands);
  }

  /** What was run followed by what is left. */
  function Appended(done: seq<Evidence>, rest: (Result<seq<Evidence>, Failure>, Moment<Bench>))
    : (Result<seq<Evidence>, Failure>, Moment<Bench>)
  {
    match rest.0
    case Ok(more) => (Ok(done + more), rest.1)
    case Err(why) => rest
  }

  lemma AppendedStep(done: seq<Evidence>, e: Evidence, rest: (Result<seq<Evidence>, Failure>, Moment<Bench>))
    ensures Appended(done, Prepend(e, rest)) == Appended(done + [e], rest)
  {
    if rest.0.Ok? {
      Associate(done, [e], rest.0.value);
    }
  }

  method RecheckSubject(ran: Bench, task: Task, before: SourceTreeManifest, lanes: Lanes) returns (stable: bool)
    ensures stable == SubjectStable(task, before, lanes, ran)
  {
    var sourceWorld := new World(ran, lanes.source);
    var source := sourceWorld.ObserveCleanSubject(task.objects, SourceOf, Some(task.initial));
    var detachedWorld := new World(ran, lanes.detached);
    var detached := detachedWorld.ObserveCleanSubject(task.objects, DetachedOf, Some(task.claim));
    var bytesWorld := new World(ran, lanes.bytes);
    var _ := bytesWorld.Meet();
    var manifest := AttestTree(bytesWorld.state.tree);
    stable := source == Ok(task.claim) && detached == Ok(task.claim) && manifest == Ok(before);
  }

  method RunVerification(w: World<Bench>, task: Task, lanes: Lanes) returns (r: Result<VerificationRecord, Failure>)
    modifies w
    ensures (r, w.Now()) == Verify(task, w.script, lanes, old(w.Now()))
  {
    var before := DeriveClaim(w, task);
    if before.Err? {
      return Err(before.error);
    }
    if before.value != task.claim {
      return Err(ClaimMismatch);
    }
    var turn := w.Meet();
    var refused := Completed(turn.ending);
    if refused.Some? {
      return Err(refused.value);
    }
    turn := w.Meet();
    if Completed(turn.ending).Some? || !w.state.lockfile {
      return Ok(Verified(Inconclusive, []));
    }
    var _ := w.Meet();
    var manifest := AttestTree(w.state.tree);
    if manifest.Err? {
      return Ok(Verified(Inconclusive, []));
    }
    var commands := RunProfile(w);
    if commands.Err? {
      return Err(commands.error);
    }
    var stable := RecheckSubject(w.state, task, manifest.value, lanes);
    return Ok(Verified(OutcomeOf(stable, commands.value), commands.value));
  }

  // ------------------------------------------------------------------ the gate

  /**
   * A staged task's claim or verification goes past its two filesystem reads, and so runs Git at
   * all, only when there was no submodule configuration and the pin compared equal.
   */
  lemma NoGitBeforeThePin(task: Task, script: Script<Bench>, lanes: Lanes, m: Moment<Bench>)
    requires task.scope.Staged?
    ensures var first, second := Next(script, m), Next(script, Next(script, m));
            var passed := !first.state.submodules && task.scope.pin == Some(second.state.config);
            && (SourceSubject(task, script, m).1.clock > m.clock + 2 ==> passed)
            && (Verify(task, script, lanes, m).1.clock > m.clock + 2 ==> passed)
  {
    if task.scope.pin.Some? {
      var pinned := task.scope.pin.value;
      var observed := Next(script, Next(script, m)).state.config;
      assert FirstDifference(pinned, observed) == None ==> pinned == observed;
    }
  }

  /**
   * Behind the gate, a claim ends unknown exactly when one of its probes was lost; and once the
   * ancestry is asked, "not descended" is answered exactly when it is so or its probe ended
   * without exiting cleanly.
   */
  lemma {:induction false} ProbesDecideTheClaim(task: Task, script: Script<Bench>, m: Moment<Bench>)
    requires !task.scope.StagedUnmaterialized? && CheckPin(task.scope, script, m).0.None?
    ensures var gate := CheckPin(task.scope, script, m).1;
            var (r, end) := SourceSubject(task, script, m);
            var head := After(script, gate, 3).state.source.head;
            && (r.Err? && r.error.Unknown? <==> LostBetween(script, gate.clock, end.clock))
            && (r.Ok? || r.error.NotDescended? ==>
                  && head.Some?
                  && (r == Err(NotDescended) <==>
                        !task.objects.descends(task.initial, head.value)
                        || Broken(script(gate.clock + 3).turn.ending)))
  {
    var gate := CheckPin(task.scope, script, m).1;
    LostProbeIsNoFinding(task.objects, SourceOf, Some(task.initial), script, gate);
    FindingIsTrueUnlessBroken(task.objects, SourceOf, Some(task.initial), script, gate);
  }

  // ---------------------------------------------------------- recorded commands

  /** A prefix of the steps in which only the last command may have failed, all of them if none did. */
  predicate Follows(commands: seq<Evidence>, steps: seq<string>) {
    && |commands| <= |steps|
    && (forall i :: 0 <= i < |commands| ==> commands[i].step == steps[i])
    && (forall i :: 0 <= i < |commands| - 1 ==> commands[i].success)
    && (|commands| < |steps| ==> commands != [] && !commands[|commands| - 1].success)
  }

  lemma FollowsStep(e: Evidence, rest: seq<Evidence>, steps: seq<string>)
    requires steps != [] && e.step == steps[0] && e.success && Follows(rest, steps[1..])
    ensures Follows([e] + rest, steps)
    ensures AllSucceeded([e] + rest) ==> AllSucceeded(rest)
  {
    var commands := [e] + rest;
    assert forall i :: 0 < i < |commands| ==> commands[i] == rest[i - 1];
    assert forall i :: 0 <= i < |rest| ==> rest[i] == commands[i + 1];
  }

  /** The recorded commands are a prefix of the profile in which only the last may have failed. */
  lemma {:induction false} CommandsArePrefix(steps: seq<string>, script: Script<Bench>, m: Moment<Bench>)
    requires RunSteps(steps, script, m).0.Ok?
    ensures var (commands, end) := RunSteps(steps, script, m);
            Follows(commands.value, steps)
            && (AllSucceeded(commands.value) ==> end.clock == m.clock + |steps|)
    decreases |steps|
  {
    if steps != [] {
      var commands := RunSteps(steps, script, m).0.value;
      if commands[0].success {
        var rest := RunSteps(steps[1..], script, Next(script, m)).0.value;
        CommandsArePrefix(steps[1..], script, Next(script, m));
        FollowsStep(commands[0], rest, steps);
      }
    }
  }

  /** Whatever a verification records, it ran a prefix of the profile and stopped at the first failure. */
  lemma {:induction false} RecordedCommands(task: Task, script: Script<Bench>, lanes: Lanes, m: Moment<Bench>,
                                            record: VerificationRecord)
    requires Verify(task, script, lanes, m).0 == Ok(record)
    ensures record.commands == [] || Follows(record.commands, PROFILE)
  {
    var (before, now) := SourceSubject(task, script, m);
    var attested := Next(script, Next(script, Next(script, now)));
    if RunSteps(PROFILE, script, attested).0.Ok? {
      CommandsArePrefix(PROFILE, script, attested);
    }
  }

  // ------------------------------------------------------------- what Passed means

  /** Two trees a manifest cannot tell apart are the same tree. */
  ghost predicate SameDetachedTree(a: Node, b: Node) {
    WellFormed(a) && WellFormed(b) && Attestable(a) && Attestable(b)
    && PathsFit(a.entries) && PathsFit(b.entries)
    ==> a.mode == b.mode && SameTree(a.entries, b.entries)
  }

  /**
   * What the recheck found, each observation at its own moment: the source and the detached tree
   * clean, their heads the claim, and the bytes of the detached tree the attested ones.
   */
  ghost predicate Upheld(task: Task, attested: Bench, lanes: Lanes, ran: Bench) {
    var start := Moment(ran, 0);
    && CleanCheckout(task.objects, After(lanes.source, start, 2).state.source)
    && After(lanes.source, start, 3).state.source.head == Some(task.claim)
    && CleanCheckout(task.objects, After(lanes.detached, start, 2).state.detached)
    && After(lanes.detached, start, 3).state.detached.head == Some(task.claim)
    && SameDetachedTree(attested.tree, After(lanes.bytes, start, 1).state.tree)
  }

  lemma {:induction false} StableMeansUpheld(task: Task, attested: Bench, lanes: Lanes, ran: Bench)
    requires Attestable(attested.tree) && SubjectStable(task, ManifestOf(attested.tree), lanes, ran)
    ensures Upheld(task, attested, lanes, ran)
  {
    var start := Moment(ran, 0);
    ObservedIsClean(task.objects, SourceOf, Some(task.initial), lanes.source, start);
    ObservedIsClean(task.objects, DetachedOf, Some(task.claim), lanes.detached, start);
    FourMoments(lanes.bytes, start);
    var last := After(lanes.bytes, start, 1).state.tree;
    if WellFormed(attested.tree) && WellFormed(last) && PathsFit(attested.tree.entries) && PathsFit(last.entries) {
      ManifestEqualIffSameTree(attested.tree, last);
    }
  }

  /**
   * A verdict, passed or failed, is only given when the subject held: the source and the detached
   * heads were the claim after the commands, and the detached tree then was byte for byte the
   * attested one, however the three observations interleave. It is Passed exactly when the whole
   * profile ran, and Failed exactly when the last command run did not succeed.
   */
  lemma {:induction false} VerdictMeans(task: Task, script: Script<Bench>, lanes: Lanes, m: Moment<Bench>,
                                        record: VerificationRecord)
    requires Verify(task, script, lanes, m).0 == Ok(record) && !record.outcome.Inconclusive?
    ensures var (before, now) := SourceSubject(task, script, m);
            var attested := After(script, now, 3);
            var ran := RunSteps(PROFILE, script, attested).1;
            && before == Ok(task.claim)
            && Upheld(task, attested.state, lanes, ran.state)
            && (record.outcome.Passed? ==> ran.clock == attested.clock + |PROFILE|)
    ensures record.commands != [] && Follows(record.commands, PROFILE)
    ensures record.outcome.Passed? <==> |record.commands| == |PROFILE| && AllSucceeded(record.commands)
    ensures record.outcome.Failed? <==> !record.commands[|record.commands| - 1].success
  {
    var (before, now) := SourceSubject(task, script, m);
    FourMoments(script, now);
    var attested := After(script, now, 3);
    assert Verify(task, script, lanes, m) == RunAndRecheck(task, script, lanes, After(script, now, 2));
    CommandsArePrefix(PROFILE, script, attested);
    StableMeansUpheld(task, attested.state, lanes, RunSteps(PROFILE, script, attested).1.state);
  }
}
