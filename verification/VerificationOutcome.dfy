/** Which gate a verification passes, what its commands show, and exactly which outcome it records. */
module VerificationOutcome {
  import opened Common
  import opened GitProbe
  import opened GitRepository
  import opened Producer
  import opened SourceManifest
  import opened ManifestIdentity
  import opened Verification

  /** A step met by a filesystem read that worked. */
  predicate Read(script: Script<Bench>, clock: nat) {
    !script(clock).turn.ending.NeverObserved?
  }

  /**
   * The gate lets a task through exactly when it is not staged, or when both reads worked, there
   * was no submodule configuration and the pin was equal; each refusal says what was met first.
   */
  lemma {:induction false} GateRefusesExactly(scope: Scope, script: Script<Bench>, m: Moment<Bench>)
    ensures var refused := CheckPin(scope, script, m).0;
            var first, second := Next(script, m).state, Next(script, Next(script, m)).state;
            && (!scope.Staged? ==> refused.None?)
            && (scope.Staged? ==>
                  var pinnable := Read(script, m.clock) && !first.submodules;
                  && (refused.None? <==>
                        pinnable && Read(script, m.clock + 1) && scope.pin == Some(second.config))
                  && (refused == Some(SubmoduleConfiguration) <==> Read(script, m.clock) && first.submodules)
                  && (refused == Some(ConfigurationUnpinned) <==> pinnable && scope.pin.None?)
                  && (refused == Some(ConfigurationChanged(RepositoryConfig)) ==>
                        scope.pin.Some? && scope.pin.value.repositoryConfig != second.config.repositoryConfig)
                  && (refused.Some? && refused.value.ConfigurationChanged? <==>
                        pinnable && scope.pin.Some? && Read(script, m.clock + 1) && scope.pin.value != second.config))
  {
  }

  /** How the `i`-th step from a moment on ends. */
  function EndingAt(script: Script<Bench>, m: Moment<Bench>, i: nat): Ending {
    script(m.clock + i).turn.ending
  }

  /** What a command's evidence must say of how the command ended. */
  predicate Tells(e: Evidence, ending: Ending) {
    && ending.Ran?
    && (e.success <==> ending == CLEAN_EXIT)
    && (e.timedOut <==> ending.output.timedOut)
  }

  lemma {:induction false} AfterNext(script: Script<Bench>, m: Moment<Bench>, n: nat)
    ensures After(script, Next(script, m), n) == After(script, m, n + 1)
  {
    if n > 0 {
      AfterNext(script, m, n - 1);
    }
  }

  /** Recorded evidence is true: a command succeeded exactly when it exited cleanly and in time. */
  lemma {:induction false} EvidenceIsTrue(steps: seq<string>, script: Script<Bench>, m: Moment<Bench>)
    requires RunSteps(steps, script, m).0.Ok?
    ensures var (commands, end) := RunSteps(steps, script, m);
            && end == After(script, m, |commands.value|)
            && forall i :: 0 <= i < |commands.value| ==> Tells(commands.value[i], EndingAt(script, m, i))
    decreases |steps|
  {
    if steps != [] {
      var (commands, end) := RunSteps(steps, script, m);
      if commands.value[0].success {
        var now := Next(script, m);
        var rest := RunSteps(steps[1..], script, now).0.value;
        EvidenceIsTrue(steps[1..], script, now);
        AfterNext(script, m, |rest|);
        forall i | 0 < i < |commands.value| ensures Tells(commands.value[i], EndingAt(script, m, i)) {
          assert commands.value[i] == rest[i - 1] && EndingAt(script, m, i) == EndingAt(script, now, i - 1);
        }
      }
    }
  }

  /** The `i`-th step could not be observed, and all before it succeeded. */
  predicate FirstLost(script: Script<Bench>, m: Moment<Bench>, i: nat) {
    EndingAt(script, m, i).NeverObserved? && forall j :: 0 <= j < i ==> EndingAt(script, m, j) == CLEAN_EXIT
  }

  /** One more step before. */
  lemma {:induction false} FirstLostLater(script: Script<Bench>, m: Moment<Bench>, i: nat)
    requires EndingAt(script, m, 0) == CLEAN_EXIT
    ensures FirstLost(script, Next(script, m), i) <==> FirstLost(script, m, i + 1)
  {
    var now := Next(script, m);
    assert forall j: nat :: EndingAt(script, now, j) == EndingAt(script, m, j + 1);
    if FirstLost(script, now, i) {
      forall j | 0 <= j < i + 1 ensures EndingAt(script, m, j) == CLEAN_EXIT {
        assert j > 0 ==> EndingAt(script, m, j) == EndingAt(script, now, j - 1);
      }
    }
  }

  /** Running the commands is given up exactly when one that was reached could not be observed. */
  lemma {:induction false} CommandsAreLostExactly(steps: seq<string>, script: Script<Bench>, m: Moment<Bench>)
    ensures RunSteps(steps, script, m).0.Err? <==> exists i: nat :: i < |steps| && FirstLost(script, m, i)
    decreases |steps|
  {
    if steps != [] {
      var now := Next(script, m);
      CommandsAreLostExactly(steps[1..], script, now);
      if EndingAt(script, m, 0) == CLEAN_EXIT {
        forall i: nat ensures FirstLost(script, now, i) <==> FirstLost(script, m, i + 1) {
          FirstLostLater(script, m, i);
        }
        if i: nat :| i < |steps| && FirstLost(script, m, i) {
          assert i > 0 && FirstLost(script, now, i - 1);
        }
      } else if EndingAt(script, m, 0).NeverObserved? {
        assert FirstLost(script, m, 0);
      }
    }
  }

  /** The gate of a task that is staged or not: two reads that worked, no submodules, an equal pin. */
  predicate GatePasses(scope: Scope, script: Script<Bench>, m: Moment<Bench>) {
    scope.Staged? ==>
      && Read(script, m.clock) && !After(script, m, 1).state.submodules
      && Read(script, m.clock + 1) && scope.pin == Some(After(script, m, 2).state.config)
  }

  /**
   * A commit is claimed exactly when the task has a source tree, its gate passes, and then that
   * tree's root, its cleanliness, its HEAD and its descent are each seen by a probe that exits
   * cleanly.
   */
  lemma {:induction false} ClaimsExactlyWhen(task: Task, script: Script<Bench>, m: Moment<Bench>, oid: Oid)
    ensures var now := After(script, m, if task.scope.Staged? then 2 else 0);
            var status := After(script, now, 2).state.source;
            SourceSubject(task, script, m).0 == Ok(oid)
            <==> && !task.scope.StagedUnmaterialized? && GatePasses(task.scope, script, m)
                 && Answered(script, now.clock) && After(script, now, 1).state.source.isRoot
                 && Answered(script, now.clock + 1) && status.head.Some?
                 && task.objects.cleanAt(status.worktree, status.head.value)
                 && Answered(script, now.clock + 2) && After(script, now, 3).state.source.head == Some(oid)
                 && Answered(script, now.clock + 3) && task.objects.descends(task.initial, oid)
  {
    FourMoments(script, m);
    GateRefusesExactly(task.scope, script, m);
    ObservedExactly(task.objects, SourceOf, Some(task.initial), script,
                    After(script, m, if task.scope.Staged? then 2 else 0), oid);
  }

  // ------------------------------------------------------------ the outcome

  /** The lockfile is there and the detached tree can be attested, so that commands are run. */
  predicate Ready(script: Script<Bench>, now: Moment<Bench>) {
    && Answered(script, now.clock + 1) && After(script, now, 2).state.lockfile
    && Attestable(After(script, now, 3).state.tree)
  }

  /** A verification is recorded exactly when the claimed subject was seen and nothing went unobserved. */
  lemma {:induction false} RecordsExactlyWhen(task: Task, script: Script<Bench>, lanes: Lanes, m: Moment<Bench>)
    ensures var (before, now) := SourceSubject(task, script, m);
            Verify(task, script, lanes, m).0.Ok?
            <==> before == Ok(task.claim) && Answered(script, now.clock)
                 && (Ready(script, now) ==>
                       !exists i: nat :: i < |PROFILE| && FirstLost(script, After(script, now, 3), i))
  {
    var now := SourceSubject(task, script, m).1;
    FourMoments(script, now);
    CommandsAreLostExactly(PROFILE, script, After(script, now, 3));
  }

  /** The subject held: both heads were observed at the claim, and the bytes are the attested ones. */
  predicate Held(task: Task, attested: Bench, lanes: Lanes, ran: Bench)
    requires Attestable(attested.tree)
  {
    var start := Moment(ran, 0);
    var tree := After(lanes.bytes, start, 1).state.tree;
    && ObserveClean(task.objects, SourceOf, Some(task.initial), lanes.source, start).0 == Ok(task.claim)
    && ObserveClean(task.objects, DetachedOf, Some(task.claim), lanes.detached, start).0 == Ok(task.claim)
    && Attestable(tree) && ManifestOf(tree) == ManifestOf(attested.tree)
  }

  /** A recorded outcome is decided by what held and by the last command. */
  predicate Decided(record: VerificationRecord, held: bool)
    requires record.commands != []
  {
    var last := record.commands[|record.commands| - 1];
    && (record.outcome.Inconclusive? <==> !held)
    && (record.outcome.Failed? <==> held && !last.success)
    && (record.outcome.Passed? <==> held && last.success)
  }

  /** A profile that ran tells by its last command whether all of it succeeded. */
  lemma {:induction false} LastTellsAll(commands: seq<Evidence>)
    requires Follows(commands, PROFILE)
    ensures commands != [] && (AllSucceeded(commands) <==> commands[|commands| - 1].success)
  {
  }

  lemma {:induction false} StableMeansHeld(task: Task, attested: Bench, lanes: Lanes, ran: Bench)
    requires Attestable(attested.tree)
    ensures SubjectStable(task, ManifestOf(attested.tree), lanes, ran) == Held(task, attested, lanes, ran)
  {
    FourMoments(lanes.bytes, Moment(ran, 0));
  }

  lemma {:induction false} RecheckDecides(task: Task, script: Script<Bench>, lanes: Lanes, checked: Moment<Bench>,
                                          record: VerificationRecord)
    requires Attestable(Next(script, checked).state.tree)
    requires RunAndRecheck(task, script, lanes, checked).0 == Ok(record)
    ensures var attested := Next(script, checked);
            && record.commands != []
            && Decided(record, Held(task, attested.state, lanes, After(script, attested, |record.commands|).state))
  {
    var attested := Next(script, checked);
    CommandsArePrefix(PROFILE, script, attested);
    EvidenceIsTrue(PROFILE, script, attested);
    LastTellsAll(record.commands);
    StableMeansHeld(task, attested.state, lanes, RunSteps(PROFILE, script, attested).1.state);
  }

  /**
   * What every recorded verification says. There are no commands exactly when the lockfile probe
   * or the first attestation refused, and then it is Inconclusive; otherwise it is Inconclusive
   * exactly when the source head, the detached head or the detached bytes did not hold, and else
   * Failed or Passed exactly as the last command failed or succeeded.
   */
  lemma {:induction false} OutcomeExactly(task: Task, script: Script<Bench>, lanes: Lanes, m: Moment<Bench>,
                                          record: VerificationRecord)
    requires Verify(task, script, lanes, m).0 == Ok(record)
    ensures var now := SourceSubject(task, script, m).1;
            var attested := After(script, now, 3);
            && (record.commands == [] <==> !Ready(script, now))
            && (record.commands == [] ==> record.outcome.Inconclusive?)
            && (Ready(script, now) ==>
                  Decided(record, Held(task, attested.state, lanes, After(script, attested, |record.commands|).state)))
  {
    var now := SourceSubject(task, script, m).1;
    FourMoments(script, now);
    if Ready(script, now) {
      RecheckDecides(task, script, lanes, After(script, now, 2), record);
    }
  }
}
