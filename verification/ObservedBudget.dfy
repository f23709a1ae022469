/** Judging a governed task's loop from its durable record, and a live breaker that agrees with it. */
module ObservedBudget {
  import opened Common
  import opened CanonicalJson
  import opened ErrorSignature
  import opened Streaks
  import opened LoopHistory
  import opened LoopContract

  const U64_MAX: nat := 0xFFFF_FFFF_FFFF_FFFF
  const NANOS_PER_MILLI: nat := 1_000_000

  datatype SameErrorObservation = SameErrorObservation(tool: string, streak: nat, signature: string)

  datatype LoopObservation = LoopObservation(roundsUsed: nat, elapsedNanos: nat, sameError: Option<SameErrorObservation>)

  function EvaluateObserved(budget: LoopBudget, alnum: Alphanumeric, o: LoopObservation): Option<LoopTrip> {
    if o.roundsUsed >= budget.maxRounds then Some(RoundCap(budget.maxRounds))
    else if o.elapsedNanos >= budget.wallClockNanos then
      var millis := o.elapsedNanos / NANOS_PER_MILLI;
      Some(WallClock(if millis <= U64_MAX then millis else U64_MAX))
    else
      match o.sameError
      case Some(error) =>
        if Reached(budget.maxSameErrorStreak, error.streak)
        then Some(SameError(error.tool, error.streak, Signature(alnum, error.signature)))
        else None
      case None => None
  }

  /**
   * Each trip of a record, exactly when it is reported and with what: the round cap before the
   * clock, in whole milliseconds saturated at 64 bits, and the clock before the failure streak.
   */
  lemma {:induction false} ObservedTripsExactly(budget: LoopBudget, alnum: Alphanumeric, o: LoopObservation)
    ensures var trip := EvaluateObserved(budget, alnum, o);
            var capped, late := o.roundsUsed >= budget.maxRounds, o.elapsedNanos >= budget.wallClockNanos;
            var streak := o.sameError.Some? && budget.maxSameErrorStreak.Some?
                          && o.sameError.value.streak >= budget.maxSameErrorStreak.value;
            && (trip.None? <==> !capped && !late && !streak)
            && (capped ==> trip == Some(RoundCap(budget.maxRounds)))
            && (!capped && late ==>
                  && trip.Some? && trip.value.WallClock? && trip.value.millis <= U64_MAX
                  && trip.value.millis * NANOS_PER_MILLI <= o.elapsedNanos
                  && (trip.value.millis < U64_MAX ==> o.elapsedNanos < (trip.value.millis + 1) * NANOS_PER_MILLI))
            && (!capped && !late && streak ==>
                  trip == Some(SameError(o.sameError.value.tool, o.sameError.value.streak,
                                         Signature(alnum, o.sameError.value.signature))))
  {
  }

  /** Hard caps come before the failure streak. */
  function Rank(trip: LoopTrip): nat {
    match trip
    case RoundCap(_) => 0
    case WallClock(_) => 1
    case _ => 2
  }

  // --------------------------------------- the failure streak of a durable record

  datatype CommandResult = CommandResult(name: string, success: bool)

  datatype Outcome = Passed | Failed | Inconclusive

  /** One recorded verification of a governed task. */
  datatype RecordedVerification =
    RecordedVerification(outcome: Outcome, commands: seq<CommandResult>, notes: Option<string>, policy: string)

  const GOVERNED_VERIFICATION_TOOL := "governed_verification"

  function FirstFailing(commands: seq<CommandResult>): Option<string> {
    if commands == [] then None
    else if !commands[0].success then Some(commands[0].name)
    else FirstFailing(commands[1..])
  }

  /** What a failed verification failed on: its first failing command, its notes, or its policy. */
  function FailureSignature(v: RecordedVerification): Option<string> {
    if !v.outcome.Failed? then None
    else if FirstFailing(v.commands).Some? then FirstFailing(v.commands)
    else if v.notes.Some? then v.notes
    else Some(v.policy)
  }

  /** Only a failure has a signature: its first failing command, or else its notes, or else its policy. */
  lemma {:induction false} SignatureSaysWhatFailed(v: RecordedVerification)
    ensures FailureSignature(v).Some? <==> v.outcome.Failed?
    ensures forall i :: 0 <= i < |v.commands| && !v.commands[i].success
                        && (forall j :: 0 <= j < i ==> v.commands[j].success) && v.outcome.Failed? ==>
              FailureSignature(v) == Some(v.commands[i].name)
    ensures v.outcome.Failed? && (forall i :: 0 <= i < |v.commands| ==> v.commands[i].success) ==>
              FailureSignature(v) == if v.notes.Some? then v.notes else Some(v.policy)
  {
    FirstFailingIsFirst(v.commands);
  }

  lemma {:induction false} FirstFailingIsFirst(commands: seq<CommandResult>)
    ensures forall i :: 0 <= i < |commands| && !commands[i].success
                        && (forall j :: 0 <= j < i ==> commands[j].success) ==>
              FirstFailing(commands) == Some(commands[i].name)
    ensures (forall i :: 0 <= i < |commands| ==> commands[i].success) ==> FirstFailing(commands).None?
  {
    if commands != [] {
      var rest := commands[1..];
      FirstFailingIsFirst(rest);
      assert forall i :: 0 < i < |commands| ==> commands[i] == rest[i - 1];
    }
  }

  /** Two verifications that failed the same way. */
  predicate FailedAlike(a: RecordedVerification, b: RecordedVerification) {
    FailureSignature(a).Some? && FailureSignature(a) == FailureSignature(b)
  }

  /** The streak as verifications arrive. */
  function FailureStreak(vs: seq<RecordedVerification>): nat {
    if vs == [] || FailureSignature(vs[|vs| - 1]).None? then 0
    else if |vs| > 1 && FailedAlike(vs[|vs| - 2], vs[|vs| - 1]) then FailureStreak(vs[..|vs| - 1]) + 1
    else 1
  }

  /** The trailing streak is the longest suffix of verifications that failed alike. */
  lemma {:induction false} FailureStreakIsLongestRun(vs: seq<RecordedVerification>)
    ensures LongestRun(FailedAlike, vs, FailureStreak(vs))
  {
    if vs != [] {
      var before, last := vs[..|vs| - 1], vs[|vs| - 1];
      FailureStreakIsLongestRun(before);
      LongestRunExtends(FailedAlike, before, FailureStreak(before), last);
      assert before + [last] == vs;
    }
  }

  /** Reading the record backwards from its end, as the ledger does, finds that suffix. */
  method TrailingVerificationFailureStreak(vs: seq<RecordedVerification>) returns (r: Option<(string, nat)>)
    ensures LongestRun(FailedAlike, vs, if r.Some? then r.value.1 else 0)
    ensures r.Some? <==> vs != [] && FailureSignature(vs[|vs| - 1]).Some?
    ensures r.Some? ==> Some(r.value.0) == FailureSignature(vs[|vs| - 1]) && r.value.1 > 0
    ensures FailureStreak(vs) == if r.Some? then r.value.1 else 0
  {
    var signature: Option<string> := None;
    var streak := 0;
    var i := |vs|;
    while i > 0
      invariant 0 <= i <= |vs| && streak == |vs| - i
      invariant signature.Some? <==> streak > 0
      invariant forall k :: i <= k < |vs| ==> FailureSignature(vs[k]) == signature
    {
      var current := FailureSignature(vs[i - 1]);
      if current.None? || (signature.Some? && signature != current) {
        StopsThere(vs, streak);
        break;
      }
      signature, streak := current, streak + 1;
      i := i - 1;
    }
    FailureStreakIsLongestRun(vs);
    return if signature.Some? then Some((signature.value, streak)) else None;
  }

  lemma {:induction false} StopsThere(vs: seq<RecordedVerification>, n: nat)
    requires n < |vs| && Run(FailedAlike, Suffix(vs, n))
    requires FailureSignature(vs[|vs| - n - 1]).None?
          || (n > 0 && FailureSignature(vs[|vs| - n - 1]) != FailureSignature(vs[|vs| - n]))
    ensures LongestRun(FailedAlike, vs, n)
  {
    forall m: nat | n < m <= |vs| ensures !Run(FailedAlike, Suffix(vs, m)) {
      var s := Suffix(vs, m);
      assert s[m - n - 1] == vs[|vs| - n - 1];
      assert !FailedAlike(s[m - n - 1], s[m - n - 1]) || (n > 0 && s[m - n] == vs[|vs| - n]
                                                          && !FailedAlike(s[m - n - 1], s[m - n]));
    }
  }

  // --------------------------------------------------- which trips are permanent

  /** Every verification failed as `last` did. */
  predicate AllAlike(last: RecordedVerification, more: seq<RecordedVerification>) {
    forall i :: 0 <= i < |more| ==> FailedAlike(last, more[i])
  }

  lemma {:induction false} AllAlikeGrows(last: RecordedVerification, before: seq<RecordedVerification>,
                                         x: RecordedVerification)
    ensures AllAlike(last, before + [x]) <==> AllAlike(last, before) && FailedAlike(last, x)
  {
    var more := before + [x];
    assert more[|before|] == x && forall i :: 0 <= i < |before| ==> more[i] == before[i];
  }

  /** One more verification adds to the streak, begins one, or ends it. */
  lemma {:induction false} StreakGrows(vs: seq<RecordedVerification>, x: RecordedVerification)
    ensures FailureStreak(vs + [x])
         == if vs != [] && FailedAlike(vs[|vs| - 1], x) then FailureStreak(vs) + 1
            else if FailureSignature(x).Some? then 1 else 0
  {
    var all := vs + [x];
    assert all[|all| - 1] == x && all[..|all| - 1] == vs;
    assert vs != [] ==> all[|all| - 2] == vs[|vs| - 1];
  }

  /** The streak of `vs` and `more`, told from the streaks of each. */
  ghost predicate ExtendsStreak(vs: seq<RecordedVerification>, more: seq<RecordedVerification>)
    requires vs != []
  {
    FailureStreak(vs + more)
    == if AllAlike(vs[|vs| - 1], more) then FailureStreak(vs) + |more| else FailureStreak(more)
  }

  lemma {:induction false} ExtendsByOne(vs: seq<RecordedVerification>, before: seq<RecordedVerification>,
                                        x: RecordedVerification)
    requires FailureStreak(vs) > 0 && ExtendsStreak(vs, before)
    ensures ExtendsStreak(vs, before + [x])
  {
    var last := vs[|vs| - 1];
    AllAlikeGrows(last, before, x);
    assert vs + (before + [x]) == (vs + before) + [x];
    StreakGrows(vs + before, x);
    if before == [] {
      assert vs + before == vs && before + [x] == [x];
    } else {
      StreakGrows(before, x);
      assert (vs + before)[|vs + before| - 1] == before[|before| - 1];
    }
  }

  /** More verifications lengthen a streak of failures exactly while all of them fail alike. */
  lemma {:induction false} StreakOfExtension(vs: seq<RecordedVerification>, more: seq<RecordedVerification>)
    requires FailureStreak(vs) > 0
    ensures FailureStreak(vs + more)
         == if AllAlike(vs[|vs| - 1], more) then FailureStreak(vs) + |more| else FailureStreak(more)
    decreases |more|
  {
    if more == [] {
      assert vs + more == vs;
    } else {
      var before := more[..|more| - 1];
      StreakOfExtension(vs, before);
      ExtendsByOne(vs, before, more[|more| - 1]);
      assert before + [more[|more| - 1]] == more;
    }
  }

  /** A spent round cap or an expired clock stays so however the record is extended. */
  lemma {:induction false} HardCapsArePermanent(budget: LoopBudget, alnum: Alphanumeric, claims: nat, elapsedNanos: nat,
                                                vs: seq<RecordedVerification>, laterClaims: nat, laterNanos: nat,
                                                more: seq<RecordedVerification>)
    requires claims <= laterClaims && elapsedNanos <= laterNanos
    requires var trip := EvaluateObserved(budget, alnum, ObservationOf(claims, elapsedNanos, vs));
             trip.Some? && Rank(trip.value) < 2
    ensures var trip := EvaluateObserved(budget, alnum, ObservationOf(claims, elapsedNanos, vs)).value;
            var later := EvaluateObserved(budget, alnum, ObservationOf(laterClaims, laterNanos, vs + more));
            later.Some? && Rank(later.value) <= Rank(trip)
  {
  }

  /**
   * A same-error trip is not permanent. While the hard caps are unspent, an extension of the
   * record clears it exactly when some later verification did not fail alike and the streak of the
   * later ones alone is below the limit.
   */
  lemma {:induction false} SameErrorTripClearsExactlyWhen(budget: LoopBudget, alnum: Alphanumeric, claims: nat,
                                                          elapsedNanos: nat, vs: seq<RecordedVerification>,
                                                          more: seq<RecordedVerification>)
    requires claims < budget.maxRounds && elapsedNanos < budget.wallClockNanos
    requires FailureStreak(vs) > 0 && Reached(budget.maxSameErrorStreak, FailureStreak(vs))
    requires budget.maxSameErrorStreak != Some(0)
    ensures EvaluateObserved(budget, alnum, ObservationOf(claims, elapsedNanos, vs + more)).None?
       <==> !AllAlike(vs[|vs| - 1], more) && !Reached(budget.maxSameErrorStreak, FailureStreak(more))
  {
    StreakOfExtension(vs, more);
  }

  // ------------------------------------------ a live breaker over the same events

  /** What the ledger shows of a task when its next claim arrives. */
  function ObservationOf(claims: nat, elapsedNanos: nat, vs: seq<RecordedVerification>): LoopObservation {
    LoopObservation(
      claims,
      elapsedNanos,
      if FailureStreak(vs) == 0 then None
      else Some(SameErrorObservation(GOVERNED_VERIFICATION_TOOL, FailureStreak(vs), SignatureOf(vs[|vs| - 1]))))
  }

  function SignatureOf(v: RecordedVerification): string {
    match FailureSignature(v)
    case Some(signature) => signature
    case None => ""
  }

  /** Bounding a signature keeps the recorded failures apart. */
  predicate BoundedApart(alnum: Alphanumeric, vs: seq<RecordedVerification>) {
    forall i, j {:trigger SignatureOf(vs[i]), SignatureOf(vs[j])} ::
      0 <= i < |vs| && 0 <= j < |vs|
      && Signature(alnum, SignatureOf(vs[i])) == Signature(alnum, SignatureOf(vs[j])) ==>
        SignatureOf(vs[i]) == SignatureOf(vs[j])
  }

  /** One verification as a tool call of the loop. */
  function CallOf(alnum: Alphanumeric, v: RecordedVerification): Call {
    Call(GOVERNED_VERIFICATION_TOOL, Null, FailureSignature(v).Some?, Signature(alnum, SignatureOf(v)))
  }

  function CallsOf(alnum: Alphanumeric, vs: seq<RecordedVerification>): (calls: seq<Call>)
    ensures |calls| == |vs| && forall i :: 0 <= i < |vs| ==> calls[i] == CallOf(alnum, vs[i])
  {
    seq(|vs|, i requires 0 <= i < |vs| => CallOf(alnum, vs[i]))
  }

  lemma {:induction false} PairsCorrespond(alnum: Alphanumeric, vs: seq<RecordedVerification>, i: nat, j: nat)
    requires BoundedApart(alnum, vs) && i < |vs| && j < |vs|
    ensures FailedAlike(vs[i], vs[j]) <==> SameFailure(CallsOf(alnum, vs)[i], CallsOf(alnum, vs)[j])
  {
    assert Signature(alnum, SignatureOf(vs[i])) == Signature(alnum, SignatureOf(vs[j]))
      <==> SignatureOf(vs[i]) == SignatureOf(vs[j]);
  }

  lemma {:induction false} WholeRunsCorrespond(alnum: Alphanumeric, vs: seq<RecordedVerification>)
    requires BoundedApart(alnum, vs)
    ensures Run(FailedAlike, vs) <==> Run(SameFailure, CallsOf(alnum, vs))
  {
    var calls := CallsOf(alnum, vs);
    forall i, j {:trigger FailedAlike(vs[i], vs[j])} {:trigger SameFailure(calls[i], calls[j])}
      | 0 <= i < |vs| && 0 <= j < |vs|
      ensures FailedAlike(vs[i], vs[j]) <==> SameFailure(calls[i], calls[j])
    {
      PairsCorrespond(alnum, vs, i, j);
    }
    RunsMatch(FailedAlike, vs, SameFailure, calls);
  }

  lemma {:induction false} SuffixBoundedApart(alnum: Alphanumeric, vs: seq<RecordedVerification>, m: nat)
    requires BoundedApart(alnum, vs) && m <= |vs|
    ensures BoundedApart(alnum, Suffix(vs, m))
    ensures CallsOf(alnum, Suffix(vs, m)) == Suffix(CallsOf(alnum, vs), m)
  {
    var s := Suffix(vs, m);
    forall i, j | 0 <= i < m && 0 <= j < m
                  && Signature(alnum, SignatureOf(s[i])) == Signature(alnum, SignatureOf(s[j]))
      ensures SignatureOf(s[i]) == SignatureOf(s[j])
    {
      assert s[i] == vs[|vs| - m + i] && s[j] == vs[|vs| - m + j];
    }
  }

  lemma {:induction false} RunsCorrespond(alnum: Alphanumeric, vs: seq<RecordedVerification>, m: nat)
    requires BoundedApart(alnum, vs) && m <= |vs|
    ensures Run(FailedAlike, Suffix(vs, m)) <==> Run(SameFailure, Suffix(CallsOf(alnum, vs), m))
  {
    SuffixBoundedApart(alnum, vs, m);
    WholeRunsCorrespond(alnum, Suffix(vs, m));
  }

  lemma {:induction false} SameRunsAsCalls(alnum: Alphanumeric, vs: seq<RecordedVerification>)
    requires BoundedApart(alnum, vs)
    ensures SameRuns(FailedAlike, vs, SameFailure, CallsOf(alnum, vs))
  {
    forall m: nat | m <= |vs|
      ensures Run(FailedAlike, Suffix(vs, m)) <==> Run(SameFailure, Suffix(CallsOf(alnum, vs), m))
    {
      RunsCorrespond(alnum, vs, m);
    }
  }

  lemma {:induction false} StreaksOfSameRuns(vs: seq<RecordedVerification>, h: History)
    requires SameRuns(FailedAlike, vs, SameFailure, Calls(h))
    ensures ErrorStreak(h) == FailureStreak(vs)
  {
    FailureStreakIsLongestRun(vs);
    ErrorStreakIsLongestRun(h);
    SameRunsSameLongest(FailedAlike, vs, FailureStreak(vs), SameFailure, Calls(h), ErrorStreak(h));
  }

  /** The breaker's streak over the same failures is the record's. */
  lemma {:induction false} SameStreak(alnum: Alphanumeric, vs: seq<RecordedVerification>, h: History)
    requires BoundedApart(alnum, vs) && Calls(h) == CallsOf(alnum, vs)
    ensures ErrorStreak(h) == FailureStreak(vs)
  {
    SameRunsAsCalls(alnum, vs);
    StreaksOfSameRuns(vs, h);
  }

  lemma {:induction false} StreakNeedsFailure(vs: seq<RecordedVerification>)
    ensures FailureStreak(vs) > 0 <==> vs != [] && FailureSignature(vs[|vs| - 1]).Some?
  {
  }

  /** The same-error trip of a record, with its bounded signature. */
  function LastTrip(budget: LoopBudget, alnum: Alphanumeric, vs: seq<RecordedVerification>): Option<LoopTrip> {
    if vs == [] || !Reached(budget.maxSameErrorStreak, FailureStreak(vs)) then None
    else
      Some(SameError(GOVERNED_VERIFICATION_TOOL, FailureStreak(vs), Signature(alnum, SignatureOf(vs[|vs| - 1]))))
  }

  /** Observing the last verification trips as the record does. */
  lemma {:induction false} ObservedTripIsLastTrip(budget: LoopBudget, alnum: Alphanumeric,
                                                  vs: seq<RecordedVerification>, h: History)
    requires vs != [] && BoundedApart(alnum, vs) && Calls(h) == CallsOf(alnum, vs)
    requires budget.maxRepeatedCallStreak.None? && budget.maxSameErrorStreak != Some(0)
    ensures var call := CallOf(alnum, vs[|vs| - 1]);
            ObserveTrip(budget, call.tool, call.signature, call.isError, CallStreak(h), ErrorStreak(h))
            == LastTrip(budget, alnum, vs)
  {
    SameStreak(alnum, vs, h);
    StreakNeedsFailure(vs);
  }

  lemma {:induction false} ObservingTheLast(budget: LoopBudget, alnum: Alphanumeric,
                                            vs: seq<RecordedVerification>, before: History)
    requires vs != [] && BoundedApart(alnum, vs) && Calls(before) == CallsOf(alnum, vs[..|vs| - 1])
    requires budget.maxRepeatedCallStreak.None? && budget.maxSameErrorStreak != Some(0)
    ensures var call := CallOf(alnum, vs[|vs| - 1]);
            var h := Then(before, Observed(call));
            && Calls(h) == CallsOf(alnum, vs) && Count(h, RoundBegan) == Count(before, RoundBegan)
            && ObserveTrip(budget, call.tool, call.signature, call.isError, CallStreak(h), ErrorStreak(h))
               == LastTrip(budget, alnum, vs)
  {
    var call := CallOf(alnum, vs[|vs| - 1]);
    assert CallsOf(alnum, vs) == CallsOf(alnum, vs[..|vs| - 1]) + [call];
    ObservedTripIsLastTrip(budget, alnum, vs, Then(before, Observed(call)));
  }

  /** Feeds the verifications to a breaker and keeps what the last observation reported. */
  method ObserveAll(breaker: LoopBreaker, alnum: Alphanumeric, vs: seq<RecordedVerification>)
    returns (last: Option<LoopTrip>)
    requires breaker.Valid() && Calls(breaker.history) == [] && BoundedApart(alnum, vs)
    requires breaker.budget.maxRepeatedCallStreak.None? && breaker.budget.maxSameErrorStreak != Some(0)
    modifies breaker
    ensures breaker.Valid() && Count(breaker.history, RoundBegan) == old(Count(breaker.history, RoundBegan))
    ensures Calls(breaker.history) == CallsOf(alnum, vs)
    ensures vs != [] ==> breaker.history.Then? && breaker.history.event.Observed?
    ensures last == LastTrip(breaker.budget, alnum, vs)
  {
    last := None;
    for i := 0 to |vs|
      invariant breaker.Valid() && Calls(breaker.history) == CallsOf(alnum, vs[..i])
      invariant Count(breaker.history, RoundBegan) == old(Count(breaker.history, RoundBegan))
      invariant i > 0 ==> breaker.history.Then? && breaker.history.event.Observed?
      invariant last == LastTrip(breaker.budget, alnum, vs[..i])
    {
      last := ObserveOne(breaker, alnum, vs[..i + 1]);
    }
    assert vs[..|vs|] == vs;
  }

  method ObserveOne(breaker: LoopBreaker, alnum: Alphanumeric, vs: seq<RecordedVerification>)
    returns (last: Option<LoopTrip>)
    requires breaker.Valid() && vs != [] && BoundedApart(alnum, vs)
    requires Calls(breaker.history) == CallsOf(alnum, vs[..|vs| - 1])
    requires breaker.budget.maxRepeatedCallStreak.None? && breaker.budget.maxSameErrorStreak != Some(0)
    modifies breaker
    ensures breaker.Valid() && Count(breaker.history, RoundBegan) == old(Count(breaker.history, RoundBegan))
    ensures Calls(breaker.history) == CallsOf(alnum, vs)
    ensures breaker.history.Then? && breaker.history.event.Observed?
    ensures last == LastTrip(breaker.budget, alnum, vs)
  {
    var call := CallOf(alnum, vs[|vs| - 1]);
    ObservingTheLast(breaker.budget, alnum, vs, breaker.history);
    last := breaker.ObserveCall(call.tool, call.input, call.isError, call.signature);
  }

  lemma {:induction false} RecordIsItsLastTrip(budget: LoopBudget, alnum: Alphanumeric, claims: nat,
                                               elapsedNanos: nat, vs: seq<RecordedVerification>)
    requires budget.maxSameErrorStreak != Some(0)
    requires elapsedNanos < budget.wallClockNanos && claims < budget.maxRounds
    ensures EvaluateObserved(budget, alnum, ObservationOf(claims, elapsedNanos, vs)) == LastTrip(budget, alnum, vs)
  {
    StreakNeedsFailure(vs);
  }

  /**
   * The record is judged exactly as a live breaker that saw the same failures, with the same
   * payload: it trips as the breaker refuses another round, or else as the breaker trips on
   * observing the last verification, under a budget without the detectors the daemon cannot feed
   * and while time is left.
   */
  lemma {:induction false} RecordIsJudgedAsLive(budget: LoopBudget, alnum: Alphanumeric, claims: nat,
                                                elapsedNanos: nat, vs: seq<RecordedVerification>, h: History)
    requires budget.maxRepeatedCallStreak.None? && budget.maxSameErrorStreak != Some(0)
    requires BoundedApart(alnum, vs) && elapsedNanos < budget.wallClockNanos
    requires vs != [] && h.Then? && h.event.Observed? && Calls(h) == CallsOf(alnum, vs)
    ensures EvaluateObserved(budget, alnum, ObservationOf(claims, elapsedNanos, vs))
         == TripAt(budget, if claims >= budget.maxRounds then Then(h, RoundRefused) else h)
  {
    if claims < budget.maxRounds {
      RecordIsItsLastTrip(budget, alnum, claims, elapsedNanos, vs);
      assert h.event.call == Calls(h)[|Calls(h)| - 1] == CallOf(alnum, vs[|vs| - 1]);
      ObservedTripIsLastTrip(budget, alnum, vs, h);
    }
  }

  /**
   * Drives a breaker through the rounds and failures of a record, and asks it for one more round.
   * What it answers last is the record's trip.
   */
  method JudgeLive(breaker: LoopBreaker, alnum: Alphanumeric, claims: nat, elapsedNanos: nat,
                   vs: seq<RecordedVerification>) returns (trip: Option<LoopTrip>)
    requires breaker.Valid() && breaker.history == Start
    requires breaker.budget.maxRepeatedCallStreak.None? && breaker.budget.maxSameErrorStreak != Some(0)
    requires BoundedApart(alnum, vs) && elapsedNanos < breaker.budget.wallClockNanos
    modifies breaker
    ensures breaker.Valid() && breaker.history.Then?
    ensures claims >= breaker.budget.maxRounds ==>
              breaker.history.event == RoundRefused && trip == TripAt(breaker.budget, breaker.history)
    ensures claims < breaker.budget.maxRounds ==>
              && breaker.history.event == RoundBegan && Calls(breaker.history) == CallsOf(alnum, vs)
              && Count(breaker.history, RoundBegan) == claims + 1
              && (vs != [] ==> breaker.history.before.Then? && breaker.history.before.event.Observed?
                               && trip == TripAt(breaker.budget, breaker.history.before))
    ensures trip == EvaluateObserved(breaker.budget, alnum, ObservationOf(claims, elapsedNanos, vs))
  {
    trip := BeginRounds(breaker, claims);
    if trip.Some? {
      return;
    }
    trip := ObserveAll(breaker, alnum, vs);
    if claims < breaker.budget.maxRounds {
      RecordIsItsLastTrip(breaker.budget, alnum, claims, elapsedNanos, vs);
      if vs != [] {
        RecordIsJudgedAsLive(breaker.budget, alnum, claims, elapsedNanos, vs, breaker.history);
      }
    }
    var next := breaker.BeginRound();
    if next.Err? {
      trip := Some(next.error);
    }
  }

  /** Begins the rounds of a record's claims, as many as the breaker admits. */
  method BeginRounds(breaker: LoopBreaker, claims: nat) returns (refused: Option<LoopTrip>)
    requires breaker.Valid() && breaker.history == Start
    modifies breaker
    ensures breaker.Valid() && (refused.Some? <==> claims > breaker.budget.maxRounds)
    ensures refused.None? ==> Count(breaker.history, RoundBegan) == claims && Calls(breaker.history) == []
    ensures refused.Some? ==> breaker.history.Then? && breaker.history.event == RoundRefused
                              && refused == Some(RoundCap(breaker.budget.maxRounds))
  {
    for round := 0 to claims
      invariant breaker.Valid() && round <= breaker.budget.maxRounds
      invariant Count(breaker.history, RoundBegan) == round && Calls(breaker.history) == []
    {
      var admitted := breaker.BeginRound();
      if admitted.Err? {
        return Some(admitted.error);
      }
    }
    return None;
  }
}
