/** The driver that stops at the first trip, and what any run of it may spend. */
module ToolLoop {
  import opened Common
  import opened LoopHistory
  import opened LoopContract

  datatype Termination =
    | Completed
    | Tripped(trip: LoopTrip)
    | ProviderFailed
    /** The caller's wall clock expired while an admitted call was running. */
    | CutOff

  // ----------------------------------------------------- what was requested

  /** Every call of a batch admitted and observed, in order. */
  function CallsRun(h: History, batch: seq<Call>): History
    decreases |batch|
  {
    if batch == [] then h else CallsRun(Then(Then(h, Admitted), Observed(batch[0])), batch[1..])
  }

  function RoundRun(h: History, batch: seq<Call>): History {
    Then(CallsRun(Then(h, RoundBegan), batch), RoundEnded)
  }

  /** What happens if nothing stops the run: round after round, up to the final reply or provider error. */
  function Unstopped(h: History, responses: seq<seq<Call>>): History
    decreases |responses|
  {
    if responses == [] || responses[0] == [] then Then(h, RoundBegan)
    else Unstopped(RoundRun(h, responses[0]), responses[1..])
  }

  /** `h` is an initial part of `whole`. */
  ghost predicate Reaches(h: History, whole: History) {
    h == whole || (whole.Then? && Reaches(h, whole.before))
  }

  lemma {:induction false} ReachesOn(a: History, b: History, c: History)
    requires Reaches(a, b) && Reaches(b, c)
    ensures Reaches(a, c)
  {
    if b != c {
      ReachesOn(a, b, c.before);
    }
  }

  lemma {:induction false} CallsRunOn(h: History, batch: seq<Call>)
    ensures Reaches(h, CallsRun(h, batch))
    ensures Calls(CallsRun(h, batch)) == Calls(h) + batch
    decreases |batch|
  {
    if batch != [] {
      var next := Then(Then(h, Admitted), Observed(batch[0]));
      CallsRunOn(next, batch[1..]);
      ReachesOn(h, Then(h, Admitted), next);
      ReachesOn(h, next, CallsRun(h, batch));
      Associate(Calls(h), [batch[0]], batch[1..]);
    }
  }

  lemma {:induction false} RoundRunOn(h: History, batch: seq<Call>)
    ensures Reaches(Then(h, RoundBegan), RoundRun(h, batch)) && Reaches(h, RoundRun(h, batch))
    ensures Calls(RoundRun(h, batch)) == Calls(h) + batch
  {
    CallsRunOn(Then(h, RoundBegan), batch);
    assert Reaches(CallsRun(Then(h, RoundBegan), batch), RoundRun(h, batch));
    ReachesOn(Then(h, RoundBegan), CallsRun(Then(h, RoundBegan), batch), RoundRun(h, batch));
    assert Reaches(h, Then(h, RoundBegan));
    ReachesOn(h, Then(h, RoundBegan), RoundRun(h, batch));
  }

  lemma {:induction false} UnstoppedOn(h: History, responses: seq<seq<Call>>)
    ensures Reaches(Then(h, RoundBegan), Unstopped(h, responses))
    ensures Calls(h) <= Calls(Unstopped(h, responses)) <= Calls(h) + Concat(responses)
    decreases |responses|
  {
    if responses != [] && responses[0] != [] {
      var next := RoundRun(h, responses[0]);
      RoundRunOn(h, responses[0]);
      UnstoppedOn(next, responses[1..]);
      assert Reaches(next, Then(next, RoundBegan));
      ReachesOn(Then(h, RoundBegan), next, Then(next, RoundBegan));
      ReachesOn(Then(h, RoundBegan), Then(next, RoundBegan), Unstopped(h, responses));
      Associate(Calls(h), responses[0], Concat(responses[1..]));
    }
  }

  lemma {:induction false} RoundOfUnstopped(h: History, responses: seq<seq<Call>>)
    requires responses != [] && responses[0] != []
    ensures Reaches(RoundRun(h, responses[0]), Unstopped(h, responses))
  {
    var round := RoundRun(h, responses[0]);
    UnstoppedOn(round, responses[1..]);
    assert Reaches(round, Then(round, RoundBegan));
    ReachesOn(round, Then(round, RoundBegan), Unstopped(h, responses));
  }

  lemma {:induction false} ReachesCalls(h: History, whole: History)
    requires Reaches(h, whole)
    ensures Calls(h) <= Calls(whole)
  {
    if h != whole {
      ReachesCalls(h, whole.before);
    }
  }

  // ------------------------------------------------------------- where it stops

  /**
   * How a run that was to become `whole` ended: there, or cut off in the call it was to be cut off
   * in, or at an event of it that tripped, or refused the next one because a budget was spent.
   */
  ghost predicate EndsIn(budget: LoopBudget, h: History, whole: History, cutAt: Option<nat>, end: Option<Termination>) {
    && (cutAt.Some? ==> CallCount(h) <= cutAt.value)
    && match end
       case Some(CutOff) => Reaches(h, whole) && h.Then? && h.event.Admitted? && cutAt == Some(CallCount(h))
       case Some(Tripped(_)) =>
         h.Then? &&
         (match h.event
          case RoundRefused => Reaches(Then(h.before, RoundBegan), whole) && Count(h, RoundBegan) >= budget.maxRounds
          case Refused =>
            && Reaches(Then(h.before, Admitted), whole)
            && budget.maxToolCalls.Some? && Count(h, Admitted) >= budget.maxToolCalls.value
          case _ => Reaches(h, whole))
       case _ => h == whole
  }

  lemma {:induction false} EndsInMore(budget: LoopBudget, h: History, part: History, whole: History,
                                      cutAt: Option<nat>, end: Option<Termination>)
    requires EndsIn(budget, h, part, cutAt, end) && Reaches(part, whole)
    requires end.Some? && (end.value.CutOff? || end.value.Tripped?)
    ensures EndsIn(budget, h, whole, cutAt, end)
  {
    match h.event
    case RoundRefused => ReachesOn(if end.value.CutOff? then h else Then(h.before, RoundBegan), part, whole);
    case Refused => ReachesOn(if end.value.CutOff? then h else Then(h.before, Admitted), part, whole);
    case _ => ReachesOn(h, part, whole);
  }

  /** A run does exactly what was requested, to its end or to where it was stopped. */
  ghost predicate RunsAsRequested(budget: LoopBudget, h: History, responses: seq<seq<Call>>, cutAt: Option<nat>,
                                  end: Termination)
  {
    && EndsIn(budget, h, Unstopped(Start, responses), cutAt, Some(end))
    && (end.Completed? ==> [] in responses)
    && (end.ProviderFailed? ==> [] !in responses)
  }

  /** So the calls observed are the first of those requested. */
  lemma {:induction false} RequestedCallsOnly(budget: LoopBudget, h: History, responses: seq<seq<Call>>,
                                              cutAt: Option<nat>, end: Termination)
    requires RunsAsRequested(budget, h, responses, cutAt, end)
    ensures Calls(h) <= Concat(responses)
  {
    var whole := Unstopped(Start, responses);
    UnstoppedOn(Start, responses);
    assert [] + Concat(responses) == Concat(responses);
    ReachesCalls(match end
                 case Tripped(_) => (match h.event
                                     case RoundRefused => Then(h.before, RoundBegan)
                                     case Refused => Then(h.before, Admitted)
                                     case _ => h)
                 case _ => h, whole);
  }

  /**
   * No event before the last is a trip, whichever detector or cap it would be; the last one is
   * exactly when the run ends tripped, and then it is the trip that is reported.
   */
  ghost predicate StopsAtFirstTrip(budget: LoopBudget, h: History, end: Option<Termination>) {
    if end.Some? && end.value.Tripped?
    then h.Then? && NeverTripped(budget, h.before) && TripAt(budget, h) == Some(end.value.trip)
    else NeverTripped(budget, h)
  }

  /** Calls admitted and not observed, given how the run stands. */
  function InFlight(end: Option<Termination>): nat {
    if end == Some(CutOff) then 1 else 0
  }

  /**
   * Runs the model's rounds. `responses` holds the batch of calls requested each round together
   * with their outcomes; an empty batch is the final reply, a missing one a provider error.
   * `cutAt`, when set, cuts the run off while the call with that index is in flight.
   */
  method RunToolLoop(breaker: LoopBreaker, responses: seq<seq<Call>>, cutAt: Option<nat>)
    returns (end: Termination)
    requires breaker.Valid() && breaker.history == Start
    modifies breaker
    ensures breaker.Valid()
    ensures breaker.roundsUsed <= breaker.budget.maxRounds
    ensures breaker.budget.maxToolCalls.Some? ==> breaker.toolCalls <= breaker.budget.maxToolCalls.value
    ensures RunsAsRequested(breaker.budget, breaker.history, responses, cutAt, end)
    ensures breaker.dispatched == breaker.toolCalls + breaker.Interrupted()
    ensures breaker.Interrupted() == InFlight(Some(end))
    ensures Total(breaker.callsByTool) == breaker.toolCalls == |Calls(breaker.history)|
    ensures StopsAtFirstTrip(breaker.budget, breaker.history, Some(end))
  {
    var stopped: Option<Termination> := None;
    var i := 0;
    ghost var whole := Unstopped(Start, responses);
    assert responses[0..] == responses;
    while stopped.None?
      invariant breaker.Valid() && i <= |responses|
      invariant stopped.None? ==>
                  && [] !in responses[..i] && BetweenCalls(breaker.budget, breaker.history, cutAt)
                  && Unstopped(breaker.history, responses[i..]) == whole
      invariant stopped.Some? ==>
                  && RunsAsRequested(breaker.budget, breaker.history, responses, cutAt, stopped.value)
                  && Ended(breaker.budget, breaker.history, whole, cutAt, stopped)
      decreases stopped.None?, |responses| - i
    {
      stopped := RunRound(breaker, responses[i..], cutAt);
      if stopped.None? {
        assert responses[i..][1..] == responses[i + 1..] && responses[..i + 1] == responses[..i] + [responses[i]];
        i := i + 1;
      } else {
        assert stopped.value.Completed? ==> responses[i] == [];
        assert stopped.value.ProviderFailed? ==> responses[..i] == responses;
      }
    }
    CallsByToolCounts(breaker.history);
    end := stopped.value;
  }

  /** How a run stands that is to become `whole` and has stopped. */
  ghost predicate Ended(budget: LoopBudget, h: History, whole: History, cutAt: Option<nat>,
                        stopped: Option<Termination>)
  {
    && EndsIn(budget, h, whole, cutAt, stopped)
    && Count(h, Admitted) == CallCount(h) + InFlight(stopped)
    && StopsAtFirstTrip(budget, h, stopped)
  }

  lemma {:induction false} RoundIsRefused(budget: LoopBudget, h: History, left: seq<seq<Call>>, cutAt: Option<nat>)
    requires BetweenCalls(budget, h, cutAt) && Count(h, RoundBegan) >= budget.maxRounds
    ensures Ended(budget, Then(h, RoundRefused), Unstopped(h, left), cutAt, Some(Tripped(RoundCap(budget.maxRounds))))
  {
    UnstoppedOn(h, left);
  }

  lemma {:induction false} RoundIsBegun(budget: LoopBudget, h: History, left: seq<seq<Call>>, cutAt: Option<nat>)
    requires BetweenCalls(budget, h, cutAt)
    ensures BetweenCalls(budget, Then(h, RoundBegan), cutAt)
    ensures left == [] ==> Ended(budget, Then(h, RoundBegan), Unstopped(h, left), cutAt, Some(ProviderFailed))
    ensures left != [] && left[0] == [] ==>
              Ended(budget, Then(h, RoundBegan), Unstopped(h, left), cutAt, Some(Completed))
  {
    OneMoreEvent(budget, h, RoundBegan);
  }

  lemma {:induction false} RoundIsRun(budget: LoopBudget, h: History, after: History, left: seq<seq<Call>>,
                                      cutAt: Option<nat>, stopped: Option<Termination>)
    requires left != [] && left[0] != [] && AfterPart(budget, after, RoundRun(h, left[0]), cutAt, stopped)
    ensures stopped.Some? ==> Ended(budget, after, Unstopped(h, left), cutAt, stopped)
    ensures stopped.None? ==>
              BetweenCalls(budget, after, cutAt) && Unstopped(after, left[1..]) == Unstopped(h, left)
  {
    RoundOfUnstopped(h, left);
    if stopped.Some? {
      EndsInMore(budget, after, RoundRun(h, left[0]), Unstopped(h, left), cutAt, stopped);
    }
  }

  /** One round of those left, and what stopped the run there, if anything did. */
  method RunRound(breaker: LoopBreaker, left: seq<seq<Call>>, cutAt: Option<nat>) returns (stopped: Option<Termination>)
    requires breaker.Valid() && BetweenCalls(breaker.budget, breaker.history, cutAt)
    modifies breaker
    ensures breaker.Valid()
    ensures stopped.None? ==>
              && left != [] && left[0] != [] && BetweenCalls(breaker.budget, breaker.history, cutAt)
              && Unstopped(breaker.history, left[1..]) == Unstopped(old(breaker.history), left)
    ensures stopped.Some? ==>
              && Ended(breaker.budget, breaker.history, Unstopped(old(breaker.history), left), cutAt, stopped)
              && (stopped.value.Completed? ==> left != [] && left[0] == [])
              && (stopped.value.ProviderFailed? ==> left == [])
  {
    ghost var h := breaker.history;
    RoundIsBegun(breaker.budget, h, left, cutAt);
    var begun := breaker.BeginRound();
    if begun.Err? {
      RoundIsRefused(breaker.budget, h, left, cutAt);
      return Some(Tripped(begun.error));
    }
    if left == [] {
      return Some(ProviderFailed);
    }
    if left[0] == [] {
      return Some(Completed);
    }
    stopped := RunBatch(breaker, left[0], cutAt);
    RoundIsRun(breaker.budget, h, breaker.history, left, cutAt, stopped);
  }

  /** What a run reports when an event trips, or does not. */
  function Report(trip: Option<LoopTrip>): Option<Termination> {
    match trip
    case Some(t) => Some(Tripped(t))
    case None => None
  }

  lemma {:induction false} OneMoreEvent(budget: LoopBudget, h: History, e: Event)
    requires NeverTripped(budget, h)
    ensures StopsAtFirstTrip(budget, Then(h, e), Report(TripAt(budget, Then(h, e))))
  {
  }

  /** What holds of a run between two calls. */
  ghost predicate BetweenCalls(budget: LoopBudget, h: History, cutAt: Option<nat>) {
    && NeverTripped(budget, h)
    && Count(h, Admitted) == CallCount(h)
    && (cutAt.Some? ==> CallCount(h) <= cutAt.value)
  }

  /** What holds when part of a run is over, going on or not. */
  ghost predicate AfterPart(budget: LoopBudget, h: History, part: History, cutAt: Option<nat>,
                            stopped: Option<Termination>)
  {
    Ended(budget, h, part, cutAt, stopped) && (stopped.Some? ==> stopped.value.Tripped? || stopped.value.CutOff?)
  }

  function CallRun(h: History, call: Call): History {
    Then(Then(h, Admitted), Observed(call))
  }

  lemma {:induction false} CallIsRun(budget: LoopBudget, h: History, call: Call, cutAt: Option<nat>)
    requires BetweenCalls(budget, h, cutAt)
    ensures var admitted, run := Then(h, Admitted), CallRun(h, call);
            && (cutAt == Some(CallCount(h)) ==> AfterPart(budget, admitted, run, cutAt, Some(CutOff)))
            && (cutAt != Some(CallCount(h)) ==>
                  AfterPart(budget, run, run, cutAt, Report(TripAt(budget, run))))
  {
    var admitted := Then(h, Admitted);
    assert Reaches(admitted, CallRun(h, call));
    OneMoreEvent(budget, h, Admitted);
    OneMoreEvent(budget, admitted, Observed(call));
  }

  lemma {:induction false} CallIsRefused(budget: LoopBudget, h: History, call: Call, cutAt: Option<nat>)
    requires BetweenCalls(budget, h, cutAt)
    requires budget.maxToolCalls.Some? && Count(h, Admitted) >= budget.maxToolCalls.value
    ensures AfterPart(budget, Then(h, Refused), CallRun(h, call), cutAt,
                      Some(Tripped(ToolCallBudget(budget.maxToolCalls.value))))
  {
    assert Reaches(Then(h, Admitted), CallRun(h, call));
  }

  /** One requested call: admitted, executed, observed; what stopped the run there, if anything did. */
  method RunCall(breaker: LoopBreaker, call: Call, cutAt: Option<nat>) returns (stopped: Option<Termination>)
    requires breaker.Valid() && BetweenCalls(breaker.budget, breaker.history, cutAt)
    modifies breaker
    ensures breaker.Valid()
    ensures AfterPart(breaker.budget, breaker.history, CallRun(old(breaker.history), call), cutAt, stopped)
  {
    CallIsRun(breaker.budget, breaker.history, call, cutAt);
    var admitted := breaker.AdmitCall();
    if admitted.Err? {
      CallIsRefused(breaker.budget, old(breaker.history), call, cutAt);
      return Some(Tripped(admitted.error));
    }
    if cutAt == Some(breaker.toolCalls) {
      return Some(CutOff);
    }
    var trip := breaker.ObserveCall(call.tool, call.input, call.isError, call.signature);
    return Report(trip);
  }

  /** One round's batch, and what stopped the run in it, if anything did. */
  method RunBatch(breaker: LoopBreaker, batch: seq<Call>, cutAt: Option<nat>)
    returns (stopped: Option<Termination>)
    requires breaker.Valid() && BetweenCalls(breaker.budget, breaker.history, cutAt)
    modifies breaker
    ensures breaker.Valid()
    ensures AfterPart(breaker.budget, breaker.history, Then(CallsRun(old(breaker.history), batch), RoundEnded),
                      cutAt, stopped)
  {
    ghost var whole := CallsRun(breaker.history, batch);
    assert batch[0..] == batch;
    for j := 0 to |batch|
      invariant breaker.Valid() && BetweenCalls(breaker.budget, breaker.history, cutAt)
      invariant CallsRun(breaker.history, batch[j..]) == whole
    {
      assert batch[j..][0] == batch[j] && batch[j..][1..] == batch[j + 1..];
      ghost var call := CallRun(breaker.history, batch[j]);
      CallsRunOn(call, batch[j + 1..]);
      stopped := RunCall(breaker, batch[j], cutAt);
      if stopped.Some? {
        AfterPartOfMore(breaker.budget, breaker.history, call, whole, cutAt, stopped);
        return;
      }
    }
    stopped := CloseRound(breaker, cutAt);
  }

  lemma {:induction false} AfterPartOfMore(budget: LoopBudget, h: History, part: History, whole: History,
                                           cutAt: Option<nat>, stopped: Option<Termination>)
    requires stopped.Some? && AfterPart(budget, h, part, cutAt, stopped) && Reaches(part, whole)
    ensures AfterPart(budget, h, Then(whole, RoundEnded), cutAt, stopped)
  {
    assert Reaches(whole, Then(whole, RoundEnded));
    ReachesOn(part, whole, Then(whole, RoundEnded));
    EndsInMore(budget, h, part, Then(whole, RoundEnded), cutAt, stopped);
  }

  method CloseRound(breaker: LoopBreaker, cutAt: Option<nat>) returns (stopped: Option<Termination>)
    requires breaker.Valid() && BetweenCalls(breaker.budget, breaker.history, cutAt)
    modifies breaker
    ensures breaker.Valid()
    ensures AfterPart(breaker.budget, breaker.history, Then(old(breaker.history), RoundEnded), cutAt, stopped)
  {
    OneMoreEvent(breaker.budget, breaker.history, RoundEnded);
    var trip := breaker.EndRound();
    stopped := Report(trip);
  }
}
