/** The loop contract's budget, its circuit breaker, and the tool loop it stops. */
module LoopContract {
  import opened Common
  import opened Sorting
  import opened CanonicalJson
  import opened CallKey
  import opened LoopHistory

  datatype LoopBudget = LoopBudget(
    maxRounds: nat,
    wallClockNanos: nat,
    maxRepeatedCallStreak: Option<nat>,
    maxSameErrorStreak: Option<nat>,
    maxToolCalls: Option<nat>)

  datatype LoopTrip =
    | RoundCap(rounds: nat)
    | WallClock(millis: nat)
    | RepeatedCall(tool: string, callStreak: nat)
    | RepeatedRound(calls: nat, roundStreak: nat)
    | SameError(tool: string, errorStreak: nat, signature: string)
    | ToolCallBudget(calls: nat)

  /** Whether an optional limit is set and reached. */
  predicate Reached(limit: Option<nat>, n: nat) {
    limit.Some? && n >= limit.value
  }

  /** When an observed call trips the breaker: a repeated call before a repeated failure. */
  function ObserveTrip(budget: LoopBudget, tool: string, signature: string, isError: bool,
                       callStreak: nat, errorStreak: nat): Option<LoopTrip>
  {
    if Reached(budget.maxRepeatedCallStreak, callStreak) then Some(RepeatedCall(tool, callStreak))
    else if isError && Reached(budget.maxSameErrorStreak, errorStreak)
    then Some(SameError(tool, errorStreak, signature))
    else None
  }

  function SortedBatch(batch: seq<Call>): (keys: seq<string>)
    ensures |keys| == |batch|
  {
    SortedLength(Keys(batch));
    Sort(StringOrder(), Keys(batch))
  }

  lemma SortedLength(keys: seq<string>)
    ensures |Sort(StringOrder(), keys)| == |keys|
  {
    StringOrderIsTotal();
    SortSorts(StringOrder(), keys);
  }

  // --------------------------------- the keys that stand for calls and batches

  function LastCallKey(h: History): Option<string> {
    match LastCall(h)
    case Some(last) => Some(Key(last))
    case None => None
  }

  function LastErrorKey(h: History): Option<(string, string)> {
    match LastCall(h)
    case Some(last) => if last.isError then Some((last.tool, last.signature)) else None
    case None => None
  }

  function LastRoundKeys(h: History): Option<seq<string>> {
    match LastRound(h)
    case Some(last) => if last == [] then None else Some(SortedBatch(last))
    case None => None
  }

  /** Comparing keys decides what the streaks are defined by. */
  lemma KeysDecideCallStreaks(h: History, call: Call)
    ensures CallStreak(Then(h, Observed(call)))
         == if LastCallKey(h) == Some(Key(call)) then CallStreak(h) + 1 else 1
    ensures ErrorStreak(Then(h, Observed(call)))
         == if !call.isError then 0
            else if LastErrorKey(h) == Some((call.tool, call.signature)) then ErrorStreak(h) + 1 else 1
  {
    if LastCall(h).Some? {
      KeysEqualIffSameCall(LastCall(h).value, call);
    }
  }

  lemma {:induction false} KeysDecideRoundStreak(h: History)
    ensures OpenKeys(h) == Keys(OpenBatch(h))
    ensures RoundStreak(Then(h, RoundEnded))
         == if OpenBatch(h) == [] then 0
            else if LastRoundKeys(h) == Some(SortedBatch(OpenBatch(h))) then RoundStreak(h) + 1 else 1
  {
    OpenKeysAreKeys(h);
    if LastRound(h).Some? {
      SortedKeysEqualIffPermutation(LastRound(h).value, OpenBatch(h));
    }
  }

  // ------------------------------------------------------- where a run trips

  /** What the breaker reports at the newest event of a history, if it reports a trip there. */
  ghost function TripAt(budget: LoopBudget, h: History): Option<LoopTrip>
    requires h.Then?
  {
    match h.event
    case RoundRefused => Some(RoundCap(budget.maxRounds))
    case Refused => if budget.maxToolCalls.Some? then Some(ToolCallBudget(budget.maxToolCalls.value)) else None
    case Observed(call) =>
      ObserveTrip(budget, call.tool, call.signature, call.isError, CallStreak(h), ErrorStreak(h))
    case RoundEnded =>
      if OpenBatch(h.before) != [] && Reached(budget.maxRepeatedCallStreak, RoundStreak(h))
      then Some(RepeatedRound(|OpenBatch(h.before)|, RoundStreak(h)))
      else None
    case _ => None
  }

  /** No event of the history was a trip. */
  ghost predicate NeverTripped(budget: LoopBudget, h: History) {
    h.Then? ==> NeverTripped(budget, h.before) && TripAt(budget, h).None?
  }

  // ----------------------------- what the counters of a breaker are, part by part

  ghost predicate CountsAre(h: History, roundsUsed: nat, dispatched: nat, compactions: nat, toolCalls: nat,
                            toolErrors: nat, callsByTool: map<string, nat>)
  {
    && roundsUsed == Count(h, RoundBegan)
    && dispatched == Count(h, Admitted)
    && compactions == Count(h, Compacted)
    && toolCalls == CallCount(h)
    && toolErrors == ErrorCount(h)
    && callsByTool == CallsByTool(h)
  }

  ghost predicate CallStateIs(h: History, lastCallKey: Option<string>, repeatedCallStreak: nat,
                              lastErrorKey: Option<(string, string)>, sameErrorStreak: nat)
  {
    && lastCallKey == LastCallKey(h) && repeatedCallStreak == CallStreak(h)
    && lastErrorKey == LastErrorKey(h) && sameErrorStreak == ErrorStreak(h)
  }

  ghost predicate RoundStateIs(h: History, roundKeys: seq<string>, lastRoundKeys: Option<seq<string>>,
                               repeatedRoundStreak: nat)
  {
    && roundKeys == OpenKeys(h)
    && lastRoundKeys == LastRoundKeys(h) && repeatedRoundStreak == RoundStreak(h)
  }

  /** One observed call, part by part. */
  lemma {:induction false} CountsObserved(h: History, call: Call, roundsUsed: nat, dispatched: nat, compactions: nat,
                                          toolCalls: nat, toolErrors: nat, callsByTool: map<string, nat>)
    requires CountsAre(h, roundsUsed, dispatched, compactions, toolCalls, toolErrors, callsByTool)
    ensures CountsAre(Then(h, Observed(call)), roundsUsed, dispatched, compactions, toolCalls + 1,
                      toolErrors + (if call.isError then 1 else 0), Tally(callsByTool, call.tool))
  {
  }

  lemma {:induction false} CallStateObserved(h: History, call: Call, lastCallKey: Option<string>, repeatedCallStreak: nat,
                                             lastErrorKey: Option<(string, string)>, sameErrorStreak: nat)
    requires CallStateIs(h, lastCallKey, repeatedCallStreak, lastErrorKey, sameErrorStreak)
    ensures var failure := Some((call.tool, call.signature));
            CallStateIs(Then(h, Observed(call)), Some(Key(call)),
                        if lastCallKey == Some(Key(call)) then repeatedCallStreak + 1 else 1,
                        if call.isError then failure else None,
                        if !call.isError then 0 else if lastErrorKey == failure then sameErrorStreak + 1 else 1)
  {
    KeysDecideCallStreaks(h, call);
  }

  lemma {:induction false} RoundStateObserved(h: History, call: Call, roundKeys: seq<string>,
                                              lastRoundKeys: Option<seq<string>>, repeatedRoundStreak: nat)
    requires RoundStateIs(h, roundKeys, lastRoundKeys, repeatedRoundStreak)
    ensures RoundStateIs(Then(h, Observed(call)), roundKeys + [Key(call)], lastRoundKeys, repeatedRoundStreak)
  {
  }

  /** The end of a round leaves counts and call state alone. */
  lemma {:induction false} RoundEndCounts(h: History, roundsUsed: nat, dispatched: nat, compactions: nat,
                                          toolCalls: nat, toolErrors: nat, callsByTool: map<string, nat>)
    requires CountsAre(h, roundsUsed, dispatched, compactions, toolCalls, toolErrors, callsByTool)
    ensures CountsAre(Then(h, RoundEnded), roundsUsed, dispatched, compactions, toolCalls, toolErrors, callsByTool)
  {
  }

  lemma {:induction false} RoundEndCallState(h: History, lastCallKey: Option<string>, repeatedCallStreak: nat,
                                             lastErrorKey: Option<(string, string)>, sameErrorStreak: nat)
    requires CallStateIs(h, lastCallKey, repeatedCallStreak, lastErrorKey, sameErrorStreak)
    ensures CallStateIs(Then(h, RoundEnded), lastCallKey, repeatedCallStreak, lastErrorKey, sameErrorStreak)
  {
  }

  class LoopBreaker {
    const budget: LoopBudget
    var roundsUsed: nat
    var dispatched: nat
    var toolCalls: nat
    var toolErrors: nat
    var lastCallKey: Option<string>
    var repeatedCallStreak: nat
    var lastErrorKey: Option<(string, string)>
    var sameErrorStreak: nat
    var roundKeys: seq<string>
    var lastRoundKeys: Option<seq<string>>
    var repeatedRoundStreak: nat
    var compactions: nat
    var callsByTool: map<string, nat>

    /** Everything that happened to this breaker, oldest first. */
    ghost var history: History

    /** Every counter equals its plain definition over the whole history. */
    ghost predicate Valid()
      reads this
    {
      && roundsUsed <= budget.maxRounds
      && (budget.maxToolCalls.Some? ==> dispatched <= budget.maxToolCalls.value)
      && CountsAre(history, roundsUsed, dispatched, compactions, toolCalls, toolErrors, callsByTool)
      && CallStateIs(history, lastCallKey, repeatedCallStreak, lastErrorKey, sameErrorStreak)
      && RoundStateIs(history, roundKeys, lastRoundKeys, repeatedRoundStreak)
    }

    constructor (budget: LoopBudget)
      ensures Valid() && this.budget == budget && history == Start
    {
      this.budget := budget;
      roundsUsed, dispatched, toolCalls, toolErrors, compactions := 0, 0, 0, 0, 0;
      lastCallKey, repeatedCallStreak := None, 0;
      lastErrorKey, sameErrorStreak := None, 0;
      roundKeys, lastRoundKeys, repeatedRoundStreak := [], None, 0;
      callsByTool := map[];
      history := Start;
    }

    method ObserveCompaction()
      requires Valid()
      modifies this
      ensures Valid() && history == Then(old(history), Compacted)
    {
      compactions := compactions + 1;
      history := Then(history, Compacted);
    }

    /** Admits the next round with its zero-based index, or refuses it when the cap is spent. */
    method BeginRound() returns (r: Result<nat, LoopTrip>)
      requires Valid()
      modifies this
      ensures Valid()
      ensures r.Err? <==> Count(old(history), RoundBegan) >= budget.maxRounds
      ensures r.Err? ==> r.error == RoundCap(budget.maxRounds) && history == Then(old(history), RoundRefused)
      ensures r.Ok? ==> r.value == Count(old(history), RoundBegan) && history == Then(old(history), RoundBegan)
    {
      if roundsUsed >= budget.maxRounds {
        history := Then(history, RoundRefused);
        return Err(RoundCap(budget.maxRounds));
      }
      var index := roundsUsed;
      roundsUsed := roundsUsed + 1;
      roundKeys := [];
      history := Then(history, RoundBegan);
      return Ok(index);
    }

    /** Admits one call about to run, or refuses it when the run's call budget is spent. */
    method AdmitCall() returns (r: Result<(), LoopTrip>)
      requires Valid()
      modifies this
      ensures Valid()
      ensures r.Err? <==> budget.maxToolCalls.Some?
                          && Count(old(history), Admitted) >= budget.maxToolCalls.value
      ensures r.Err? ==> r.error == ToolCallBudget(budget.maxToolCalls.value)
                         && history == Then(old(history), Refused)
      ensures r.Ok? ==> history == Then(old(history), Admitted)
    {
      if budget.maxToolCalls.Some? && dispatched >= budget.maxToolCalls.value {
        history := Then(history, Refused);
        return Err(ToolCallBudget(budget.maxToolCalls.value));
      }
      dispatched := dispatched + 1;
      history := Then(history, Admitted);
      return Ok(());
    }

    /** Closes the round; trips exactly when the streak of permuted batches reaches the limit. */
    method EndRound() returns (trip: Option<LoopTrip>)
      requires Valid()
      modifies this
      ensures Valid() && history == Then(old(history), RoundEnded)
      ensures trip.Some? <==> OpenBatch(old(history)) != [] && budget.maxRepeatedCallStreak.Some?
                              && RoundStreak(history) >= budget.maxRepeatedCallStreak.value
      ensures trip.Some? ==>
                trip.value == RepeatedRound(|OpenBatch(old(history))|, RoundStreak(history))
    {
      KeysDecideRoundStreak(history);
      RoundEndCounts(history, roundsUsed, dispatched, compactions, toolCalls, toolErrors, callsByTool);
      RoundEndCallState(history, lastCallKey, repeatedCallStreak, lastErrorKey, sameErrorStreak);
      if roundKeys == [] {
        lastRoundKeys, repeatedRoundStreak := None, 0;
        history := Then(history, RoundEnded);
        return None;
      }
      var keys := SortedBatchKeys();
      CompareRoundKeys(keys);
      history := Then(history, RoundEnded);
      if Reached(budget.maxRepeatedCallStreak, repeatedRoundStreak) {
        return Some(RepeatedRound(|keys|, repeatedRoundStreak));
      }
      return None;
    }

    /** Takes the round's keys out of the buffer and sorts them. */
    method SortedBatchKeys() returns (keys: seq<string>)
      modifies this`roundKeys
      ensures keys == Sort(StringOrder(), old(roundKeys)) && |keys| == |old(roundKeys)|
      ensures roundKeys == []
    {
      SortedLength(roundKeys);
      keys := Sort(StringOrder(), roundKeys);
      roundKeys := [];
    }

    method CompareRoundKeys(keys: seq<string>)
      modifies this`repeatedRoundStreak, this`lastRoundKeys
      ensures lastRoundKeys == Some(keys)
      ensures repeatedRoundStreak
           == if old(lastRoundKeys) == Some(keys) then old(repeatedRoundStreak) + 1 else 1
    {
      if lastRoundKeys == Some(keys) {
        repeatedRoundStreak := repeatedRoundStreak + 1;
      } else {
        repeatedRoundStreak := 1;
      }
      lastRoundKeys := Some(keys);
    }

    method CountCall(tool: string, isError: bool)
      modifies this`toolCalls, this`toolErrors, this`callsByTool
      ensures toolCalls == old(toolCalls) + 1
      ensures toolErrors == old(toolErrors) + (if isError then 1 else 0)
      ensures callsByTool == Tally(old(callsByTool), tool)
    {
      toolCalls := toolCalls + 1;
      callsByTool := Tally(callsByTool, tool);
      if isError {
        toolErrors := toolErrors + 1;
      }
    }

    method CompareCallKey(callKey: string)
      modifies this`roundKeys, this`repeatedCallStreak, this`lastCallKey
      ensures roundKeys == old(roundKeys) + [callKey] && lastCallKey == Some(callKey)
      ensures repeatedCallStreak
           == if old(lastCallKey) == Some(callKey) then old(repeatedCallStreak) + 1 else 1
    {
      roundKeys := roundKeys + [callKey];
      if lastCallKey == Some(callKey) {
        repeatedCallStreak := repeatedCallStreak + 1;
      } else {
        lastCallKey := Some(callKey);
        repeatedCallStreak := 1;
      }
    }

    method CompareError(tool: string, isError: bool, signature: string)
      modifies this`sameErrorStreak, this`lastErrorKey
      ensures lastErrorKey == if isError then Some((tool, signature)) else None
      ensures sameErrorStreak
           == if !isError then 0
              else if old(lastErrorKey) == Some((tool, signature)) then old(sameErrorStreak) + 1 else 1
    {
      if isError {
        if lastErrorKey == Some((tool, signature)) {
          sameErrorStreak := sameErrorStreak + 1;
        } else {
          lastErrorKey := Some((tool, signature));
          sameErrorStreak := 1;
        }
      } else {
        lastErrorKey, sameErrorStreak := None, 0;
      }
    }

    /** The counter updates of one observed call. */
    method Record(tool: string, input: JsonValue, isError: bool, signature: string)
      requires Valid()
      modifies this
      ensures Valid() && history == Then(old(history), Observed(Call(tool, input, isError, signature)))
    {
      ghost var call := Call(tool, input, isError, signature);
      CountsObserved(history, call, roundsUsed, dispatched, compactions, toolCalls, toolErrors, callsByTool);
      CallStateObserved(history, call, lastCallKey, repeatedCallStreak, lastErrorKey, sameErrorStreak);
      RoundStateObserved(history, call, roundKeys, lastRoundKeys, repeatedRoundStreak);
      CountCall(tool, isError);
      CompareCallKey(KeyOf(tool, input));
      CompareError(tool, isError, signature);
      history := Then(history, Observed(call));
    }

    /**
     * Records one executed call. Trips on the repeated-call streak first, then on the
     * same-error streak, each exactly when the streak reaches its limit.
     */
    method ObserveCall(tool: string, input: JsonValue, isError: bool, signature: string)
      returns (trip: Option<LoopTrip>)
      requires Valid()
      modifies this
      ensures Valid() && history == Then(old(history), Observed(Call(tool, input, isError, signature)))
      ensures trip == ObserveTrip(budget, tool, signature, isError, CallStreak(history), ErrorStreak(history))
      ensures trip
           == if budget.maxRepeatedCallStreak.Some? && CallStreak(history) >= budget.maxRepeatedCallStreak.value
              then Some(RepeatedCall(tool, CallStreak(history)))
              else if isError && budget.maxSameErrorStreak.Some?
                      && ErrorStreak(history) >= budget.maxSameErrorStreak.value
              then Some(SameError(tool, ErrorStreak(history), signature))
              else None
    {
      Record(tool, input, isError, signature);
      if Reached(budget.maxRepeatedCallStreak, repeatedCallStreak) {
        return Some(RepeatedCall(tool, repeatedCallStreak));
      }
      if Reached(budget.maxSameErrorStreak, sameErrorStreak) {
        if lastErrorKey.Some? {
          return Some(SameError(tool, sameErrorStreak, lastErrorKey.value.1));
        }
      }
      return None;
    }

    /** Calls dispatched but never observed. */
    function Interrupted(): nat
      reads this
    {
      if dispatched >= toolCalls then dispatched - toolCalls else 0
    }
  }
}
