/** What a loop did, as a list of events, and the plain definitions its counters must agree with. */
module LoopHistory {
  import opened Common
  import opened Sorting
  import opened CanonicalJson
  import opened CallKey
  import opened Streaks

  /** One executed tool call as the breaker observes it. */
  datatype Call = Call(tool: string, input: JsonValue, isError: bool, signature: string)

  datatype Event =
    | RoundBegan
    | RoundRefused
    | Admitted
    | Refused
    | Observed(call: Call)
    | RoundEnded
    | Compacted

  /** Everything that happened to a breaker, newest event outermost. */
  datatype History = Start | Then(before: History, event: Event)

  function Count(h: History, e: Event): nat {
    if h.Start? then 0 else Count(h.before, e) + (if h.event == e then 1 else 0)
  }

  /** The observed calls, oldest first. */
  function Calls(h: History): seq<Call> {
    if h.Start? then []
    else if h.event.Observed? then Calls(h.before) + [h.event.call]
    else Calls(h.before)
  }

  /** The calls observed since a round last began or ended. */
  function OpenBatch(h: History): seq<Call> {
    if h.Start? || h.event.RoundBegan? || h.event.RoundEnded? then []
    else if h.event.Observed? then OpenBatch(h.before) + [h.event.call]
    else OpenBatch(h.before)
  }

  /** The call batches of the rounds that were closed, oldest first. */
  function ClosedRounds(h: History): seq<seq<Call>> {
    if h.Start? then []
    else if h.event.RoundEnded? then ClosedRounds(h.before) + [OpenBatch(h.before)]
    else ClosedRounds(h.before)
  }

  // --------------------------------------------------- relations on calls

  /** The same tool with inputs equal up to key order. */
  ghost predicate SameCall(a: Call, b: Call) {
    a.tool == b.tool && Meaning(a.input) == Meaning(b.input)
  }

  /** Two failures of the same tool with the same signature. */
  ghost predicate SameFailure(a: Call, b: Call) {
    a.isError && b.isError && a.tool == b.tool && a.signature == b.signature
  }

  ghost function Identity(c: Call): (string, Value) {
    (c.tool, Meaning(c.input))
  }

  ghost function Identities(batch: seq<Call>): (ids: seq<(string, Value)>)
    ensures |ids| == |batch| && forall i :: 0 <= i < |ids| ==> ids[i] == Identity(batch[i])
  {
    seq(|batch|, i requires 0 <= i < |batch| => Identity(batch[i]))
  }

  /** Two non-empty batches that are permutations of one another. */
  ghost predicate SameBatch(a: seq<Call>, b: seq<Call>) {
    a != [] && b != [] && multiset(Identities(a)) == multiset(Identities(b))
  }

  lemma RelationsAreEquivalences()
    ensures PartialEquivalence(SameCall)
    ensures PartialEquivalence(SameFailure)
    ensures PartialEquivalence(SameBatch)
  {
  }

  // ------------------------------------------------ the breaker's own keys

  function Key(c: Call): string {
    KeyOf(c.tool, c.input)
  }

  function Keys(batch: seq<Call>): (keys: seq<string>)
    ensures |keys| == |batch| && forall i :: 0 <= i < |keys| ==> keys[i] == Key(batch[i])
  {
    seq(|batch|, i requires 0 <= i < |batch| => Key(batch[i]))
  }

  lemma KeysEqualIffSameCall(a: Call, b: Call)
    ensures Key(a) == Key(b) <==> SameCall(a, b)
  {
    KeyIdentifiesCall(a.tool, a.input, b.tool, b.input);
  }

  /** Sorted keys are equal exactly when the batches are permutations of one another. */
  lemma SortedKeysEqualIffPermutation(a: seq<Call>, b: seq<Call>)
    ensures Sort(StringOrder(), Keys(a)) == Sort(StringOrder(), Keys(b))
       <==> multiset(Identities(a)) == multiset(Identities(b))
  {
    StringOrderIsTotal();
    SortEqualIffPermutation(StringOrder(), Keys(a), Keys(b));
    forall x: Call, y: Call ensures Key(x) == Key(y) <==> Identity(x) == Identity(y) {
      KeysEqualIffSameCall(x, y);
    }
    if multiset(Keys(a)) == multiset(Keys(b)) {
      PermutationThroughNames(Keys(a), Identities(a), Keys(b), Identities(b));
    }
    if multiset(Identities(a)) == multiset(Identities(b)) {
      PermutationThroughNames(Identities(a), Keys(a), Identities(b), Keys(b));
    }
  }

  // ------------------------------------ what the counters are, event by event

  function LastCall(h: History): Option<Call> {
    if h.Start? then None
    else if h.event.Observed? then Some(h.event.call)
    else LastCall(h.before)
  }

  ghost function CallStreak(h: History): nat {
    if h.Start? then 0
    else if !h.event.Observed? then CallStreak(h.before)
    else
      match LastCall(h.before)
      case Some(last) => if SameCall(last, h.event.call) then CallStreak(h.before) + 1 else 1
      case None => 1
  }

  ghost function ErrorStreak(h: History): nat {
    if h.Start? then 0
    else if !h.event.Observed? then ErrorStreak(h.before)
    else if !h.event.call.isError then 0
    else
      match LastCall(h.before)
      case Some(last) => if SameFailure(last, h.event.call) then ErrorStreak(h.before) + 1 else 1
      case None => 1
  }

  function LastRound(h: History): Option<seq<Call>> {
    if h.Start? then None
    else if h.event.RoundEnded? then Some(OpenBatch(h.before))
    else LastRound(h.before)
  }

  ghost function RoundStreak(h: History): nat {
    if h.Start? then 0
    else if !h.event.RoundEnded? then RoundStreak(h.before)
    else if OpenBatch(h.before) == [] then 0
    else
      match LastRound(h.before)
      case Some(last) => if SameBatch(last, OpenBatch(h.before)) then RoundStreak(h.before) + 1 else 1
      case None => 1
  }

  /** The keys of the open batch. */
  function OpenKeys(h: History): seq<string> {
    if h.Start? || h.event.RoundBegan? || h.event.RoundEnded? then []
    else if h.event.Observed? then OpenKeys(h.before) + [Key(h.event.call)]
    else OpenKeys(h.before)
  }

  lemma {:induction false} OpenKeysAreKeys(h: History)
    ensures OpenKeys(h) == Keys(OpenBatch(h))
  {
    if h.Then? {
      OpenKeysAreKeys(h.before);
    }
  }

  function ErrorCount(h: History): nat {
    if h.Start? then 0
    else ErrorCount(h.before) + (if h.event.Observed? && h.event.call.isError then 1 else 0)
  }

  function CallCount(h: History): nat {
    if h.Start? then 0
    else CallCount(h.before) + (if h.event.Observed? then 1 else 0)
  }

  function Tally(m: map<string, nat>, tool: string): map<string, nat> {
    m[tool := (if tool in m then m[tool] else 0) + 1]
  }

  function CallsByTool(h: History): map<string, nat> {
    if h.Start? then map[]
    else if h.event.Observed? then Tally(CallsByTool(h.before), h.event.call.tool)
    else CallsByTool(h.before)
  }

  // ----------------------------------------- and what they count, in the end

  lemma {:induction false} LastIsLast(h: History)
    ensures LastCall(h) == if Calls(h) == [] then None else Some(Calls(h)[|Calls(h)| - 1])
    ensures LastRound(h)
         == if ClosedRounds(h) == [] then None else Some(ClosedRounds(h)[|ClosedRounds(h)| - 1])
  {
    if h.Then? {
      LastIsLast(h.before);
    }
  }

  /** `repeated_call_streak`: the longest suffix of calls that are one call repeated. */
  lemma {:induction false} CallStreakIsLongestRun(h: History)
    ensures LongestRun(SameCall, Calls(h), CallStreak(h))
  {
    if h.Then? {
      CallStreakIsLongestRun(h.before);
      if h.event.Observed? {
        LastIsLast(h.before);
        RelationsAreEquivalences();
        LongestRunExtends(SameCall, Calls(h.before), CallStreak(h.before), h.event.call);
      }
    }
  }

  /** `same_error_streak`: the longest suffix of failing calls with one tool and one signature. */
  lemma {:induction false} ErrorStreakIsLongestRun(h: History)
    ensures LongestRun(SameFailure, Calls(h), ErrorStreak(h))
  {
    if h.Then? {
      ErrorStreakIsLongestRun(h.before);
      if h.event.Observed? {
        LastIsLast(h.before);
        RelationsAreEquivalences();
        LongestRunExtends(SameFailure, Calls(h.before), ErrorStreak(h.before), h.event.call);
      }
    }
  }

  /** `repeated_round_streak`: the longest suffix of closed non-empty rounds that are permutations. */
  lemma {:induction false} RoundStreakIsLongestRun(h: History)
    ensures LongestRun(SameBatch, ClosedRounds(h), RoundStreak(h))
  {
    if h.Then? {
      RoundStreakIsLongestRun(h.before);
      if h.event.RoundEnded? {
        LastIsLast(h.before);
        RelationsAreEquivalences();
        LongestRunExtends(SameBatch, ClosedRounds(h.before), RoundStreak(h.before), OpenBatch(h.before));
      }
    }
  }

  function CallsOfTool(calls: seq<Call>, tool: string): nat {
    if calls == [] then 0
    else CallsOfTool(calls[..|calls| - 1], tool) + (if calls[|calls| - 1].tool == tool then 1 else 0)
  }

  ghost function Total(m: map<string, nat>): nat
    decreases |m|
  {
    if m == map[] then 0
    else
      var k :| k in m;
      m[k] + Total(m - {k})
  }

  lemma {:induction false} TotalAt(m: map<string, nat>, k: string)
    requires k in m
    ensures Total(m) == m[k] + Total(m - {k})
    decreases |m|
  {
    var j :| j in m && Total(m) == m[j] + Total(m - {j});
    if j != k {
      TotalAt(m - {j}, k);
      TotalAt(m - {k}, j);
      assert m - {j} - {k} == m - {k} - {j};
    }
  }

  lemma TotalTally(m: map<string, nat>, tool: string)
    ensures Total(Tally(m, tool)) == Total(m) + 1
  {
    var t := Tally(m, tool);
    TotalAt(t, tool);
    if tool in m {
      TotalAt(m, tool);
      assert t - {tool} == m - {tool};
    } else {
      assert t - {tool} == m;
    }
  }

  lemma {:induction false} TalliesSumToCalls(h: History)
    ensures Total(CallsByTool(h)) == CallCount(h) == |Calls(h)|
  {
    if h.Then? {
      TalliesSumToCalls(h.before);
      if h.event.Observed? {
        TotalTally(CallsByTool(h.before), h.event.call.tool);
      }
    }
  }

  lemma {:induction false} TallyOfTool(h: History, tool: string)
    ensures tool in CallsByTool(h) <==> CallsOfTool(Calls(h), tool) > 0
    ensures tool in CallsByTool(h) ==> CallsByTool(h)[tool] == CallsOfTool(Calls(h), tool)
  {
    if h.Then? {
      TallyOfTool(h.before, tool);
      if h.event.Observed? {
        assert Calls(h)[..|Calls(h)| - 1] == Calls(h.before);
      }
    }
  }

  /** `calls_by_tool` holds how often each tool was called; its counts sum to `tool_calls`. */
  lemma CallsByToolCounts(h: History)
    ensures forall t :: t in CallsByTool(h) <==> CallsOfTool(Calls(h), t) > 0
    ensures forall t :: t in CallsByTool(h) ==> CallsByTool(h)[t] == CallsOfTool(Calls(h), t)
    ensures Total(CallsByTool(h)) == CallCount(h) == |Calls(h)|
  {
    TalliesSumToCalls(h);
    forall t ensures t in CallsByTool(h) <==> CallsOfTool(Calls(h), t) > 0 {
      TallyOfTool(h, t);
    }
    forall t | t in CallsByTool(h) ensures CallsByTool(h)[t] == CallsOfTool(Calls(h), t) {
      TallyOfTool(h, t);
    }
  }
}
