/** Comparative settlement: the constructor is exactly a four-part predicate, and records re-validate. */
module Settlement {
  import opened Common
  import CanonicalJson
  import Text

  type Id = string
  type ArchivePath = seq<byte>

  const DEFAULT_CANDIDATE_CAP: nat := 8
  const MIN_RATIONALE_BYTES: nat := 40

  datatype CheckOutcome = Passed | Failed | Inconclusive

  datatype CheckResult = CheckResult(check: Id, outcome: CheckOutcome, fatal: bool, evidence: Option<string>)

  datatype BasisVerdict = Fresh | Stale(moved: seq<string>)

  datatype CandidateResult = CandidateResult(
    id: Id,
    worktreeArchive: ArchivePath,
    diffSummary: string,
    basisVerdict: BasisVerdict,
    checks: seq<CheckResult>)

  datatype Graft = Graft(source: Id, piece: string)

  datatype Dissent = Dissent(candidate: Id, diffSummary: string, note: Option<string>)

  /** Everything a settlement record says, as it stands on the wire. */
  datatype Parts = Parts(
    candidates: seq<CandidateResult>,
    selected: Id,
    rationale: string,
    grafts: seq<Graft>,
    dissent: seq<Dissent>)

  datatype SettlementRecord = SettlementRecord(parts: Parts, winner: CandidateResult)

  datatype Ineligibility = BasisStale(moved: seq<string>) | FatalFailed(check: Id) | FatalInconclusive(check: Id)

  datatype Field = Selected | GraftFrom | DissentCandidate

  datatype SettlementError =
    | NoCandidates
    | SingleCandidate(id: Id)
    | OverCap(count: nat, cap: nat)
    | DuplicateCandidate(id: Id)
    | NoChecks(id: Id)
    | MissingCheck(id: Id, check: Id)
    | FatalDisagreement(check: Id)
    | UnknownCandidate(field: Field, id: Id)
    | IneligibleSelection(id: Id, reason: Ineligibility)
    | RationaleTooShort(length: nat)
    | ArchiveMissing(id: Id, path: ArchivePath)
    | PassingCandidateNotRecorded(id: Id)

  // --------------------------------------------------------------- eligibility

  predicate Disqualifying(r: CheckResult) {
    r.fatal && r.outcome != Passed
  }

  predicate PassedAll(c: CandidateResult) {
    c.checks != [] && forall i :: 0 <= i < |c.checks| ==> c.checks[i].outcome.Passed?
  }

  function FirstDisqualifying(checks: seq<CheckResult>): Option<CheckResult> {
    if checks == [] then None
    else if Disqualifying(checks[0]) then Some(checks[0])
    else FirstDisqualifying(checks[1..])
  }

  function IneligibilityReason(c: CandidateResult): Option<Ineligibility> {
    if c.basisVerdict.Stale? then Some(BasisStale(c.basisVerdict.moved))
    else
      match FirstDisqualifying(c.checks)
      case None => None
      case Some(r) => Some(if r.outcome.Failed? then FatalFailed(r.check) else FatalInconclusive(r.check))
  }

  /** The basis still holds and every fatal check passed outright. */
  predicate Eligible(c: CandidateResult) {
    c.basisVerdict.Fresh? && forall i :: 0 <= i < |c.checks| ==> c.checks[i].fatal ==> c.checks[i].outcome.Passed?
  }

  lemma {:induction false} FirstDisqualifyingFinds(checks: seq<CheckResult>)
    ensures FirstDisqualifying(checks).None? <==> forall i :: 0 <= i < |checks| ==> !Disqualifying(checks[i])
    ensures FirstDisqualifying(checks).Some? ==>
              exists i :: 0 <= i < |checks| && checks[i] == FirstDisqualifying(checks).value
                          && Disqualifying(checks[i]) && forall j :: 0 <= j < i ==> !Disqualifying(checks[j])
  {
    if checks != [] {
      var rest := checks[1..];
      FirstDisqualifyingFinds(rest);
      if !Disqualifying(checks[0]) && FirstDisqualifying(rest).Some? {
        var k :| 0 <= k < |rest| && rest[k] == FirstDisqualifying(rest).value
                 && Disqualifying(rest[k]) && forall j :: 0 <= j < k ==> !Disqualifying(rest[j]);
        assert checks[k + 1] == rest[k];
        assert forall j :: 0 < j < k + 1 ==> checks[j] == rest[j - 1];
      }
    }
  }

  /** The first fatal check that did not pass is at `i`. */
  predicate StopsAt(c: CandidateResult, i: nat) {
    && i < |c.checks| && c.checks[i].fatal && !c.checks[i].outcome.Passed?
    && forall j :: 0 <= j < i ==> c.checks[j].fatal ==> c.checks[j].outcome.Passed?
  }

  /**
   * A reason is given exactly to candidates that may not be selected: a stale basis comes first,
   * with what moved, and then the first fatal check that did not pass, as failed or as not
   * concluded, whichever it was.
   */
  lemma ReasonIffIneligible(c: CandidateResult)
    ensures IneligibilityReason(c).None? <==> Eligible(c)
    ensures match IneligibilityReason(c)
            case None => true
            case Some(BasisStale(moved)) => c.basisVerdict == Stale(moved)
            case Some(FatalFailed(check)) =>
              c.basisVerdict.Fresh? &&
              exists i: nat :: StopsAt(c, i) && c.checks[i].check == check && c.checks[i].outcome.Failed?
            case Some(FatalInconclusive(check)) =>
              c.basisVerdict.Fresh? &&
              exists i: nat :: StopsAt(c, i) && c.checks[i].check == check && c.checks[i].outcome.Inconclusive?
    ensures c.basisVerdict.Stale? ==> IneligibilityReason(c) == Some(BasisStale(c.basisVerdict.moved))
  {
    FirstDisqualifyingFinds(c.checks);
  }

  // ------------------------------------------------------- the declared contract

  predicate UniqueIds(candidates: seq<CandidateResult>) {
    forall i, j :: 0 <= i < j < |candidates| ==> candidates[i].id != candidates[j].id
  }

  predicate Ran(c: CandidateResult, check: Id) {
    exists i :: 0 <= i < |c.checks| && c.checks[i].check == check
  }

  /** Every candidate ran at least one check, and all of them ran the same ones. */
  ghost predicate CompleteMatrix(candidates: seq<CandidateResult>) {
    forall c, d :: c in candidates && d in candidates ==>
      c.checks != [] && forall check :: Ran(c, check) ==> Ran(d, check)
  }

  /** Each check is fatal everywhere or nowhere. */
  predicate FatalAgreement(candidates: seq<CandidateResult>) {
    forall c, d :: c in candidates && d in candidates ==>
      forall r, s :: r in c.checks && s in d.checks && r.check == s.check ==> r.fatal == s.fatal
  }

  predicate SelectsEligible(candidates: seq<CandidateResult>, selected: Id) {
    exists i :: 0 <= i < |candidates| && candidates[i].id == selected && Eligible(candidates[i])
  }

  predicate Named(candidates: seq<CandidateResult>, id: Id) {
    exists i :: 0 <= i < |candidates| && candidates[i].id == id
  }

  predicate GraftLive(candidates: seq<CandidateResult>, graft: Graft, onDisk: set<ArchivePath>) {
    exists i :: 0 <= i < |candidates| && candidates[i].id == graft.source && candidates[i].worktreeArchive in onDisk
  }

  predicate GraftsLive(candidates: seq<CandidateResult>, grafts: seq<Graft>, onDisk: set<ArchivePath>) {
    forall i :: 0 <= i < |grafts| ==> GraftLive(candidates, grafts[i], onDisk)
  }

  predicate Recorded(dissent: seq<Dissent>, id: Id) {
    exists i :: 0 <= i < |dissent| && dissent[i].candidate == id
  }

  predicate DissentComplete(p: Parts) {
    && (forall i :: 0 <= i < |p.dissent| ==> Named(p.candidates, p.dissent[i].candidate))
    && (forall i :: 0 <= i < |p.candidates| && p.candidates[i].id != p.selected && PassedAll(p.candidates[i]) ==>
          Recorded(p.dissent, p.candidates[i].id))
  }

  predicate RationaleNamesDifference(rationale: string) {
    Text.Utf8Length(Text.Trim(rationale)) >= MIN_RATIONALE_BYTES
  }

  /** What holds whatever the cap and whatever is on disk. */
  ghost predicate Coherent(p: Parts) {
    && |p.candidates| >= 2
    && UniqueIds(p.candidates)
    && CompleteMatrix(p.candidates)
    && FatalAgreement(p.candidates)
    && SelectsEligible(p.candidates, p.selected)
    && RationaleNamesDifference(p.rationale)
    && DissentComplete(p)
  }

  /** The contract of a settlement, in its four parts. */
  ghost predicate Settles(p: Parts, cap: nat, onDisk: set<ArchivePath>) {
    Coherent(p) && |p.candidates| <= cap && GraftsLive(p.candidates, p.grafts, onDisk)
  }

  // ------------------------------------------------------------- one part each

  method CheckIds(candidates: seq<CandidateResult>) returns (r: Result<set<Id>, SettlementError>)
    ensures r.Ok? <==> UniqueIds(candidates)
    ensures r.Ok? ==> forall id :: id in r.value <==> Named(candidates, id)
    ensures r.Err? ==> r.error.DuplicateCandidate?
                       && exists i, j :: 0 <= i < j < |candidates| && candidates[i].id == candidates[j].id == r.error.id
  {
    var seen: set<Id> := {};
    for i := 0 to |candidates|
      invariant UniqueIds(candidates[..i])
      invariant forall id :: id in seen <==> Named(candidates[..i], id)
    {
      var id := candidates[i].id;
      if id in seen {
        var j :| 0 <= j < i && candidates[..i][j].id == id;
        assert candidates[j].id == candidates[i].id;
        return Err(DuplicateCandidate(id));
      }
      assert forall j :: 0 <= j < i ==> candidates[..i][j].id != id;
      NamedStep(candidates, i);
      seen := seen + {id};
    }
    assert candidates[..|candidates|] == candidates;
    return Ok(seen);
  }

  lemma NamedStep(candidates: seq<CandidateResult>, i: nat)
    requires i < |candidates|
    ensures forall id :: Named(candidates[..i + 1], id) <==> Named(candidates[..i], id) || id == candidates[i].id
  {
    var longer := candidates[..i + 1];
    assert longer[i] == candidates[i];
    assert forall j :: 0 <= j < i ==> longer[j] == candidates[..i][j];
  }

  function ChecksOf(c: CandidateResult): (ids: set<Id>)
    ensures forall check :: check in ids <==> Ran(c, check)
  {
    set i | 0 <= i < |c.checks| :: c.checks[i].check
  }

  method EveryCheck(candidates: seq<CandidateResult>) returns (all: set<Id>)
    ensures forall check :: check in all <==> exists c :: c in candidates && Ran(c, check)
  {
    all := {};
    for i := 0 to |candidates|
      invariant forall check :: check in all <==> exists c :: c in candidates[..i] && Ran(c, check)
    {
      assert candidates[..i + 1] == candidates[..i] + [candidates[i]];
      all := all + ChecksOf(candidates[i]);
    }
    assert candidates[..|candidates|] == candidates;
  }

  /** The least of a nonempty set of ids. */
  method Least(ids: set<Id>) returns (least: Id)
    requires ids != {}
    ensures least in ids && forall id :: id in ids ==> CanonicalJson.StringOrder()(least, id)
  {
    CanonicalJson.StringOrderIsTotal();
    var le := CanonicalJson.StringOrder();
    least :| least in ids;
    var rest := ids - {least};
    while rest != {}
      invariant least in ids && rest <= ids
      invariant forall id :: id in ids && id !in rest ==> le(least, id)
      decreases rest
    {
      var id :| id in rest;
      if le(id, least) {
        least := id;
      }
      rest := rest - {id};
    }
  }

  /** The least check that some candidate ran and this one did not. */
  ghost predicate LeastMissing(candidates: seq<CandidateResult>, c: CandidateResult, check: Id) {
    && !Ran(c, check)
    && (exists d :: d in candidates && Ran(d, check))
    && forall d, other :: d in candidates && Ran(d, other) && !Ran(c, other) ==>
         CanonicalJson.StringOrder()(check, other)
  }

  lemma MissingIsLeast(candidates: seq<CandidateResult>, c: CandidateResult, all: set<Id>, check: Id)
    requires forall id :: id in all <==> exists d :: d in candidates && Ran(d, id)
    requires check in all - ChecksOf(c)
    requires forall id :: id in all - ChecksOf(c) ==> CanonicalJson.StringOrder()(check, id)
    ensures LeastMissing(candidates, c, check)
  {
    forall d, other | d in candidates && Ran(d, other) && !Ran(c, other)
      ensures CanonicalJson.StringOrder()(check, other)
    {
      assert other in all - ChecksOf(c);
    }
  }

  method CheckMatrix(candidates: seq<CandidateResult>) returns (r: Option<SettlementError>)
    requires candidates != []
    ensures r.None? <==> CompleteMatrix(candidates)
    ensures r.Some? ==> r.value.NoChecks? || r.value.MissingCheck?
    ensures r.Some? && r.value.NoChecks? ==> exists c :: c in candidates && c.id == r.value.id && c.checks == []
    ensures r.Some? && r.value.MissingCheck? ==>
              exists c :: c in candidates && c.id == r.value.id && LeastMissing(candidates, c, r.value.check)
  {
    var all := EveryCheck(candidates);
    for i := 0 to |candidates|
      invariant forall j :: 0 <= j < i ==> candidates[j].checks != [] && ChecksOf(candidates[j]) == all
    {
      var c := candidates[i];
      if c.checks == [] {
        assert c in candidates;
        return Some(NoChecks(c.id));
      }
      var missing := all - ChecksOf(c);
      if missing != {} {
        var check := Least(missing);
        assert c in candidates && !Ran(c, check);
        assert check in all;
        MissingIsLeast(candidates, c, all, check);
        return Some(MissingCheck(c.id, check));
      }
      assert c in candidates && ChecksOf(c) <= all;
      assert all <= ChecksOf(c) by {
        assert forall check :: check in all && check !in ChecksOf(c) ==> check in missing;
      }
    }
    forall c, d | c in candidates && d in candidates
      ensures c.checks != [] && forall check :: Ran(c, check) ==> Ran(d, check)
    {
      var i :| 0 <= i < |candidates| && candidates[i] == c;
      var j :| 0 <= j < |candidates| && candidates[j] == d;
      assert ChecksOf(c) == all == ChecksOf(d);
    }
    return None;
  }

  /** Every cell of the matrix, candidate by candidate. */
  function Cells(candidates: seq<CandidateResult>): seq<CheckResult> {
    if candidates == [] then [] else candidates[0].checks + Cells(candidates[1..])
  }

  lemma {:induction false} CellsAreChecks(candidates: seq<CandidateResult>, r: CheckResult)
    ensures r in Cells(candidates) <==> exists c :: c in candidates && r in c.checks
  {
    if candidates != [] {
      CellsAreChecks(candidates[1..], r);
    }
  }

  predicate CellsAgree(cells: seq<CheckResult>) {
    forall r, s :: r in cells && s in cells && r.check == s.check ==> r.fatal == s.fatal
  }

  lemma CellsAgreeIffFatalAgreement(candidates: seq<CandidateResult>)
    ensures CellsAgree(Cells(candidates)) <==> FatalAgreement(candidates)
  {
    forall r ensures r in Cells(candidates) <==> exists c :: c in candidates && r in c.checks {
      CellsAreChecks(candidates, r);
    }
  }

  /** The flag each of the first `n` cells' checks was first seen with. */
  ghost predicate FirstFlags(flags: map<Id, bool>, cells: seq<CheckResult>, n: nat)
    requires n <= |cells|
  {
    && (forall k :: 0 <= k < n ==> cells[k].check in flags && flags[cells[k].check] == cells[k].fatal)
    && (forall check :: check in flags ==> exists k :: 0 <= k < n && cells[k].check == check)
  }

  lemma FlagsStep(flags: map<Id, bool>, cells: seq<CheckResult>, n: nat)
    requires n < |cells| && FirstFlags(flags, cells, n)
    requires cells[n].check in flags ==> flags[cells[n].check] == cells[n].fatal
    ensures FirstFlags(flags[cells[n].check := cells[n].fatal], cells, n + 1)
  {
    var longer := flags[cells[n].check := cells[n].fatal];
    forall check | check in longer ensures exists k :: 0 <= k < n + 1 && cells[k].check == check {
      if check == cells[n].check {
        assert cells[n].check == check;
      } else {
        var k :| 0 <= k < n && cells[k].check == check;
      }
    }
  }

  lemma FlagsAgree(flags: map<Id, bool>, cells: seq<CheckResult>)
    requires FirstFlags(flags, cells, |cells|)
    ensures CellsAgree(cells)
  {
  }

  /** Two cells of one check with different flags. */
  ghost predicate Disagree(cells: seq<CheckResult>, check: Id) {
    exists s, t :: s in cells && t in cells && s.check == t.check == check && s.fatal != t.fatal
  }

  lemma SeenBefore(flags: map<Id, bool>, cells: seq<CheckResult>, n: nat)
    requires n < |cells| && FirstFlags(flags, cells, n)
    requires cells[n].check in flags && flags[cells[n].check] != cells[n].fatal
    ensures Disagree(cells, cells[n].check) && !CellsAgree(cells)
  {
    var k :| 0 <= k < n && cells[k].check == cells[n].check;
    assert cells[k] in cells && cells[n] in cells;
  }

  method CheckFatalFlags(candidates: seq<CandidateResult>) returns (r: Option<SettlementError>)
    ensures r.None? <==> FatalAgreement(candidates)
    ensures r.Some? ==> r.value.FatalDisagreement? && Disagree(Cells(candidates), r.value.check)
  {
    var cells := Cells(candidates);
    CellsAgreeIffFatalAgreement(candidates);
    var flags: map<Id, bool> := map[];
    for i := 0 to |cells|
      invariant FirstFlags(flags, cells, i)
    {
      var result := cells[i];
      if result.check in flags && flags[result.check] != result.fatal {
        SeenBefore(flags, cells, i);
        return Some(FatalDisagreement(result.check));
      }
      FlagsStep(flags, cells, i);
      flags := flags[result.check := result.fatal];
    }
    FlagsAgree(flags, cells);
    return None;
  }

  method FindCandidate(candidates: seq<CandidateResult>, id: Id) returns (r: Option<CandidateResult>)
    ensures r.None? <==> !Named(candidates, id)
    ensures r.Some? ==> exists i :: 0 <= i < |candidates| && candidates[i] == r.value && r.value.id == id
  {
    for i := 0 to |candidates|
      invariant forall j :: 0 <= j < i ==> candidates[j].id != id
    {
      if candidates[i].id == id {
        return Some(candidates[i]);
      }
    }
    return None;
  }

  method FindWinner(p: Parts) returns (r: Result<CandidateResult, SettlementError>)
    requires UniqueIds(p.candidates)
    ensures r.Ok? <==> SelectsEligible(p.candidates, p.selected)
    ensures r.Ok? ==> exists i :: 0 <= i < |p.candidates| && p.candidates[i] == r.value && r.value.id == p.selected
    ensures r.Err? ==> if Named(p.candidates, p.selected)
                       then r.error.IneligibleSelection? && r.error.id == p.selected
                            && exists c :: c in p.candidates && c.id == p.selected && !Eligible(c)
                                           && IneligibilityReason(c) == Some(r.error.reason)
                       else r.error == UnknownCandidate(Selected, p.selected)
  {
    var found := FindCandidate(p.candidates, p.selected);
    if found.None? {
      return Err(UnknownCandidate(Selected, p.selected));
    }
    var reason := IneligibilityReason(found.value);
    ReasonIffIneligible(found.value);
    if reason.Some? {
      return Err(IneligibleSelection(p.selected, reason.value));
    }
    return Ok(found.value);
  }

  method CheckGrafts(candidates: seq<CandidateResult>, grafts: seq<Graft>, onDisk: set<ArchivePath>)
    returns (r: Option<SettlementError>)
    requires UniqueIds(candidates)
    ensures r.None? <==> GraftsLive(candidates, grafts, onDisk)
    ensures r.Some? ==>
              || (r.value.ArchiveMissing? && r.value.path !in onDisk
                  && exists c, g :: c in candidates && g in grafts && c.id == g.source == r.value.id
                                    && c.worktreeArchive == r.value.path)
              || (r.value.UnknownCandidate? && r.value.field.GraftFrom? && !Named(candidates, r.value.id)
                  && exists g :: g in grafts && g.source == r.value.id)
  {
    for i := 0 to |grafts|
      invariant forall j :: 0 <= j < i ==> GraftLive(candidates, grafts[j], onDisk)
    {
      assert grafts[i] in grafts;
      var source := FindCandidate(candidates, grafts[i].source);
      if source.None? {
        return Some(UnknownCandidate(GraftFrom, grafts[i].source));
      }
      if source.value.worktreeArchive !in onDisk {
        return Some(ArchiveMissing(grafts[i].source, source.value.worktreeArchive));
      }
    }
    return None;
  }

  method CheckDissent(p: Parts, seen: set<Id>) returns (r: Option<SettlementError>)
    requires forall id :: id in seen <==> Named(p.candidates, id)
    ensures r.None? <==> DissentComplete(p)
    ensures r.Some? ==>
              || (r.value.UnknownCandidate? && r.value.field.DissentCandidate? && Recorded(p.dissent, r.value.id)
                  && !Named(p.candidates, r.value.id))
              || (r.value.PassingCandidateNotRecorded? && !Recorded(p.dissent, r.value.id) && r.value.id != p.selected
                  && exists c :: c in p.candidates && c.id == r.value.id && PassedAll(c))
  {
    var recorded: set<Id> := {};
    for i := 0 to |p.dissent|
      invariant forall j :: 0 <= j < i ==> Named(p.candidates, p.dissent[j].candidate)
      invariant forall id :: id in recorded <==> exists j :: 0 <= j < i && p.dissent[j].candidate == id
    {
      if p.dissent[i].candidate !in seen {
        return Some(UnknownCandidate(DissentCandidate, p.dissent[i].candidate));
      }
      recorded := recorded + {p.dissent[i].candidate};
    }
    for i := 0 to |p.candidates|
      invariant forall j :: 0 <= j < i && p.candidates[j].id != p.selected && PassedAll(p.candidates[j]) ==>
                  Recorded(p.dissent, p.candidates[j].id)
    {
      var c := p.candidates[i];
      if c.id != p.selected && PassedAll(c) && c.id !in recorded {
        assert c in p.candidates;
        return Some(PassingCandidateNotRecorded(c.id));
      }
    }
    return None;
  }

  // ----------------------------------------------------------- the constructor

  /** The candidate set can be compared at all. */
  ghost predicate Comparable(candidates: seq<CandidateResult>, cap: nat) {
    && 2 <= |candidates| <= cap && UniqueIds(candidates)
    && CompleteMatrix(candidates) && FatalAgreement(candidates)
  }

  /** The comparison selects an eligible winner and names the difference. */
  ghost predicate Decided(p: Parts, cap: nat) {
    Comparable(p.candidates, cap) && SelectsEligible(p.candidates, p.selected) && RationaleNamesDifference(p.rationale)
  }

  /** What an error says is so, and that every part of the contract before it holds. */
  ghost predicate Justified(e: SettlementError, p: Parts, cap: nat, onDisk: set<ArchivePath>) {
    match e
    case NoCandidates => p.candidates == []
    case SingleCandidate(id) => |p.candidates| == 1 && id == p.candidates[0].id
    case OverCap(count, limit) => |p.candidates| >= 2 && count == |p.candidates| > cap == limit
    case DuplicateCandidate(id) =>
      2 <= |p.candidates| <= cap &&
      exists i, j :: 0 <= i < j < |p.candidates| && p.candidates[i].id == p.candidates[j].id == id
    case NoChecks(id) =>
      2 <= |p.candidates| <= cap && UniqueIds(p.candidates) &&
      exists c :: c in p.candidates && c.id == id && c.checks == []
    case MissingCheck(id, check) =>
      2 <= |p.candidates| <= cap && UniqueIds(p.candidates) &&
      exists c :: c in p.candidates && c.id == id && LeastMissing(p.candidates, c, check)
    case FatalDisagreement(check) =>
      2 <= |p.candidates| <= cap && UniqueIds(p.candidates) && CompleteMatrix(p.candidates) &&
      Disagree(Cells(p.candidates), check)
    case IneligibleSelection(id, reason) =>
      Comparable(p.candidates, cap) && id == p.selected &&
      exists c :: c in p.candidates && c.id == id && !Eligible(c) && IneligibilityReason(c) == Some(reason)
    case RationaleTooShort(length) =>
      Comparable(p.candidates, cap) && SelectsEligible(p.candidates, p.selected)
      && length == Text.Utf8Length(Text.Trim(p.rationale)) && length < MIN_RATIONALE_BYTES
    case ArchiveMissing(id, path) =>
      Decided(p, cap) && path !in onDisk &&
      exists c, g :: c in p.candidates && g in p.grafts && c.id == g.source == id && c.worktreeArchive == path
    case PassingCandidateNotRecorded(id) =>
      Decided(p, cap) && GraftsLive(p.candidates, p.grafts, onDisk) && id != p.selected && !Recorded(p.dissent, id) &&
      exists c :: c in p.candidates && c.id == id && PassedAll(c)
    case UnknownCandidate(field, id) =>
      !Named(p.candidates, id) &&
      match field
      case Selected => Comparable(p.candidates, cap) && id == p.selected
      case GraftFrom => Decided(p, cap) && exists g :: g in p.grafts && g.source == id
      case DissentCandidate =>
        Decided(p, cap) && GraftsLive(p.candidates, p.grafts, onDisk) && Recorded(p.dissent, id)
  }

  /** The candidate set itself: size, ids, matrix and fatal flags. */
  method CheckCandidates(candidates: seq<CandidateResult>, cap: nat) returns (r: Result<set<Id>, SettlementError>)
    ensures r.Ok? <==> Comparable(candidates, cap)
    ensures r.Ok? ==> forall id :: id in r.value <==> Named(candidates, id)
    ensures r.Err? ==> forall p: Parts, onDisk :: p.candidates == candidates ==> Justified(r.error, p, cap, onDisk)
  {
    if candidates == [] {
      return Err(NoCandidates);
    }
    if |candidates| == 1 {
      return Err(SingleCandidate(candidates[0].id));
    }
    if |candidates| > cap {
      return Err(OverCap(|candidates|, cap));
    }
    var seen := CheckIds(candidates);
    if seen.Err? {
      return seen;
    }
    var matrix := CheckMatrix(candidates);
    if matrix.Some? {
      return Err(matrix.value);
    }
    var flags := CheckFatalFlags(candidates);
    if flags.Some? {
      return Err(flags.value);
    }
    return seen;
  }

  /** Succeeds exactly when the settlement contract holds; otherwise says which part fails first. */
  method NewWithCap(p: Parts, cap: nat, onDisk: set<ArchivePath>) returns (r: Result<SettlementRecord, SettlementError>)
    ensures r.Ok? <==> Settles(p, cap, onDisk)
    ensures r.Ok? ==> r.value.parts == p && r.value.winner in p.candidates && r.value.winner.id == p.selected
    ensures r.Err? ==> Justified(r.error, p, cap, onDisk)
  {
    var seen := CheckCandidates(p.candidates, cap);
    if seen.Err? {
      return Err(seen.error);
    }
    var winner := FindWinner(p);
    if winner.Err? {
      return Err(winner.error);
    }
    var length := Text.Utf8Length(Text.Trim(p.rationale));
    if length < MIN_RATIONALE_BYTES {
      return Err(RationaleTooShort(length));
    }
    var grafts := CheckGrafts(p.candidates, p.grafts, onDisk);
    if grafts.Some? {
      return Err(grafts.value);
    }
    var dissent := CheckDissent(p, seen.value);
    if dissent.Some? {
      return Err(dissent.value);
    }
    return Ok(SettlementRecord(p, winner.value));
  }

  // ------------------------------------------------------------ re-validation

  /** A record some run of the constructor gave. */
  ghost predicate Constructed(r: SettlementRecord, cap: nat, onDisk: set<ArchivePath>) {
    Settles(r.parts, cap, onDisk) && r.winner in r.parts.candidates && r.winner.id == r.parts.selected
  }

  lemma WinnerIsUnique(a: SettlementRecord, b: SettlementRecord)
    requires UniqueIds(a.parts.candidates) && a.parts == b.parts
    requires a.winner in a.parts.candidates && a.winner.id == a.parts.selected
    requires b.winner in b.parts.candidates && b.winner.id == b.parts.selected
    ensures a == b
  {
  }

  /** Reading a wire form back runs the same constructor, with the default cap. */
  method Deserialize(wire: Parts, onDisk: set<ArchivePath>) returns (r: Result<SettlementRecord, SettlementError>)
    ensures r.Ok? <==> Settles(wire, DEFAULT_CANDIDATE_CAP, onDisk)
    ensures r.Ok? ==> Constructed(r.value, DEFAULT_CANDIDATE_CAP, onDisk) && r.value.parts == wire
    ensures r.Err? ==> Justified(r.error, wire, DEFAULT_CANDIDATE_CAP, onDisk)
  {
    r := NewWithCap(wire, DEFAULT_CANDIDATE_CAP, onDisk);
  }

  /**
   * A record built under any cap re-validates exactly while its graft archives exist and it has
   * no more than eight candidates; what it re-validates to is itself.
   */
  lemma RevalidatesIff(record: SettlementRecord, cap: nat, built: set<ArchivePath>, now: set<ArchivePath>)
    requires Constructed(record, cap, built)
    ensures Settles(record.parts, DEFAULT_CANDIDATE_CAP, now)
            <==> |record.parts.candidates| <= DEFAULT_CANDIDATE_CAP
                 && GraftsLive(record.parts.candidates, record.parts.grafts, now)
    ensures forall again: SettlementRecord ::
              again.parts == record.parts && Constructed(again, DEFAULT_CANDIDATE_CAP, now) ==> again == record
  {
    forall again: SettlementRecord
      | again.parts == record.parts && Constructed(again, DEFAULT_CANDIDATE_CAP, now)
      ensures again == record
    {
      WinnerIsUnique(again, record);
    }
  }
}
