/** The terminal telemetry store: merging reports from one source, expiry, and what a run of publishes keeps. */
module Telemetry {
  import opened Common

  const SECOND: int := 1_000_000_000
  const STALE_AFTER: int := 10 * SECOND
  const PURGE_AFTER: int := 60 * SECOND

  datatype Agent = Agent(
    id: string,
    sessionId: Option<string>,
    currentTask: Option<string>,
    roleAssignment: Option<string>,
    roleCompatibility: Option<string>,
    governedTaskId: Option<string>,
    governedTaskRevision: Option<nat>)

  /** A report; `rest` is what the store only carries. */
  datatype Report = Report(sourceId: string, agents: seq<Agent>, rest: string)

  datatype Record = Record(report: Report, receivedAt: int)

  type Projects = map<string, map<string, Record>>

  // ------------------------------------------------------------------ merging

  function MaxRevision(a: Option<nat>, b: Option<nat>): Option<nat> {
    match (a, b)
    case (Some(x), Some(y)) => Some(if x >= y then x else y)
    case (Some(_), None) => a
    case (None, _) => b
  }

  /** The facts an incoming agent keeps from the same agent's previous report. */
  function MergeAgent(previous: Agent, incoming: Agent): Agent {
    if previous.sessionId != incoming.sessionId then incoming
    else
      var roles := incoming.roleAssignment.None? && incoming.roleCompatibility.None?;
      incoming.(
        currentTask := if incoming.currentTask.None? then previous.currentTask else incoming.currentTask,
        roleAssignment := if roles then previous.roleAssignment else incoming.roleAssignment,
        roleCompatibility := if roles then previous.roleCompatibility else incoming.roleCompatibility,
        governedTaskId := if incoming.governedTaskId.None? then previous.governedTaskId else incoming.governedTaskId,
        governedTaskRevision :=
          if incoming.governedTaskId.None? then previous.governedTaskRevision
          else if incoming.governedTaskId == previous.governedTaskId
          then MaxRevision(incoming.governedTaskRevision, previous.governedTaskRevision)
          else incoming.governedTaskRevision)
  }

  /** The last agent with this id. */
  function LastById(agents: seq<Agent>, id: string): Option<Agent> {
    if agents == [] then None
    else if agents[|agents| - 1].id == id then Some(agents[|agents| - 1])
    else LastById(agents[..|agents| - 1], id)
  }

  /** The agent found is the last one reported with the id. */
  lemma {:induction false} LastByIdIsLast(agents: seq<Agent>, id: string)
    ensures match LastById(agents, id)
            case Some(agent) =>
              exists i :: 0 <= i < |agents| && agents[i] == agent && agent.id == id
                          && forall j :: i < j < |agents| ==> agents[j].id != id
            case None => forall i :: 0 <= i < |agents| ==> agents[i].id != id
  {
    if agents != [] && agents[|agents| - 1].id != id {
      var shorter := agents[..|agents| - 1];
      LastByIdIsLast(shorter, id);
      if LastById(shorter, id).Some? {
        var i :| 0 <= i < |shorter| && shorter[i] == LastById(shorter, id).value
                 && forall j :: i < j < |shorter| ==> shorter[j].id != id;
        assert agents[i] == shorter[i] && forall j :: i < j < |shorter| ==> agents[j] == shorter[j];
      }
    }
  }

  function MergeOne(previous: seq<Agent>, incoming: Agent): Agent {
    if incoming.id == "" then incoming
    else
      match LastById(previous, incoming.id)
      case Some(before) => MergeAgent(before, incoming)
      case None => incoming
  }

  function Merged(previous: seq<Agent>, incoming: seq<Agent>): (r: seq<Agent>)
    ensures |r| == |incoming| && forall i :: 0 <= i < |r| ==> r[i] == MergeOne(previous, incoming[i])
  {
    seq(|incoming|, i requires 0 <= i < |incoming| => MergeOne(previous, incoming[i]))
  }

  /** Agents by id, the last of each id, those without an id left out. */
  method ById(agents: seq<Agent>) returns (byId: map<string, Agent>)
    ensures forall id :: id in byId <==> id != "" && LastById(agents, id).Some?
    ensures forall id :: id in byId ==> LastById(agents, id) == Some(byId[id])
  {
    byId := map[];
    for i := 0 to |agents|
      invariant forall id :: id in byId <==> id != "" && LastById(agents[..i], id).Some?
      invariant forall id :: id in byId ==> LastById(agents[..i], id) == Some(byId[id])
    {
      assert agents[..i + 1][..i] == agents[..i] && agents[..i + 1][i] == agents[i];
      if agents[i].id != "" {
        byId := byId[agents[i].id := agents[i]];
      }
    }
    assert agents[..|agents|] == agents;
  }

  method PreserveOmittedSameSourceAgentFacts(previous: Report, incoming: Report) returns (merged: Report)
    ensures merged == incoming.(agents := Merged(previous.agents, incoming.agents))
    ensures forall i :: 0 <= i < |incoming.agents| && incoming.agents[i].id == "" ==>
              merged.agents[i] == incoming.agents[i]
  {
    var byId := ById(previous.agents);
    var agents: seq<Agent> := [];
    for i := 0 to |incoming.agents|
      invariant agents == Merged(previous.agents, incoming.agents)[..i]
    {
      var agent := incoming.agents[i];
      if agent.id != "" && agent.id in byId && byId[agent.id].sessionId == agent.sessionId {
        agent := MergeAgent(byId[agent.id], agent);
      }
      agents := agents + [agent];
    }
    merged := incoming.(agents := agents);
  }

  // -------------------------------------------------------------------- expiry

  predicate Kept(record: Record, now: int) {
    now - record.receivedAt <= PURGE_AFTER
  }

  function Live(records: map<string, Record>, now: int): map<string, Record> {
    map s | s in records && Kept(records[s], now) :: records[s]
  }

  function Purged(projects: Projects, now: int): Projects {
    map p | p in projects && Live(projects[p], now) != map[] :: Live(projects[p], now)
  }

  function RecordsOf(projects: Projects, project: string): map<string, Record> {
    if project in projects then projects[project] else map[]
  }

  /** The record of one source of one project. */
  function Lookup(projects: Projects, project: string, source: string): Option<Record> {
    if source in RecordsOf(projects, project) then Some(RecordsOf(projects, project)[source]) else None
  }

  function Inserted(projects: Projects, project: string, report: Report, receivedAt: int): Projects {
    var records := RecordsOf(projects, project);
    var merged := match Lookup(projects, project, report.sourceId)
                  case Some(previous) => report.(agents := Merged(previous.report.agents, report.agents))
                  case None => report;
    projects[project := records[report.sourceId := Record(merged, receivedAt)]]
  }

  function Published(projects: Projects, project: string, report: Report, receivedAt: int, now: int): Projects {
    Purged(Inserted(projects, project, report, receivedAt), now)
  }

  /** No empty project, and no record past the purge bound. */
  ghost predicate Tidy(projects: Projects, now: int) {
    forall p :: p in projects ==> projects[p] != map[] && forall s :: s in projects[p] ==> Kept(projects[p][s], now)
  }

  lemma PurgeTidies(projects: Projects, now: int)
    ensures Tidy(Purged(projects, now), now)
    ensures forall p, s :: Lookup(Purged(projects, now), p, s)
                        == match Lookup(projects, p, s)
                           case Some(record) => if Kept(record, now) then Some(record) else None
                           case None => None
  {
    forall p, s
      ensures Lookup(Purged(projects, now), p, s)
           == match Lookup(projects, p, s)
              case Some(record) => if Kept(record, now) then Some(record) else None
              case None => None
    {
      if p in projects && s in projects[p] && Kept(projects[p][s], now) {
        assert s in Live(projects[p], now);
      }
    }
  }

  class TerminalOpsTelemetryStore {
    var projects: Projects

    constructor ()
      ensures projects == map[]
    {
      projects := map[];
    }

    method PurgeExpired(now: int)
      modifies this
      ensures projects == Purged(old(projects), now) && Tidy(projects, now)
    {
      PurgeTidies(projects, now);
      projects := map p | p in projects && Live(projects[p], now) != map[] :: Live(projects[p], now);
    }

    /** The clock is read twice: when the report is stored and again for the purge. */
    method Publish(project: string, report: Report, receivedAt: int, now: int)
      modifies this
      ensures projects == Published(old(projects), project, report, receivedAt, now)
      ensures Tidy(projects, now)
    {
      var records := if project in projects then projects[project] else map[];
      var stored := report;
      if report.sourceId in records {
        stored := PreserveOmittedSameSourceAgentFacts(records[report.sourceId].report, report);
      }
      projects := projects[project := records[report.sourceId := Record(stored, receivedAt)]];
      PurgeExpired(now);
    }

    /** The reports of a project's fresh records, in no particular order, each source once. */
    method FreshReports(project: string, now: int) returns (reports: seq<Report>, ghost sources: seq<string>)
      modifies this
      ensures projects == Purged(old(projects), now) && Tidy(projects, now)
      ensures |sources| == |reports| && forall i, j :: 0 <= i < j < |sources| ==> sources[i] != sources[j]
      ensures forall s :: s in sources <==>
                var r := Lookup(old(projects), project, s);
                r.Some? && now - r.value.receivedAt <= STALE_AFTER
      ensures forall i :: 0 <= i < |reports| ==>
                Lookup(old(projects), project, sources[i]).Some?
                && reports[i] == Lookup(old(projects), project, sources[i]).value.report
    {
      PurgeTidies(projects, now);
      PurgeExpired(now);
      reports, sources := [], [];
      var records := if project in projects then projects[project] else map[];
      var left := records.Keys;
      while left != {}
        invariant left <= records.Keys
        invariant |sources| == |reports| && forall i, j :: 0 <= i < j < |sources| ==> sources[i] != sources[j]
        invariant forall s :: s in sources <==>
                    s in records && s !in left && now - records[s].receivedAt <= STALE_AFTER
        invariant forall i :: 0 <= i < |reports| ==> sources[i] in records && reports[i] == records[sources[i]].report
        decreases left
      {
        var s :| s in left;
        left := left - {s};
        if now - records[s].receivedAt <= STALE_AFTER {
          reports, sources := reports + [records[s].report], sources + [s];
        }
      }
      assert forall s :: Lookup(projects, project, s) == if s in records then Some(records[s]) else None;
    }
  }

  // ---------------------------------------------------------------------- runs

  datatype Op =
    | Publish(project: string, report: Report, receivedAt: int, now: int)
    | Read(now: int)

  /** Every operation on a store, newest outermost. */
  datatype History = Start | Then(before: History, op: Op)

  function Store(h: History): Projects {
    match h
    case Start => map[]
    case Then(before, Publish(project, report, receivedAt, now)) =>
      Published(Store(before), project, report, receivedAt, now)
    case Then(before, Read(now)) => Purged(Store(before), now)
  }

  /** One agent of one source of one project. */
  datatype Key = Key(project: string, source: string, agent: string)

  function Stored(h: History, k: Key): Option<Agent> {
    match Lookup(Store(h), k.project, k.source)
    case Some(record) => LastById(record.report.agents, k.agent)
    case None => None
  }

  predicate Reports(op: Op, k: Key) {
    op.Publish? && op.project == k.project && op.report.sourceId == k.source
  }

  /** What the source said of the agent in this operation. */
  function Said(op: Op, k: Key): Option<Agent>
    requires Reports(op, k)
  {
    LastById(op.report.agents, k.agent)
  }

  /** Whether the source's record survives up to the latest operation. */
  predicate Remembered(h: History, k: Key) {
    Lookup(Store(h), k.project, k.source).Some?
  }

  /**
   * What the source has said of the agent, oldest first, since its record last appeared, the agent
   * was last left out, or its session last changed.
   */
  function Span(h: History, k: Key): seq<Agent> {
    if h.Start? then []
    else if !Reports(h.op, k) then Span(h.before, k)
    else
      match Said(h.op, k)
      case None => []
      case Some(said) => if GoesOn(h, k, said) then Span(h.before, k) + [said] else [said]
  }

  /** The session the agent was last seen in, in a record not forgotten since, is this one. */
  predicate GoesOn(h: History, k: Key, said: Agent)
    requires h.Then?
  {
    var before := Span(h.before, k);
    Remembered(h.before, k) && before != [] && before[0].sessionId == said.sessionId
  }

  // ------------------------------------------- the plain definitions over a span

  predicate IsLatestTask(span: seq<Agent>, task: Option<string>) {
    match task
    case None => forall i :: 0 <= i < |span| ==> span[i].currentTask.None?
    case Some(_) =>
      exists i :: 0 <= i < |span| && span[i].currentTask == task
                  && forall j :: i < j < |span| ==> span[j].currentTask.None?
  }

  /** The two role facts travel together. */
  predicate SaysRoles(agent: Agent) {
    agent.roleAssignment.Some? || agent.roleCompatibility.Some?
  }

  predicate AreLatestRoles(span: seq<Agent>, assignment: Option<string>, compatibility: Option<string>) {
    if assignment.None? && compatibility.None? then forall i :: 0 <= i < |span| ==> !SaysRoles(span[i])
    else
      exists i :: 0 <= i < |span| && span[i].roleAssignment == assignment && span[i].roleCompatibility == compatibility
                  && forall j :: i < j < |span| ==> !SaysRoles(span[j])
  }

  predicate IsLatestGovernedTask(span: seq<Agent>, id: Option<string>) {
    match id
    case None => forall i :: 0 <= i < |span| ==> span[i].governedTaskId.None?
    case Some(_) =>
      exists i :: 0 <= i < |span| && span[i].governedTaskId == id
                  && forall j :: i < j < |span| ==> span[j].governedTaskId.None?
  }

  /** The report names the task, and no later one names another. */
  predicate Counts(span: seq<Agent>, i: nat, id: Option<string>) {
    && i < |span| && span[i].governedTaskId == id
    && forall j :: i < j < |span| ==> span[j].governedTaskId in [None, id]
  }

  predicate NotLower(a: Option<nat>, b: Option<nat>) {
    a.Some? ==> b.Some? && a.value <= b.value
  }

  /** The highest revision reported with the task since another was named; without a task, the first. */
  ghost predicate IsHighestRevision(span: seq<Agent>, id: Option<string>, revision: Option<nat>)
    requires span != []
  {
    if id.None? then revision == span[0].governedTaskRevision
    else
      && (forall i: nat :: Counts(span, i, id) ==> NotLower(span[i].governedTaskRevision, revision))
      && (revision.Some? ==> exists i: nat :: Counts(span, i, id) && span[i].governedTaskRevision == revision)
  }

  /** An agent as the plain definitions over what was said say it is. */
  ghost predicate AsReported(span: seq<Agent>, agent: Agent) {
    && span != []
    && agent.id == span[0].id
    && (forall i :: 0 <= i < |span| ==> span[i].sessionId == agent.sessionId)
    && IsLatestTask(span, agent.currentTask)
    && AreLatestRoles(span, agent.roleAssignment, agent.roleCompatibility)
    && IsLatestGovernedTask(span, agent.governedTaskId)
    && IsHighestRevision(span, agent.governedTaskId, agent.governedTaskRevision)
  }

  lemma {:induction false} SaidAlone(said: Agent)
    ensures AsReported([said], said)
  {
    var span := [said];
    assert span[0] == said;
    assert Counts(span, 0, said.governedTaskId) && span[0].governedTaskRevision == said.governedTaskRevision;
  }

  lemma {:induction false} LatestTaskGoesOn(span: seq<Agent>, was: Agent, said: Agent)
    requires IsLatestTask(span, was.currentTask) && was.sessionId == said.sessionId
    ensures IsLatestTask(span + [said], MergeAgent(was, said).currentTask)
  {
    var longer := span + [said];
    assert longer[|span|] == said;
    if said.currentTask.None? && was.currentTask.Some? {
      var i :| 0 <= i < |span| && span[i].currentTask == was.currentTask
               && forall j :: i < j < |span| ==> span[j].currentTask.None?;
      assert longer[i] == span[i];
    }
  }

  lemma {:induction false} LatestRolesGoOn(span: seq<Agent>, was: Agent, said: Agent)
    requires AreLatestRoles(span, was.roleAssignment, was.roleCompatibility) && was.sessionId == said.sessionId
    ensures var now := MergeAgent(was, said);
            AreLatestRoles(span + [said], now.roleAssignment, now.roleCompatibility)
  {
    var longer := span + [said];
    assert longer[|span|] == said;
    if !SaysRoles(said) && SaysRoles(was) {
      var i :| 0 <= i < |span| && span[i].roleAssignment == was.roleAssignment
               && span[i].roleCompatibility == was.roleCompatibility
               && forall j :: i < j < |span| ==> !SaysRoles(span[j]);
      assert longer[i] == span[i];
    }
  }

  lemma {:induction false} LatestGovernedTaskGoesOn(span: seq<Agent>, was: Agent, said: Agent)
    requires IsLatestGovernedTask(span, was.governedTaskId) && was.sessionId == said.sessionId
    ensures IsLatestGovernedTask(span + [said], MergeAgent(was, said).governedTaskId)
  {
    var longer := span + [said];
    assert longer[|span|] == said;
    if said.governedTaskId.None? && was.governedTaskId.Some? {
      var i :| 0 <= i < |span| && span[i].governedTaskId == was.governedTaskId
               && forall j :: i < j < |span| ==> span[j].governedTaskId.None?;
      assert longer[i] == span[i];
    }
  }

  /** Which earlier reports still count once `said` is added. */
  lemma {:induction false} CountsGoesOn(span: seq<Agent>, said: Agent, id: Option<string>, i: nat)
    requires id.Some?
    ensures Counts(span + [said], i, id)
       <==> (i == |span| && said.governedTaskId == id)
            || (i < |span| && Counts(span, i, id) && said.governedTaskId in [None, id])
  {
    var longer := span + [said];
    assert longer[|span|] == said && forall j :: 0 <= j < |span| ==> longer[j] == span[j];
  }

  /** Once another task is named, nothing said before it counts. */
  lemma {:induction false} LatestCounts(span: seq<Agent>, id: Option<string>, other: Option<string>, i: nat)
    requires id.Some? && IsLatestGovernedTask(span, other) && other != id
    ensures !Counts(span, i, id)
  {
    if other.Some? {
      var k :| 0 <= k < |span| && span[k].governedTaskId == other
               && forall j :: k < j < |span| ==> span[j].governedTaskId.None?;
      assert k == i ==> span[i].governedTaskId != id;
    }
  }

  lemma {:induction false} HighestRevisionGoesOn(span: seq<Agent>, was: Agent, said: Agent)
    requires span != [] && IsLatestGovernedTask(span, was.governedTaskId) && was.sessionId == said.sessionId
    requires IsHighestRevision(span, was.governedTaskId, was.governedTaskRevision)
    ensures var now := MergeAgent(was, said);
            IsHighestRevision(span + [said], now.governedTaskId, now.governedTaskRevision)
  {
    var now, longer := MergeAgent(was, said), span + [said];
    var id := now.governedTaskId;
    assert longer[0] == span[0] && longer[|span|] == said;
    if id.Some? {
      forall i: nat
        ensures Counts(longer, i, id)
           <==> (i == |span| && said.governedTaskId == id)
                || (i < |span| && Counts(span, i, id) && said.governedTaskId in [None, id])
        ensures was.governedTaskId != id ==> !Counts(span, i, id)
      {
        CountsGoesOn(span, said, id, i);
        if was.governedTaskId != id {
          LatestCounts(span, id, was.governedTaskId, i);
        }
      }
      if now.governedTaskRevision.Some? && now.governedTaskRevision != said.governedTaskRevision {
        var i: nat :| Counts(span, i, id) && span[i].governedTaskRevision == was.governedTaskRevision;
        assert longer[i] == span[i] && Counts(longer, i, id);
      } else if now.governedTaskRevision.Some? && said.governedTaskId.Some? {
        assert Counts(longer, |span|, id);
      } else if now.governedTaskRevision.Some? {
        var i: nat :| Counts(span, i, id) && span[i].governedTaskRevision == was.governedTaskRevision;
        assert longer[i] == span[i] && Counts(longer, i, id);
      }
    }
  }

  /** Merging one more report of a session keeps the plain definitions. */
  lemma {:induction false} MergeIsReported(span: seq<Agent>, was: Agent, said: Agent)
    requires AsReported(span, was) && said.id == was.id && said.sessionId == was.sessionId
    ensures AsReported(span + [said], MergeAgent(was, said))
  {
    LatestTaskGoesOn(span, was, said);
    LatestRolesGoOn(span, was, said);
    LatestGovernedTaskGoesOn(span, was, said);
    HighestRevisionGoesOn(span, was, said);
    assert (span + [said])[0] == span[0];
  }

  lemma {:induction false} LastOfMerged(previous: seq<Agent>, incoming: seq<Agent>, id: string)
    requires id != ""
    ensures LastById(Merged(previous, incoming), id)
         == match LastById(incoming, id)
            case Some(agent) => Some(MergeOne(previous, agent))
            case None => None
  {
    if incoming != [] {
      var shorter := incoming[..|incoming| - 1];
      LastOfMerged(previous, shorter, id);
      assert Merged(previous, incoming)[..|incoming| - 1] == Merged(previous, shorter);
    }
  }

  /** What one operation makes of a stored agent. */
  lemma StoredStep(h: History, k: Key)
    requires h.Then? && k.agent != "" && Remembered(h, k)
    ensures Stored(h, k)
         == if !Reports(h.op, k) then Stored(h.before, k)
            else
              match (Said(h.op, k), Stored(h.before, k))
              case (Some(agent), Some(previous)) => Some(MergeAgent(previous, agent))
              case (said, _) => said
    ensures !Reports(h.op, k) ==> Remembered(h.before, k)
  {
    var before := Store(h.before);
    match h.op
    case Read(now) => PurgeTidies(before, now);
    case Publish(project, report, receivedAt, now) =>
      PurgeTidies(Inserted(before, project, report, receivedAt), now);
      if Reports(h.op, k) {
        LastByIdIsLast(report.agents, k.agent);
        var previous := Lookup(before, k.project, k.source);
        if previous.Some? {
          LastOfMerged(previous.value.report.agents, report.agents, k.agent);
        }
      }
  }

  /** What is stored of an agent is as the plain definitions say, and nothing is stored if nothing was said. */
  ghost predicate StoredAsReported(h: History, k: Key) {
    match Stored(h, k)
    case Some(agent) => agent.id == k.agent && AsReported(Span(h, k), agent)
    case None => Span(h, k) == []
  }

  lemma {:induction false} StoredAsReportedStep(h: History, k: Key)
    requires h.Then? && k.agent != "" && Remembered(h, k)
    requires Remembered(h.before, k) ==> StoredAsReported(h.before, k)
    ensures StoredAsReported(h, k)
  {
    StoredStep(h, k);
    if Reports(h.op, k) && Said(h.op, k).Some? {
      var said := Said(h.op, k).value;
      LastByIdIsLast(h.op.report.agents, k.agent);
      SaidAlone(said);
      if Stored(h.before, k).Some? && GoesOn(h, k, said) {
        MergeIsReported(Span(h.before, k), Stored(h.before, k).value, said);
      }
    }
  }

  /**
   * For every run of operations: while the record of a source is remembered, the agent stored is
   * as the reports of its session say, however many of them omitted a fact: the latest current
   * task, roles and governed task reported, and the highest revision reported with that task
   * since another one was named.
   */
  lemma {:induction false} StoredIsAsReported(h: History, k: Key)
    requires k.agent != "" && Remembered(h, k)
    ensures StoredAsReported(h, k)
  {
    if h.Then? {
      if Remembered(h.before, k) {
        StoredIsAsReported(h.before, k);
      }
      StoredAsReportedStep(h, k);
    }
  }

  /**
   * So within a session no operation loses a known task or lowers the revision stored with it;
   * a report that names another task is taken at its word, and one from another session, or after
   * the agent was left out, in every field.
   */
  lemma {:induction false} StepsNeverLose(h: History, k: Key)
    requires h.Then? && k.agent != "" && Remembered(h, k) && Stored(h, k).Some?
    ensures var before, now := Stored(h.before, k), Stored(h, k).value;
            && (before.Some? && before.value.sessionId == now.sessionId ==>
                  var was := before.value;
                  && (was.currentTask.Some? ==> now.currentTask.Some?)
                  && (was.governedTaskId.Some? ==> now.governedTaskId.Some?)
                  && (was.governedTaskId.Some? && now.governedTaskId == was.governedTaskId ==>
                        NotLower(was.governedTaskRevision, now.governedTaskRevision))
                  && (now.governedTaskId != was.governedTaskId ==>
                        Reports(h.op, k) && Said(h.op, k).Some?
                        && now.governedTaskId == Said(h.op, k).value.governedTaskId
                        && now.governedTaskRevision == Said(h.op, k).value.governedTaskRevision))
            && (before.None? || before.value.sessionId != now.sessionId ==>
                  Reports(h.op, k) && Said(h.op, k) == Some(now))
  {
    StoredStep(h, k);
  }

  /** A merge fills in facts of agents; which agents there are, in which sessions, is what was reported. */
  ghost predicate SameReport(stored: Report, said: Report) {
    && stored.sourceId == said.sourceId && stored.rest == said.rest && |stored.agents| == |said.agents|
    && forall i :: 0 <= i < |said.agents| ==>
         stored.agents[i].id == said.agents[i].id && stored.agents[i].sessionId == said.agents[i].sessionId
  }

  /** A published record stands under its source with the time it was received, unless it is over age already. */
  lemma {:induction false} PublishedStands(h: History)
    requires h.Then? && h.op.Publish?
    ensures match Lookup(Store(h), h.op.project, h.op.report.sourceId)
            case Some(record) => record.receivedAt == h.op.receivedAt && SameReport(record.report, h.op.report)
            case None => h.op.now - h.op.receivedAt > PURGE_AFTER
  {
    PurgeTidies(Inserted(Store(h.before), h.op.project, h.op.report, h.op.receivedAt), h.op.now);
  }

  /** After any operation no project is empty and no record is older than the purge bound. */
  lemma StoreIsTidy(h: History)
    requires h.Then?
    ensures Tidy(Store(h), h.op.now)
  {
    match h.op
    case Publish(project, report, receivedAt, now) =>
      PurgeTidies(Inserted(Store(h.before), project, report, receivedAt), now);
    case Read(now) => PurgeTidies(Store(h.before), now);
  }

  /** A record is only lost by age: nobody else's report touches it. */
  lemma OthersAreUntouched(h: History, project: string, source: string)
    requires h.Then? && Lookup(Store(h.before), project, source).Some?
    requires h.op.Publish? ==> h.op.project != project || h.op.report.sourceId != source
    ensures var record := Lookup(Store(h.before), project, source).value;
            Lookup(Store(h), project, source) == if Kept(record, h.op.now) then Some(record) else None
  {
    match h.op
    case Publish(_, report, receivedAt, now) =>
      PurgeTidies(Inserted(Store(h.before), h.op.project, report, receivedAt), now);
    case Read(now) => PurgeTidies(Store(h.before), now);
  }
}
