// The department handlers: lookups by department code, the statistics of a
// department with their all-zero default, and the maintenance of the agents
// list. A handler receives the result of `findOne` / `findById` (null when
// nothing matches) and the clock reading `now`.

module DepartmentController {
  import opened Wrappers
  import opened Aggregation
  import opened Complaints
  import opened Departments
  import opened Http
  import Users

  const DepartmentNotFound := NotFound("Department not found")
  const AgentNotFound := NotFound("Agent not found")
  const AlreadyAssigned := BadRequest("Agent already assigned to this department")

  /** `Department.findOne({ departmentId: id })`: a stored department with that code, or null. */
  function FindDepartment(docs: seq<DepartmentDocument>, id: string): (d: DepartmentDocument?)
    ensures d == null <==> forall i :: 0 <= i < |docs| ==> DepartmentCode(docs[i].departmentId) != id
    ensures d != null ==> d in docs && DepartmentCode(d.departmentId) == id
  {
    if docs == [] then null
    else if DepartmentCode(docs[0].departmentId) == id then docs[0]
    else FindDepartment(docs[1..], id)
  }

  /**
   * The lookup that opens `getDepartmentById`, `updateDepartment`,
   * `deleteDepartment`, `updateDepartmentMetrics` and `getDepartmentAgents`:
   * 404 exactly when no department has the code.
   */
  function DepartmentLookup(docs: seq<DepartmentDocument>, id: string): (o: Outcome)
    ensures o == DepartmentNotFound <==> forall i :: 0 <= i < |docs| ==> DepartmentCode(docs[i].departmentId) != id
    ensures o != DepartmentNotFound ==> o == Done && ParseDepartmentId(id).Some?
  {
    var d := FindDepartment(docs, id);
    if d == null then DepartmentNotFound else Done
  }

  // ---------------------------------------------------------------------------
  // getDepartmentStats

  datatype Stats = Stats(
    total: nat, pending: nat, inProgress: nat, resolved: nat, escalated: nat, critical: nat,
    /** `$avg` results: null (None) when no complaint has a value. */
    avgResolutionTime: Option<real>,
    avgSatisfactionRating: Option<real>)

  /** The literal that stands in when the aggregation returns no group. */
  const ZeroStats: Stats := Stats(0, 0, 0, 0, 0, 0, Some(0.0), Some(0.0))

  /** The `$match`: the stored department string equals the requested code. */
  function MatchesCode(id: string): Complaint -> bool {
    (c: Complaint) => DepartmentCode(c.department) == id
  }

  function StatsOf(group: seq<Complaint>): (s: Stats)
    requires group != []
    ensures s.total == |group| > 0
    ensures s.pending == CountStatus(group, Pending) && s.inProgress == CountStatus(group, InProgress)
    ensures s.resolved == CountStatus(group, Resolved) && s.escalated == CountStatus(group, Escalated)
    ensures s.critical == CountPriority(group, Critical)
    ensures s.pending + s.inProgress + s.resolved + s.escalated <= s.total
    ensures s.critical <= s.total
    ensures s.avgResolutionTime == Average(ResolutionDays(group))
    ensures s.avgSatisfactionRating == Average(Ratings(group))
  {
    StatusPartition(group);
    PriorityPartition(group);
    Stats(|group|, CountStatus(group, Pending), CountStatus(group, InProgress), CountStatus(group, Resolved),
          CountStatus(group, Escalated), CountPriority(group, Critical),
          Average(ResolutionDays(group)), Average(Ratings(group)))
  }

  /**
   * The statistics of department `id`: the all-zero record exactly when it
   * has no complaints, otherwise the statistics of the complaints stored
   * under the code (`closed`, `high`, `medium` and `low` are not reported).
   */
  function DepartmentStats(cs: seq<Complaint>, id: string): (s: Stats)
    ensures s == ZeroStats <==> forall i :: 0 <= i < |cs| ==> DepartmentCode(cs[i].department) != id
    ensures s != ZeroStats ==> s.total == Count(cs, MatchesCode(id))
    ensures s != ZeroStats ==> Where(cs, MatchesCode(id)) != [] && s == StatsOf(Where(cs, MatchesCode(id)))
    ensures s.pending + s.inProgress + s.resolved + s.escalated <= s.total
    ensures s.critical <= s.total
  {
    var group := Where(cs, MatchesCode(id));
    if group == [] then ZeroStats else StatsOf(group)
  }

  datatype StatsReport = StatsReport(department: Department, name: string, stats: Stats)

  /** `getDepartmentStats`: 404 for an unknown code, else the department's statistics. */
  function GetDepartmentStats(department: DepartmentDocument?, cs: seq<Complaint>, id: string)
    : (r: Result<StatsReport, Outcome>)
    requires department != null ==> DepartmentCode(department.departmentId) == id
    reads department
    ensures r.Err? <==> department == null
    ensures r.Err? ==> r.error == DepartmentNotFound
    ensures r.Ok? ==> r.value.department == department.departmentId && r.value.name == department.name
    ensures r.Ok? ==> r.value.stats == DepartmentStats(cs, id)
  {
    if department == null then Err(DepartmentNotFound)
    else Ok(StatsReport(department.departmentId, department.name, DepartmentStats(cs, id)))
  }

  /**
   * `getDepartmentStats` as written: after the 404 check the handler calls
   * `require`, which does not exist in an ES module; the ReferenceError
   * reaches the error middleware as a 500, so no statistics are ever sent.
   */
  function GetDepartmentStatsAsWritten(department: DepartmentDocument?, cs: seq<Complaint>, id: string)
    : (r: Result<StatsReport, Outcome>)
    requires department != null ==> DepartmentCode(department.departmentId) == id
    reads department
    ensures r.Err?
    ensures r.error == DepartmentNotFound <==> department == null
    ensures department != null ==> r.error == ServerError
  {
    if department == null then Err(DepartmentNotFound) else Err(ServerError)
  }

  /** For every existing department the handler as written fails where the corrected one reports the statistics. */
  lemma StatsNeverSentAsWritten(department: DepartmentDocument, cs: seq<Complaint>, id: string)
    requires DepartmentCode(department.departmentId) == id
    ensures GetDepartmentStatsAsWritten(department, cs, id) == Err(ServerError)
    ensures GetDepartmentStats(department, cs, id).Ok?
    ensures GetDepartmentStats(department, cs, id).value.stats == DepartmentStats(cs, id)
  {
  }

  // ---------------------------------------------------------------------------
  // Metrics and agents

  /** `updateDepartmentMetrics`: 404 for an unknown code, else `updateMetrics`. */
  method UpdateDepartmentMetrics(department: DepartmentDocument?, cs: seq<Complaint>, now: int)
    returns (o: Outcome, metrics: Option<Metrics>)
    modifies department
    ensures department == null ==> o == DepartmentNotFound && metrics == None
    ensures department != null ==> o == Done && metrics == Some(department.metrics)
    ensures department != null && ComplaintsOf(cs, department.departmentId) == [] ==> unchanged(department)
    ensures department != null && ComplaintsOf(cs, department.departmentId) != [] ==>
              department.metrics == MetricsOf(ComplaintsOf(cs, department.departmentId))
              && department.updatedAt == now && department.agents == old(department.agents)
  {
    if department == null {
      return DepartmentNotFound, None;
    }
    var m := department.UpdateMetrics(cs, now);
    return Done, Some(m);
  }

  /**
   * `assignAgentToDepartment`: the department is checked first, then the
   * agent, then whether the agent is already listed. On success the agent is
   * appended once and the agent's `department` is set to the department code.
   */
  method AssignAgentToDepartment(department: DepartmentDocument?, agent: Users.UserDocument?, agentId: UserId, now: int)
    returns (o: Outcome)
    requires agent != null ==> agent.key == agentId && !agent.isNew
    modifies department, agent
    ensures department == null ==> o == DepartmentNotFound && (agent != null ==> unchanged(agent))
    ensures department != null && agent == null ==> o == AgentNotFound && unchanged(department)
    ensures department != null && agent != null && agentId in old(department.agents) ==>
              o == AlreadyAssigned && unchanged(department) && unchanged(agent)
    ensures department != null && agent != null && agentId !in old(department.agents) ==>
              && o == Done
              && WithAgent(old(department.agents), agentId) == Some(department.agents)
              && department.updatedAt == now && department.metrics == old(department.metrics)
              && agent.department == Some(department.departmentId)
              && agent.Record() == old(agent.Record()).(updatedAt := now)
              && agent.assignedComplaints == old(agent.assignedComplaints)
  {
    if department == null {
      return DepartmentNotFound;
    }
    if agent == null {
      return AgentNotFound;
    }
    if agentId in department.agents {
      return AlreadyAssigned;
    }
    department.AddAgent(agentId, now);
    agent.SetDepartment(department.departmentId, now);
    return Done;
  }

  /**
   * `removeAgentFromDepartment`: 404 for an unknown code; otherwise every
   * occurrence of the agent is dropped (none is fine) and the rest kept.
   */
  method RemoveAgentFromDepartment(department: DepartmentDocument?, agentId: UserId, now: int)
    returns (o: Outcome)
    modifies department
    ensures department == null ==> o == DepartmentNotFound
    ensures department != null ==>
              o == Done && department.agents == WithoutAgent(old(department.agents), agentId)
              && department.updatedAt == now && department.metrics == old(department.metrics)
  {
    if department == null {
      return DepartmentNotFound;
    }
    department.RemoveAgent(agentId, now);
    return Done;
  }
}
