// The `Department` model: the department-code enumeration, the settings
// defaults and `updateMetrics`, which refreshes the stored metrics from the
// complaints of the department.

module Departments {
  import opened Wrappers
  import opened Aggregation
  import opened Complaints

  /** The `departmentId` enumeration: an exact match, no case conversion. */
  function ParseDepartmentId(s: string): (r: Option<Department>)
    ensures forall d :: r == Some(d) <==> s == DepartmentCode(d)
  {
    if s == "ORM" then Some(ORM)
    else if s == "RRM" then Some(RRM)
    else if s == "CRM" then Some(CRM)
    else if s == "IT" then Some(IT)
    else if s == "PROJECT" then Some(PROJECT)
    else None
  }

  datatype WorkingHours = WorkingHours(start: string, end: string)

  datatype Settings = Settings(
    autoAssignment: bool,
    maxComplaintsPerAgent: int,
    workingHours: WorkingHours,
    workingDays: seq<string>)

  const DefaultSettings: Settings :=
    Settings(true, 20, WorkingHours("09:00", "18:00"), ["Monday", "Tuesday", "Wednesday", "Thursday", "Friday"])

  datatype Metrics = Metrics(
    totalComplaints: nat,
    resolvedComplaints: nat,
    avgResolutionTime: real,
    satisfactionScore: real)

  const ZeroMetrics: Metrics := Metrics(0, 0, 0.0, 0.0)

  /** The complaints of department `d`: the `$match` of the aggregation. */
  function ComplaintsOf(cs: seq<Complaint>, d: Department): seq<Complaint> {
    Where(cs, HasDepartment(d))
  }

  /**
   * The `$group` of `updateMetrics` with the `|| 0` fallbacks: the number of
   * complaints, the resolved ones, the mean days to resolution over the
   * complaints that have a resolution time (whatever their status) and the
   * mean of the ratings given.
   */
  function MetricsOf(group: seq<Complaint>): (m: Metrics)
    ensures m.totalComplaints == |group|
    ensures m.resolvedComplaints == CountStatus(group, Resolved) <= m.totalComplaints
    ensures m.avgResolutionTime == AverageOrZero(ResolutionDays(group))
    ensures m.satisfactionScore == AverageOrZero(Ratings(group))
  {
    StatusPartition(group);
    Metrics(|group|, CountStatus(group, Resolved), AverageOrZero(ResolutionDays(group)), AverageOrZero(Ratings(group)))
  }

  /** Every rating present is between 1 and 5 in a well-formed corpus. */
  predicate RatingsValid(group: seq<Complaint>) {
    forall i :: 0 <= i < |group| && group[i].resolution.satisfactionRating.Some? ==>
      ValidRating(group[i].resolution.satisfactionRating.value)
  }

  lemma {:induction false} RatingsInRange(group: seq<Complaint>)
    requires RatingsValid(group)
    ensures forall i :: 0 <= i < |Ratings(group)| ==> 1.0 <= Ratings(group)[i] <= 5.0
  {
    if group != [] {
      assert RatingsValid(group[1..]) by {
        forall i | 0 <= i < |group[1..]| && group[1..][i].resolution.satisfactionRating.Some?
          ensures ValidRating(group[1..][i].resolution.satisfactionRating.value)
        {
          assert group[1..][i] == group[i + 1];
        }
      }
      RatingsInRange(group[1..]);
    }
  }

  /** The satisfaction score is 0 (no ratings) or lies between 1 and 5. */
  lemma SatisfactionScoreRange(group: seq<Complaint>)
    requires RatingsValid(group)
    ensures var s := MetricsOf(group).satisfactionScore;
            s == 0.0 || 1.0 <= s <= 5.0
  {
    var rs := Ratings(group);
    if rs != [] {
      RatingsInRange(group);
      AverageBetweenExtremes(rs);
      var lo :| 0 <= lo < |rs| && rs[lo] == Min(rs);
      var hi :| 0 <= hi < |rs| && rs[hi] == Max(rs);
    }
  }

  // ---------------------------------------------------------------------------
  // The agents list

  predicate NoDuplicates(ids: seq<UserId>) {
    forall i, j :: 0 <= i < j < |ids| ==> ids[i] != ids[j]
  }

  /**
   * The assignment check and push: an agent already listed is refused,
   * any other is appended once, so a list without duplicates keeps none.
   */
  function WithAgent(agents: seq<UserId>, id: UserId): (r: Option<seq<UserId>>)
    ensures r.None? <==> id in agents
    ensures r.Some? ==> r.value == agents + [id] && id in r.value
    ensures r.Some? && NoDuplicates(agents) ==> NoDuplicates(r.value)
  {
    if id in agents then None else Some(agents + [id])
  }

  /** `agents.filter(a => a !== id)`: every occurrence removed, the others kept in order. */
  function WithoutAgent(agents: seq<UserId>, id: UserId): (r: seq<UserId>)
    ensures id !in r
    ensures forall x :: x in r <==> x in agents && x != id
    ensures |r| <= |agents|
  {
    Where(agents, (x: UserId) => x != id)
  }

  /** Removing an agent that is not listed leaves the list as it is. */
  lemma {:induction false} WithoutAbsentAgent(agents: seq<UserId>, id: UserId)
    requires id !in agents
    ensures WithoutAgent(agents, id) == agents
  {
    if agents != [] {
      WithoutAbsentAgent(agents[1..], id);
      assert agents == [agents[0]] + agents[1..];
    }
  }

  /** Removal works element by element: the kept agents stay in their order. */
  lemma {:induction false} WithoutAgentAppend(a: seq<UserId>, b: seq<UserId>, id: UserId)
    ensures WithoutAgent(a + b, id) == WithoutAgent(a, id) + WithoutAgent(b, id)
  {
    if a != [] {
      assert (a + b)[1..] == a[1..] + b;
      WithoutAgentAppend(a[1..], b, id);
    } else {
      assert a + b == b;
    }
  }

  /** Removing an agent just added undoes the addition when it was not listed before. */
  lemma WithoutUndoesWith(agents: seq<UserId>, id: UserId)
    requires id !in agents
    ensures WithAgent(agents, id).Some? && WithoutAgent(WithAgent(agents, id).value, id) == agents
  {
    WithoutAgentAppend(agents, [id], id);
    WithoutAbsentAgent(agents, id);
    assert WithoutAgent([id], id) == [];
  }

  class DepartmentDocument {
    const departmentId: Department
    var name: string
    var fullName: string
    var agents: seq<UserId>
    var settings: Settings
    var metrics: Metrics
    var updatedAt: int

    /** `Department.create({departmentId, name, fullName})` with the schema's defaults. */
    constructor (departmentId: Department, name: string, fullName: string, now: int)
      ensures this.departmentId == departmentId && this.name == name && this.fullName == fullName
      ensures agents == [] && settings == DefaultSettings && metrics == ZeroMetrics && updatedAt == now
    {
      this.departmentId := departmentId;
      this.name := name;
      this.fullName := fullName;
      agents := [];
      settings := DefaultSettings;
      metrics := ZeroMetrics;
      updatedAt := now;
    }

    /** `agents.push(id)` followed by a save. */
    method AddAgent(id: UserId, now: int)
      requires id !in agents
      modifies this`agents, this`updatedAt
      ensures WithAgent(old(agents), id) == Some(agents) && updatedAt == now
    {
      agents := agents + [id];
      updatedAt := now;
    }

    /** `agents = agents.filter(...)` followed by a save. */
    method RemoveAgent(id: UserId, now: int)
      modifies this`agents, this`updatedAt
      ensures agents == WithoutAgent(old(agents), id) && updatedAt == now
    {
      agents := WithoutAgent(agents, id);
      updatedAt := now;
    }

    /**
     * `updateMetrics` over the stored complaints `cs`: without complaints in
     * the department nothing is written or saved; otherwise the four metrics
     * are overwritten and the document saved. Either way the (new) metrics
     * are returned.
     */
    method UpdateMetrics(cs: seq<Complaint>, now: int) returns (m: Metrics)
      modifies this`metrics, this`updatedAt
      ensures ComplaintsOf(cs, departmentId) == [] ==> metrics == old(metrics) && updatedAt == old(updatedAt)
      ensures ComplaintsOf(cs, departmentId) != [] ==>
                metrics == MetricsOf(ComplaintsOf(cs, departmentId)) && updatedAt == now
      ensures m == metrics
    {
      var group := ComplaintsOf(cs, departmentId);
      if |group| > 0 {
        metrics := MetricsOf(group);
        updatedAt := now;
      }
      m := metrics;
    }
  }
}
