/**
 * The analytics endpoints (backend/controllers/analyticsController.js): each
 * aggregation pipeline becomes a fold over the stored complaints, and the
 * trend pivot a loop over the pipeline's groups.
 */
module Analytics {
  import opened Wrappers
  import opened Aggregation
  import opened Complaints
  import opened Text

  const AllStatuses: seq<Status> := [Pending, InProgress, Resolved, Escalated, Closed]
  const AllPriorities: seq<Priority> := [Critical, High, Medium, Low]

  lemma AllCategoriesListed(k: Category)
    ensures k in AllCategories
  {
  }

  lemma AllStatusesListed(s: Status)
    ensures s in AllStatuses
  {
  }

  lemma AllPrioritiesListed(p: Priority)
    ensures p in AllPriorities
  {
  }

  /** Some complaint of `cs` belongs to department `d`. */
  predicate DepartmentOccurs(cs: seq<Complaint>, d: Department) {
    exists i :: 0 <= i < |cs| && cs[i].department == d
  }

  /** Some complaint of `cs` has category `k`. */
  predicate CategoryOccurs(cs: seq<Complaint>, k: Category) {
    exists i :: 0 <= i < |cs| && cs[i].category == k
  }

  /** A department has complaints in `cs` exactly when its count is positive. */
  lemma DepartmentPresent(cs: seq<Complaint>, d: Department)
    ensures Count(cs, HasDepartment(d)) > 0 <==> DepartmentOccurs(cs, d)
  {
  }

  /** A department occurs among the complaints a filter keeps exactly when one of its complaints passes. */
  lemma DepartmentFiltered(cs: seq<Complaint>, f: Complaint -> bool, d: Department)
    ensures DepartmentOccurs(Where(cs, f), d) <==> exists i :: 0 <= i < |cs| && cs[i].department == d && f(cs[i])
  {
    DepartmentGroupNonEmpty(cs, f, d);
    DepartmentPresent(Where(cs, f), d);
  }

  // ---------------------------------------------------------------------------
  // Dashboard overview

  datatype StatusBreakdown = StatusBreakdown(total: nat, resolved: nat, pending: nat, escalated: nat)

  /** The `$group` of the department breakdown: total and three status counts. */
  function Breakdown(group: seq<Complaint>): (b: StatusBreakdown)
    ensures b.total == |group|
    ensures b.resolved == CountStatus(group, Resolved) && b.pending == CountStatus(group, Pending)
    ensures b.escalated == CountStatus(group, Escalated)
    ensures b.resolved + b.pending + b.escalated <= b.total
  {
    StatusPartition(group);
    StatusBreakdown(|group|, CountStatus(group, Resolved), CountStatus(group, Pending), CountStatus(group, Escalated))
  }

  /** One breakdown per department that has complaints in `cs`. */
  function DepartmentBreakdowns(cs: seq<Complaint>): (m: map<Department, StatusBreakdown>)
    ensures forall d :: d in m <==> DepartmentOccurs(cs, d)
    ensures forall d | d in m :: m[d].total == Count(cs, HasDepartment(d)) > 0
    ensures forall d | d in m :: m[d] == Breakdown(Where(cs, HasDepartment(d)))
  {
    assert forall d :: Count(cs, HasDepartment(d)) > 0 <==> DepartmentOccurs(cs, d) by {
      forall d ensures Count(cs, HasDepartment(d)) > 0 <==> DepartmentOccurs(cs, d) {
        DepartmentPresent(cs, d);
      }
    }
    assert forall d :: d in AllDepartments by {
      forall d: Department ensures d in AllDepartments { AllDepartmentsListed(d); }
    }
    map d | d in AllDepartments && Count(cs, HasDepartment(d)) > 0 :: Breakdown(Where(cs, HasDepartment(d)))
  }

  function InRange(startDate: Option<int>, endDate: Option<int>): Complaint -> bool {
    (c: Complaint) => InDateRange(c, startDate, endDate)
  }

  /** Days from creation to resolution of the resolved complaints that have a resolution time. */
  function ResolvedDays(cs: seq<Complaint>): seq<real> {
    ResolutionDays(Where(cs, HasStatus(Resolved)))
  }

  /** One day count per complaint that passes the `$match` of the average: resolved, with a resolution time. */
  lemma ResolvedDaysCounted(cs: seq<Complaint>)
    ensures |ResolvedDays(cs)| == Count(cs, ResolvedWithTime())
  {
    CountWhere(cs, HasStatus(Resolved), (c: Complaint) => c.resolution.resolvedAt.Some?, ResolvedWithTime());
  }

  /** The average of `ResolvedDays`, 0 when there is none. */
  function MeanResolvedDays(cs: seq<Complaint>): (r: real)
    ensures cs == [] ==> r == 0.0
    ensures ResolvedDays(cs) == [] ==> r == 0.0
    ensures ResolvedDays(cs) != [] ==> r == Average(ResolvedDays(cs)).value
  {
    AverageOrZero(ResolvedDays(cs))
  }

  datatype Overview = Overview(
    counts: StatusBreakdown,
    resolutionRate: real,
    avgResolutionTime: real,
    departmentStats: map<Department, StatusBreakdown>)

  /** The figures of the overview over the complaints that passed the date filter. */
  function OverviewOf(matched: seq<Complaint>): (o: Overview)
    ensures o.counts.total == |matched|
    ensures o.counts.resolved == CountStatus(matched, Resolved) && o.counts.pending == CountStatus(matched, Pending)
    ensures o.counts.escalated == CountStatus(matched, Escalated)
    ensures o.counts.resolved + o.counts.pending + o.counts.escalated <= o.counts.total
    ensures o.avgResolutionTime == MeanResolvedDays(matched)
    ensures 0.0 <= o.resolutionRate <= 100.0
    ensures o.counts.total == 0 ==> o.resolutionRate == 0.0 && o.avgResolutionTime == 0.0 && o.departmentStats == map[]
    ensures o.resolutionRate == Percent(o.counts.resolved, o.counts.total)
    ensures forall d :: d in o.departmentStats <==> DepartmentOccurs(matched, d)
    ensures forall d | d in o.departmentStats :: o.departmentStats[d] == Breakdown(Where(matched, HasDepartment(d)))
  {
    var counts := Breakdown(matched);
    Overview(counts, Percent(counts.resolved, counts.total), MeanResolvedDays(matched), DepartmentBreakdowns(matched))
  }

  /**
   * `getDashboardOverview`: the date filter applies only when both dates are
   * given; the resolution rate is a percentage of the filtered total (0 when
   * there is none) and the average resolution time is 0 when no filtered
   * complaint is resolved with a resolution time.
   */
  function DashboardOverview(cs: seq<Complaint>, startDate: Option<int>, endDate: Option<int>): (o: Overview)
    ensures o.counts.total == Count(cs, InRange(startDate, endDate))
    ensures startDate.None? || endDate.None? ==> o.counts.total == |cs|
    ensures o.counts.resolved + o.counts.pending + o.counts.escalated <= o.counts.total
    ensures 0.0 <= o.resolutionRate <= 100.0
    ensures o.counts.total == 0 ==> o.resolutionRate == 0.0 && o.avgResolutionTime == 0.0 && o.departmentStats == map[]
    ensures o.resolutionRate == Percent(o.counts.resolved, o.counts.total)
    ensures forall d :: d in o.departmentStats <==> DepartmentOccurs(Where(cs, InRange(startDate, endDate)), d)
    ensures o == OverviewOf(Where(cs, InRange(startDate, endDate)))
  {
    assert startDate.None? || endDate.None? ==> Count(cs, InRange(startDate, endDate)) == |cs| by {
      if startDate.None? || endDate.None? {
        CountAll(cs, InRange(startDate, endDate));
      }
    }
    OverviewOf(Where(cs, InRange(startDate, endDate)))
  }

  // ---------------------------------------------------------------------------
  // Department analytics

  datatype DepartmentFigures = DepartmentFigures(
    total: nat, resolved: nat, pending: nat, escalated: nat, critical: nat, high: nat,
    /** `$avg` over the complaints that have a resolution time; null when none has. */
    avgResolutionTime: Option<real>)

  /** A row of `getDepartmentAnalytics`: `...stats[0]` adds nothing for a department without complaints. */
  datatype DepartmentRow = DepartmentRow(department: Department, figures: Option<DepartmentFigures>)

  function FiguresOf(group: seq<Complaint>): (f: DepartmentFigures)
    ensures f.total == |group|
    ensures f.resolved == CountStatus(group, Resolved) && f.pending == CountStatus(group, Pending)
    ensures f.escalated == CountStatus(group, Escalated)
    ensures f.critical == CountPriority(group, Critical) && f.high == CountPriority(group, High)
    ensures f.resolved + f.pending + f.escalated <= f.total && f.critical + f.high <= f.total
    ensures f.avgResolutionTime == Average(ResolutionDays(group))
  {
    StatusPartition(group);
    PriorityPartition(group);
    DepartmentFigures(
      |group|, CountStatus(group, Resolved), CountStatus(group, Pending), CountStatus(group, Escalated),
      CountPriority(group, Critical), CountPriority(group, High), Average(ResolutionDays(group)))
  }

  function RowOf(cs: seq<Complaint>, d: Department): (row: DepartmentRow)
    ensures row.department == d
    ensures row.figures.None? <==> forall i :: 0 <= i < |cs| ==> cs[i].department != d
    ensures row.figures.Some? ==> row.figures.value.total == Count(cs, HasDepartment(d))
    ensures row.figures.Some? ==> row.figures.value == FiguresOf(Where(cs, HasDepartment(d)))
  {
    var group := Where(cs, HasDepartment(d));
    DepartmentRow(d, if group == [] then None else Some(FiguresOf(group)))
  }

  /** `getDepartmentAnalytics`: exactly five rows in the fixed department order. */
  function DepartmentAnalytics(cs: seq<Complaint>): (rows: seq<DepartmentRow>)
    ensures |rows| == |AllDepartments|
    ensures forall i :: 0 <= i < |rows| ==> rows[i].department == AllDepartments[i]
    ensures forall i :: 0 <= i < |rows| ==>
              (rows[i].figures.None? <==> forall j :: 0 <= j < |cs| ==> cs[j].department != AllDepartments[i])
    ensures forall i | 0 <= i < |rows| && rows[i].figures.Some? ::
              var f := rows[i].figures.value;
              f.total == Count(cs, HasDepartment(AllDepartments[i])) > 0
              && f.resolved + f.pending + f.escalated <= f.total && f.critical + f.high <= f.total
    ensures forall i | 0 <= i < |rows| && rows[i].figures.Some? ::
              rows[i].figures.value == FiguresOf(Where(cs, HasDepartment(AllDepartments[i])))
  {
    seq(|AllDepartments|, i requires 0 <= i < |AllDepartments| => RowOf(cs, AllDepartments[i]))
  }

  // ---------------------------------------------------------------------------
  // Category and priority distributions

  datatype CategoryCount = CategoryCount(name: Category, value: nat)

  function CategoryValue(g: CategoryCount): real { g.value as real }

  /** Every category with its count, in enumeration order. */
  function CategoryTable(cs: seq<Complaint>): (all: seq<CategoryCount>)
    ensures forall g :: g in all <==> g.value == Count(cs, HasCategory(g.name))
    ensures DistinctBy(all, (g: CategoryCount) => g.name)
  {
    var all := [Tally(cs, ServiceQuality), Tally(cs, TechnicalIssues), Tally(cs, Billing),
                Tally(cs, Delivery), Tally(cs, Communication), Tally(cs, Other)];
    TallyMembers(cs, all);
    TalliesDistinct(cs, all);
    all
  }

  function Tally(cs: seq<Complaint>, k: Category): CategoryCount {
    CategoryCount(k, Count(cs, HasCategory(k)))
  }

  lemma TallyMembers(cs: seq<Complaint>, all: seq<CategoryCount>)
    requires all == [Tally(cs, ServiceQuality), Tally(cs, TechnicalIssues), Tally(cs, Billing),
                     Tally(cs, Delivery), Tally(cs, Communication), Tally(cs, Other)]
    ensures forall g :: g in all <==> g.value == Count(cs, HasCategory(g.name))
  {
    forall g: CategoryCount | g.value == Count(cs, HasCategory(g.name)) ensures g in all {
      var i := match g.name
        case ServiceQuality => 0 case TechnicalIssues => 1 case Billing => 2
        case Delivery => 3 case Communication => 4 case Other => 5;
      assert all[i] == Tally(cs, g.name) == g;
    }
  }

  lemma TalliesDistinct(cs: seq<Complaint>, all: seq<CategoryCount>)
    requires all == [Tally(cs, ServiceQuality), Tally(cs, TechnicalIssues), Tally(cs, Billing),
                     Tally(cs, Delivery), Tally(cs, Communication), Tally(cs, Other)]
    ensures DistinctBy(all, (g: CategoryCount) => g.name)
  {
    forall i, j | 0 <= i < j < |all| ensures all[i].name != all[j].name {
      CategoryIndexDistinct(i, j);
    }
  }

  lemma CategoryIndexDistinct(i: nat, j: nat)
    requires i < j < |AllCategories|
    ensures AllCategories[i] != AllCategories[j]
  {
  }

  /** The `$group` by category: one entry per category present, in enumeration order. */
  function CategoryGroups(cs: seq<Complaint>): (gs: seq<CategoryCount>)
    ensures forall g :: g in gs <==> g.value > 0 && g.value == Count(cs, HasCategory(g.name))
    ensures forall i, j :: 0 <= i < j < |gs| ==> gs[i].name != gs[j].name
  {
    var all := CategoryTable(cs);
    WhereDistinct(all, (g: CategoryCount) => g.value > 0, (g: CategoryCount) => g.name);
    Where(all, (g: CategoryCount) => g.value > 0)
  }

  /**
   * `getCategoryDistribution`: the categories present with their counts,
   * sorted by count, largest first.
   */
  function CategoryDistribution(cs: seq<Complaint>): (r: seq<CategoryCount>)
    ensures SortedDesc(r, CategoryValue)
    ensures forall i :: 0 <= i < |r| ==> r[i].value == Count(cs, HasCategory(r[i].name)) > 0
    ensures forall k :: CategoryListed(r, k) <==> CategoryOccurs(cs, k)
    ensures forall i, j :: 0 <= i < j < |r| ==> r[i].name != r[j].name
  {
    var groups := CategoryGroups(cs);
    var r := SortDesc(groups, CategoryValue);
    SortedCategories(cs, groups, r);
    r
  }

  lemma SortedCategories(cs: seq<Complaint>, groups: seq<CategoryCount>, r: seq<CategoryCount>)
    requires groups == CategoryGroups(cs) && r == SortDesc(groups, CategoryValue)
    ensures SortedDesc(r, CategoryValue)
    ensures forall i :: 0 <= i < |r| ==> r[i].value == Count(cs, HasCategory(r[i].name)) > 0
    ensures forall k :: CategoryListed(r, k) <==> CategoryOccurs(cs, k)
    ensures forall i, j :: 0 <= i < j < |r| ==> r[i].name != r[j].name
  {
    SortDescMembers(groups, CategoryValue);
    DistinctPermutation(groups, r, (g: CategoryCount) => g.name);
    forall k ensures CategoryListed(r, k) <==> CategoryOccurs(cs, k) {
      CategoryListedIff(cs, groups, r, k);
    }
  }

  /** Category `k` has an entry in `r`. */
  predicate CategoryListed(r: seq<CategoryCount>, k: Category) {
    exists i :: 0 <= i < |r| && r[i].name == k
  }

  lemma CategoryListedIff(cs: seq<Complaint>, groups: seq<CategoryCount>, r: seq<CategoryCount>, k: Category)
    requires groups == CategoryGroups(cs)
    requires forall g :: g in r <==> g in groups
    ensures CategoryListed(r, k) <==> CategoryOccurs(cs, k)
  {
    if CategoryOccurs(cs, k) {
      var g := CategoryCount(k, Count(cs, HasCategory(k)));
      assert g in groups;
      var i :| 0 <= i < |r| && r[i] == g;
    }
    if CategoryListed(r, k) {
      var i :| 0 <= i < |r| && r[i].name == k;
      assert r[i] in groups;
    }
  }

  datatype PriorityCount = PriorityCount(priority: Priority, count: nat)

  /** `getPriorityDistribution`: one entry per priority present, with its count. */
  function PriorityDistribution(cs: seq<Complaint>): (r: seq<PriorityCount>)
    ensures forall g :: g in r <==> g.count > 0 && g.count == CountPriority(cs, g.priority)
    ensures forall i, j :: 0 <= i < j < |r| ==> r[i].priority != r[j].priority
  {
    var all := PriorityTable(cs);
    WhereDistinct(all, (g: PriorityCount) => g.count > 0, (g: PriorityCount) => g.priority);
    Where(all, (g: PriorityCount) => g.count > 0)
  }

  /** Every priority with its count, in enumeration order. */
  function PriorityTable(cs: seq<Complaint>): (all: seq<PriorityCount>)
    ensures forall g :: g in all <==> g.count == CountPriority(cs, g.priority)
    ensures DistinctBy(all, (g: PriorityCount) => g.priority)
  {
    var all := seq(|AllPriorities|, i requires 0 <= i < |AllPriorities| =>
                     PriorityCount(AllPriorities[i], CountPriority(cs, AllPriorities[i])));
    assert forall g: PriorityCount :: g.count == CountPriority(cs, g.priority) ==> g in all by {
      forall g: PriorityCount | g.count == CountPriority(cs, g.priority) ensures g in all {
        AllPrioritiesListed(g.priority);
        var i :| 0 <= i < |AllPriorities| && AllPriorities[i] == g.priority;
        assert all[i] == g;
      }
    }
    all
  }

  // ---------------------------------------------------------------------------
  // Resolution time analysis

  datatype ResolutionTimes = ResolutionTimes(avgTime: real, minTime: real, maxTime: real)

  /** The `$match` of the analysis: resolved, with a resolution time. */
  function ResolvedWithTime(): Complaint -> bool {
    (c: Complaint) => c.status == Resolved && c.resolution.resolvedAt.Some?
  }

  function TimesOf(days: seq<real>): (t: ResolutionTimes)
    requires days != []
    ensures t.minTime in days && t.maxTime in days
    ensures forall i :: 0 <= i < |days| ==> t.minTime <= days[i] <= t.maxTime
    ensures t.avgTime == Average(days).value
    ensures t.minTime <= t.avgTime <= t.maxTime
  {
    AverageBetweenExtremes(days);
    ResolutionTimes(Average(days).value, Min(days), Max(days))
  }

  /** Every complaint of a group drawn from the `$match` has a resolution time. */
  lemma ResolvedGroupDays(matched: seq<Complaint>, d: Department)
    requires forall i :: 0 <= i < |matched| ==> ResolvedWithTime()(matched[i])
    ensures |ResolutionDays(Where(matched, HasDepartment(d)))| == Count(matched, HasDepartment(d))
  {
    var group := Where(matched, HasDepartment(d));
    assert forall i :: 0 <= i < |group| ==> group[i].resolution.resolvedAt.Some? by {
      forall i | 0 <= i < |group| ensures group[i].resolution.resolvedAt.Some? {
        assert group[i] in group;
      }
    }
    CountAll(group, (c: Complaint) => c.resolution.resolvedAt.Some?);
  }

  /** Some complaint of department `d` passes the `$match` of the analysis. */
  predicate ResolvedIn(cs: seq<Complaint>, d: Department) {
    exists i :: 0 <= i < |cs| && cs[i].department == d && ResolvedWithTime()(cs[i])
  }

  /** The resolution times, in days, of the complaints of `d` that pass the `$match`. */
  function DepartmentDays(cs: seq<Complaint>, d: Department): seq<real> {
    ResolutionDays(Where(Where(cs, ResolvedWithTime()), HasDepartment(d)))
  }

  /** A department has resolution times after the `$match` exactly when one of its complaints passes it. */
  lemma ResolvedDepartmentTimes(cs: seq<Complaint>, d: Department)
    ensures |DepartmentDays(cs, d)| > 0 <==> ResolvedIn(cs, d)
  {
    var matched := Where(cs, ResolvedWithTime());
    forall i | 0 <= i < |matched| ensures ResolvedWithTime()(matched[i]) {
      assert matched[i] in matched;
    }
    ResolvedGroupDays(matched, d);
    DepartmentGroupNonEmpty(cs, ResolvedWithTime(), d);
  }

  /** The `$group` of one department: mean, least and greatest resolution time. */
  function DepartmentTimes(cs: seq<Complaint>, d: Department): (t: ResolutionTimes)
    requires ResolvedIn(cs, d)
    ensures DepartmentDays(cs, d) != [] && t == TimesOf(DepartmentDays(cs, d))
    ensures t.minTime <= t.avgTime <= t.maxTime
  {
    ResolvedDepartmentTimes(cs, d);
    TimesOf(DepartmentDays(cs, d))
  }

  /**
   * `getResolutionTimeAnalysis`: per department with resolved complaints, the
   * mean, least and greatest resolution time in days.
   */
  function ResolutionTimeAnalysis(cs: seq<Complaint>): (m: map<Department, ResolutionTimes>)
    ensures forall d :: d in m <==>
              exists i :: 0 <= i < |cs| && cs[i].department == d && cs[i].status == Resolved
                                         && cs[i].resolution.resolvedAt.Some?
    ensures forall d | d in m :: DepartmentDays(cs, d) != [] && m[d] == TimesOf(DepartmentDays(cs, d))
    ensures forall d | d in m :: m[d].minTime <= m[d].avgTime <= m[d].maxTime
  {
    assert forall d :: d in AllDepartments by {
      forall d: Department ensures d in AllDepartments { AllDepartmentsListed(d); }
    }
    map d | d in AllDepartments && ResolvedIn(cs, d) :: DepartmentTimes(cs, d)
  }

  // ---------------------------------------------------------------------------
  // SLA compliance

  datatype Compliance = Compliance(total: nat, breached: nat, compliant: nat, complianceRate: real)

  function IsBreached(): Complaint -> bool { (c: Complaint) => c.isBreached }
  function IsCompliant(): Complaint -> bool { (c: Complaint) => !c.isBreached }

  function ComplianceOf(group: seq<Complaint>): (r: Compliance)
    requires group != []
    ensures r.breached + r.compliant == r.total == |group| >= 1
    ensures r.breached == Count(group, IsBreached()) && r.compliant == Count(group, IsCompliant())
    ensures 0.0 <= r.complianceRate <= 100.0
    ensures r.complianceRate == Percent(r.compliant, r.total)
  {
    CountComplement(group, IsBreached(), IsCompliant());
    var compliant := Count(group, IsCompliant());
    Compliance(|group|, Count(group, IsBreached()), compliant, Percent(compliant, |group|))
  }

  /**
   * `getSLACompliance`: per department with complaints, breached and compliant
   * counts that add up to the total, and the compliant percentage.
   */
  function SlaCompliance(cs: seq<Complaint>): (m: map<Department, Compliance>)
    ensures forall d :: d in m <==> DepartmentOccurs(cs, d)
    ensures forall d | d in m :: m[d].total == Count(cs, HasDepartment(d))
    ensures forall d | d in m :: m[d].breached + m[d].compliant == m[d].total >= 1
    ensures forall d | d in m :: 0.0 <= m[d].complianceRate <= 100.0
    ensures forall d | d in m :: Where(cs, HasDepartment(d)) != [] && m[d] == ComplianceOf(Where(cs, HasDepartment(d)))
  {
    assert forall d :: Count(cs, HasDepartment(d)) > 0 <==> DepartmentOccurs(cs, d) by {
      forall d ensures Count(cs, HasDepartment(d)) > 0 <==> DepartmentOccurs(cs, d) {
        DepartmentPresent(cs, d);
      }
    }
    assert forall d :: d in AllDepartments by {
      forall d: Department ensures d in AllDepartments { AllDepartmentsListed(d); }
    }
    map d | d in AllDepartments && Count(cs, HasDepartment(d)) > 0 :: ComplianceOf(Where(cs, HasDepartment(d)))
  }

  // ---------------------------------------------------------------------------
  // Custom range

  /**
   * The custom-range query as `countDocuments` reads it: `$in` casts every
   * listed name through the department path's `uppercase` setter.
   */
  predicate InCustomRangeCast(c: Complaint, startDate: int, endDate: int, departments: seq<string>) {
    && startDate <= c.createdAt <= endDate
    && (|departments| > 0 ==> exists j | 0 <= j < |departments| :: ToUpper(departments[j]) == DepartmentCode(c.department))
  }

  /** The same query as an `aggregate` `$match` reads it: the names are compared as given. */
  predicate InCustomRangeRaw(c: Complaint, startDate: int, endDate: int, departments: seq<string>) {
    startDate <= c.createdAt <= endDate && (|departments| > 0 ==> DepartmentCode(c.department) in departments)
  }

  /** With the names written in upper case, as the codes are, the two readings select the same complaints. */
  lemma CustomRangeReadingsAgree(c: Complaint, startDate: int, endDate: int, departments: seq<string>)
    requires forall j, i :: 0 <= j < |departments| && 0 <= i < |departments[j]| ==> !IsLowerLetter(departments[j][i])
    ensures InCustomRangeCast(c, startDate, endDate, departments) <==> InCustomRangeRaw(c, startDate, endDate, departments)
  {
    forall j | 0 <= j < |departments| ensures ToUpper(departments[j]) == departments[j] {
      ToUpperFixesUpper(departments[j]);
    }
    if DepartmentCode(c.department) in departments {
      var j :| 0 <= j < |departments| && departments[j] == DepartmentCode(c.department);
    }
  }

  /** A lower-case name is counted in `total` and filtered out of the three breakdowns. */
  lemma CustomRangeReadingsSplit(c: Complaint, startDate: int, endDate: int)
    requires startDate <= c.createdAt <= endDate
    ensures InCustomRangeCast(c, startDate, endDate, [ToLower(DepartmentCode(c.department))])
    ensures !InCustomRangeRaw(c, startDate, endDate, [ToLower(DepartmentCode(c.department))])
  {
    var code := DepartmentCode(c.department);
    DepartmentCodeUpper(c.department);
    UpperOfLower(code);
    assert ToLower(code)[0] == LowerChar(code[0]) != code[0];
    var names := [ToLower(code)];
    assert ToUpper(names[0]) == code;
  }

  datatype CustomRange = CustomRange(
    total: Option<nat>,
    byStatus: Option<map<Status, nat>>,
    byPriority: Option<map<Priority, nat>>,
    byDepartment: Option<map<Department, nat>>)

  function StatusCounts(cs: seq<Complaint>): (m: map<Status, nat>)
    ensures forall s :: s in m <==> exists i :: 0 <= i < |cs| && cs[i].status == s
    ensures forall s | s in m :: m[s] == CountStatus(cs, s)
  {
    assert forall s :: s in AllStatuses by {
      forall s: Status ensures s in AllStatuses { AllStatusesListed(s); }
    }
    map s | s in AllStatuses && CountStatus(cs, s) > 0 :: CountStatus(cs, s)
  }

  function PriorityCounts(cs: seq<Complaint>): (m: map<Priority, nat>)
    ensures forall p :: p in m <==> exists i :: 0 <= i < |cs| && cs[i].priority == p
    ensures forall p | p in m :: m[p] == CountPriority(cs, p)
  {
    assert forall p :: p in AllPriorities by {
      forall p: Priority ensures p in AllPriorities { AllPrioritiesListed(p); }
    }
    map p | p in AllPriorities && CountPriority(cs, p) > 0 :: CountPriority(cs, p)
  }

  function DepartmentCounts(cs: seq<Complaint>): (m: map<Department, nat>)
    ensures forall d :: d in m <==> DepartmentOccurs(cs, d)
    ensures forall d | d in m :: m[d] == Count(cs, HasDepartment(d))
  {
    assert forall d :: d in AllDepartments by {
      forall d: Department ensures d in AllDepartments { AllDepartmentsListed(d); }
    }
    map d | d in AllDepartments && Count(cs, HasDepartment(d)) > 0 :: Count(cs, HasDepartment(d))
  }

  /**
   * `getCustomRangeAnalytics`: the result has a key for exactly the requested
   * metrics. `total` counts the complaints in the date range and, when the
   * list is not empty, in a listed department read through the case setter;
   * the three breakdowns group the complaints the uncast `$match` keeps.
   */
  function CustomRangeAnalytics(cs: seq<Complaint>, startDate: int, endDate: int,
                                departments: seq<string>, metrics: seq<string>): (r: CustomRange)
    ensures r.total.Some? <==> "total" in metrics
    ensures r.byStatus.Some? <==> "byStatus" in metrics
    ensures r.byPriority.Some? <==> "byPriority" in metrics
    ensures r.byDepartment.Some? <==> "byDepartment" in metrics
    ensures r.total.Some? ==>
              r.total.value == Count(cs, (c: Complaint) => InCustomRangeCast(c, startDate, endDate, departments))
    ensures r.byStatus.Some? ==>
              r.byStatus.value == StatusCounts(Where(cs, (c: Complaint) => InCustomRangeRaw(c, startDate, endDate, departments)))
    ensures r.byPriority.Some? ==>
              r.byPriority.value == PriorityCounts(Where(cs, (c: Complaint) => InCustomRangeRaw(c, startDate, endDate, departments)))
    ensures r.byDepartment.Some? ==>
              r.byDepartment.value == DepartmentCounts(Where(cs, (c: Complaint) => InCustomRangeRaw(c, startDate, endDate, departments)))
    ensures r.byDepartment.Some? && |departments| > 0 ==>
              forall d | d in r.byDepartment.value :: DepartmentCode(d) in departments
  {
    var matched := Where(cs, (c: Complaint) => InCustomRangeRaw(c, startDate, endDate, departments));
    var byDepartment := DepartmentCounts(matched);
    assert forall d | d in byDepartment :: |departments| > 0 ==> DepartmentCode(d) in departments by {
      forall d | d in byDepartment ensures |departments| > 0 ==> DepartmentCode(d) in departments {
        var i :| 0 <= i < |matched| && matched[i].department == d;
        assert matched[i] in matched;
      }
    }
    CustomRange(
      if "total" in metrics then Some(Count(cs, (c: Complaint) => InCustomRangeCast(c, startDate, endDate, departments)))
      else None,
      if "byStatus" in metrics then Some(StatusCounts(matched)) else None,
      if "byPriority" in metrics then Some(PriorityCounts(matched)) else None,
      if "byDepartment" in metrics then Some(byDepartment) else None)
  }

  // ---------------------------------------------------------------------------
  // Realtime metrics

  datatype Realtime = Realtime(
    last24Hours: nat, lastHour: nat, currentlyPending: nat, currentlyEscalated: nat, criticalOpen: nat)

  function CreatedSince(t: int): Complaint -> bool { (c: Complaint) => c.createdAt >= t }

  function CriticalOpen(): Complaint -> bool {
    (c: Complaint) => c.priority == Critical && c.status != Resolved && c.status != Closed
  }

  /**
   * `getRealtimeMetrics` at `now`: the last hour is part of the last day, and
   * the open critical complaints are among the critical ones.
   */
  function RealtimeMetrics(cs: seq<Complaint>, now: int): (m: Realtime)
    ensures m.last24Hours == Count(cs, CreatedSince(now - 24 * MsPerHour))
    ensures m.lastHour == Count(cs, CreatedSince(now - MsPerHour))
    ensures m.currentlyPending == CountStatus(cs, Pending) && m.currentlyEscalated == CountStatus(cs, Escalated)
    ensures m.criticalOpen == Count(cs, CriticalOpen())
    ensures m.lastHour <= m.last24Hours <= |cs|
    ensures m.currentlyPending + m.currentlyEscalated <= |cs|
    ensures m.criticalOpen <= CountPriority(cs, Critical)
    ensures m.criticalOpen == 0 <==>
              forall i :: 0 <= i < |cs| ==> !(cs[i].priority == Critical && cs[i].status != Resolved && cs[i].status != Closed)
  {
    CountMonotone(cs, CreatedSince(now - MsPerHour), CreatedSince(now - 24 * MsPerHour));
    CountMonotone(cs, CriticalOpen(), HasPriority(Critical));
    StatusPartition(cs);
    Realtime(
      Count(cs, CreatedSince(now - 24 * MsPerHour)),
      Count(cs, CreatedSince(now - MsPerHour)),
      CountStatus(cs, Pending),
      CountStatus(cs, Escalated),
      Count(cs, CriticalOpen()))
  }

  // ---------------------------------------------------------------------------
  // Trend analysis: the pivot of the `(year, month, department)` groups

  const MonthNames: seq<string> :=
    ["Jan", "Feb", "Mar", "Apr", "May", "Jun", "Jul", "Aug", "Sep", "Oct", "Nov", "Dec"]

  /** One group of the trend pipeline; `month` is `$month`, so 1..12. */
  datatype TrendItem = TrendItem(year: int, month: nat, department: Department, count: nat)

  predicate ValidItems(items: seq<TrendItem>) {
    forall i :: 0 <= i < |items| ==> 1 <= items[i].month <= 12
  }

  /** The twelve names are distinct, so keying the rows by name is keying them by month number. */
  lemma MonthNamesDistinct(m: nat, n: nat)
    requires 1 <= m <= 12 && 1 <= n <= 12 && m != n
    ensures MonthNames[m - 1] != MonthNames[n - 1]
  {
  }

  /**
   * The `formattedTrends` dictionary: the months in insertion order (the order
   * `Object.values` lists them in) and, per month, the department columns.
   * A month stands for its name, `MonthNames[month - 1]`.
   */
  datatype Pivot = Pivot(order: seq<nat>, table: map<nat, map<Department, nat>>)

  /** Keys listed once each, and listed exactly when they have a row. */
  ghost predicate PivotInvariant(p: Pivot) {
    (forall i :: 0 <= i < |p.order| ==> 1 <= p.order[i] <= 12 && p.order[i] !in p.order[..i])
    && (forall k :: k in p.table <==> k in p.order)
  }

  /** The count in row `k`, column `d`, if that cell is written. */
  function Cell(p: Pivot, k: nat, d: Department): Option<nat> {
    if k in p.table && d in p.table[k] then Some(p.table[k][d]) else None
  }

  /** `row[d] = count`. */
  function Put(row: map<Department, nat>, d: Department, count: nat): (r: map<Department, nat>)
    ensures d in r && r[d] == count
    ensures forall e | e != d :: (e in r <==> e in row) && (e in r ==> r[e] == row[e])
  {
    row[d := count]
  }

  /** `if (!formattedTrends[monthKey]) formattedTrends[monthKey] = { month: monthKey }`. */
  function OpenRow(p: Pivot, key: nat): (q: Pivot)
    ensures key in q.table
  {
    if key in p.table then p else Pivot(p.order + [key], p.table[key := map[]])
  }

  /** One iteration of the `forEach`: open the month's row when missing, then write the count. */
  function PivotStep(p: Pivot, item: TrendItem): (q: Pivot)
    ensures q.order == if item.month in p.table then p.order else p.order + [item.month]
    ensures forall k :: k in q.table <==> k in p.table || k == item.month
    ensures Cell(q, item.month, item.department) == Some(item.count)
    ensures forall k, d | k != item.month || d != item.department :: Cell(q, k, d) == Cell(p, k, d)
  {
    var key := item.month;
    var o := OpenRow(p, key);
    var q := Pivot(o.order, o.table[key := Put(o.table[key], item.department, item.count)]);
    assert forall k, d | k != key || d != item.department :: Cell(q, k, d) == Cell(p, k, d) by {
      forall k, d | k != key || d != item.department ensures Cell(q, k, d) == Cell(p, k, d) {
        if k != key {
          assert (k in q.table) == (k in p.table);
        } else if key in p.table {
          assert o.table[key] == p.table[key];
        } else {
          assert o.table[key] == map[];
        }
      }
    }
    q
  }

  /** A step keeps the invariant when the group's month is a real month. */
  lemma PivotStepInvariant(p: Pivot, item: TrendItem)
    requires 1 <= item.month <= 12 && PivotInvariant(p)
    ensures PivotInvariant(PivotStep(p, item))
  {
    var q := PivotStep(p, item);
    if item.month !in p.table {
      assert item.month !in p.order;
      assert q.order[..|p.order|] == p.order;
    }
  }

  /** The dictionary after the loop has consumed the first `n` groups, left to right. */
  function PivotPrefix(items: seq<TrendItem>, n: nat): Pivot
    requires n <= |items|
  {
    if n == 0 then Pivot([], map[])
    else PivotStep(PivotPrefix(items, n - 1), items[n - 1])
  }

  lemma {:induction false} PivotPrefixInvariant(items: seq<TrendItem>, n: nat)
    requires ValidItems(items) && n <= |items|
    ensures PivotInvariant(PivotPrefix(items, n))
  {
    if n == 0 {
      assert PivotPrefix(items, n) == Pivot([], map[]);
    } else {
      PivotPrefixInvariant(items, n - 1);
      PivotStepInvariant(PivotPrefix(items, n - 1), items[n - 1]);
    }
  }

  /** The dictionary after the whole `forEach`. */
  function PivotOf(items: seq<TrendItem>): (p: Pivot)
    requires ValidItems(items)
    ensures PivotInvariant(p)
  {
    PivotPrefixInvariant(items, |items|);
    PivotPrefix(items, |items|)
  }

  datatype TrendRow = TrendRow(month: string, counts: map<Department, nat>)

  /** The months of the dictionary have different names. */
  lemma PivotMonthsDistinct(p: Pivot)
    requires PivotInvariant(p)
    ensures forall i, j :: 0 <= i < j < |p.order| ==> MonthNames[p.order[i] - 1] != MonthNames[p.order[j] - 1]
  {
    forall i, j | 0 <= i < j < |p.order| ensures MonthNames[p.order[i] - 1] != MonthNames[p.order[j] - 1] {
      assert p.order[i] in p.order[..j];
      MonthNamesDistinct(p.order[i], p.order[j]);
    }
  }

  /** `Object.values(formattedTrends)`. */
  function RowsOf(p: Pivot): (rows: seq<TrendRow>)
    requires PivotInvariant(p)
    ensures |rows| == |p.order|
    ensures forall i :: 0 <= i < |rows| ==>
              1 <= p.order[i] <= 12 && rows[i].month == MonthNames[p.order[i] - 1] && rows[i].counts == p.table[p.order[i]]
    ensures forall i, j :: 0 <= i < j < |rows| ==> rows[i].month != rows[j].month
  {
    PivotMonthsDistinct(p);
    seq(|p.order|, i requires 0 <= i < |p.order| && PivotInvariant(p) =>
          TrendRow(MonthNames[p.order[i] - 1], p.table[p.order[i]]))
  }

  /**
   * The transform of `getTrendAnalysis`: the pipeline's groups (already
   * matched, grouped and sorted by year and month) become one row per month
   * name with one column per department.
   */
  method PivotTrends(items: seq<TrendItem>) returns (rows: seq<TrendRow>)
    requires ValidItems(items)
    ensures rows == RowsOf(PivotOf(items))
  {
    var order: seq<nat> := [];
    var table: map<nat, map<Department, nat>> := map[];
    var i := 0;
    assert PivotPrefix(items, 0) == Pivot([], map[]);
    while i < |items|
      invariant 0 <= i <= |items|
      invariant Pivot(order, table) == PivotPrefix(items, i)
    {
      var item := items[i];
      var key := item.month;
      if key !in table {
        order := order + [key];
        table := table[key := map[]];
      }
      table := table[key := Put(table[key], item.department, item.count)];
      assert PivotPrefix(items, i + 1) == PivotStep(PivotPrefix(items, i), items[i]);
      i := i + 1;
    }
    PivotPrefixInvariant(items, i);
    rows := RowsOf(Pivot(order, table));
  }

  /** Some of the first `n` groups falls in month `k`. */
  predicate MonthOccurs(items: seq<TrendItem>, n: nat, k: nat)
    requires n <= |items|
  {
    exists i :: 0 <= i < n && items[i].month == k
  }

  /** A month has a row exactly when some group falls in it. */
  lemma {:induction false} PivotRows(items: seq<TrendItem>, n: nat, k: nat)
    requires n <= |items|
    ensures k in PivotPrefix(items, n).table <==> MonthOccurs(items, n, k)
  {
    if n == 0 {
      assert PivotPrefix(items, n) == Pivot([], map[]);
    } else {
      PivotRows(items, n - 1, k);
      PivotRowsStep(items, n, k);
    }
  }

  /** The inductive step of `PivotRows`: one more group adds the row of its month and removes none. */
  lemma PivotRowsStep(items: seq<TrendItem>, n: nat, k: nat)
    requires 0 < n <= |items|
    requires k in PivotPrefix(items, n - 1).table <==> MonthOccurs(items, n - 1, k)
    ensures k in PivotPrefix(items, n).table <==> MonthOccurs(items, n, k)
  {
    MonthOccursStep(items, n, k);
    assert PivotPrefix(items, n) == PivotStep(PivotPrefix(items, n - 1), items[n - 1]);
  }

  /** A month occurs among the first `n` groups when it occurs among the first `n - 1` or is the month of the last. */
  lemma MonthOccursStep(items: seq<TrendItem>, n: nat, k: nat)
    requires 0 < n <= |items|
    ensures MonthOccurs(items, n, k) <==> MonthOccurs(items, n - 1, k) || items[n - 1].month == k
  {
    if MonthOccurs(items, n, k) && items[n - 1].month != k {
      var i :| 0 <= i < n && items[i].month == k;
      assert i < n - 1;
    }
    if MonthOccurs(items, n - 1, k) {
      var i :| 0 <= i < n - 1 && items[i].month == k;
      assert 0 <= i < n;
    }
  }

  /**
   * A cell holds the count of the LAST group with that month and department:
   * a later group overwrites an earlier one.
   */
  lemma {:induction false} PivotLastWriteWins(items: seq<TrendItem>, n: nat, j: nat)
    requires j < n <= |items|
    requires forall i :: j < i < n ==>
               items[i].month != items[j].month || items[i].department != items[j].department
    ensures Cell(PivotPrefix(items, n), items[j].month, items[j].department) == Some(items[j].count)
  {
    var p := PivotPrefix(items, n - 1);
    assert PivotPrefix(items, n) == PivotStep(p, items[n - 1]);
    if j < n - 1 {
      PivotLastWriteWins(items, n - 1, j);
      assert Cell(PivotStep(p, items[n - 1]), items[j].month, items[j].department)
          == Cell(p, items[j].month, items[j].department);
    }
  }

  /** A cell no group wrote stays empty. */
  lemma {:induction false} PivotUnwritten(items: seq<TrendItem>, n: nat, k: nat, d: Department)
    requires n <= |items|
    requires forall i :: 0 <= i < n ==> items[i].month != k || items[i].department != d
    ensures Cell(PivotPrefix(items, n), k, d) == None
  {
    if n == 0 {
      assert PivotPrefix(items, n) == Pivot([], map[]);
    } else {
      PivotUnwritten(items, n - 1, k, d);
      var p := PivotPrefix(items, n - 1);
      assert PivotPrefix(items, n) == PivotStep(p, items[n - 1]);
      assert Cell(PivotStep(p, items[n - 1]), k, d) == Cell(p, k, d);
    }
  }

  /** The same month of two years lands in one row, and the later year's count wins. */
  lemma SameMonthOfTwoYearsCollide()
    ensures RowsOf(PivotOf([TrendItem(2024, 3, IT, 5), TrendItem(2025, 3, IT, 7)])) == [TrendRow("Mar", map[IT := 7])]
  {
    var items := [TrendItem(2024, 3, IT, 5), TrendItem(2025, 3, IT, 7)];
    var p1 := PivotPrefix(items, 1);
    assert p1 == Pivot([3], map[3 := map[IT := 5]]);
    var p := PivotPrefix(items, 2);
    assert p.order == [3];
    assert p.table[3] == map[IT := 7];
    assert MonthNames[2] == "Mar";
  }

  // ---------------------------------------------------------------------------
  // Agent performance

  /** What the `$lookup` into the users collection yields for an agent. */
  datatype AgentInfo = AgentInfo(name: string, email: string, department: Option<Department>)

  datatype AgentRow = AgentRow(
    agent: UserId, agentName: string, agentEmail: string, department: Option<Department>,
    totalAssigned: nat, resolved: nat, pending: nat,
    avgRating: Option<real>, avgResolutionTime: Option<real>, resolutionRate: real)

  /** The `$match`: assigned, and in the requested department when one is given (a blank one is ignored). */
  function AssignedIn(department: string): Complaint -> bool {
    (c: Complaint) => c.assignedTo.Some? && (department != "" ==> DepartmentCode(c.department) == department)
  }

  function AssignedTo(u: UserId): Complaint -> bool {
    (c: Complaint) => c.assignedTo == Some(u)
  }

  /** Some complaint of `cs` is assigned to `u`. */
  predicate AssignedAmong(cs: seq<Complaint>, u: UserId) {
    exists i :: 0 <= i < |cs| && cs[i].assignedTo == Some(u)
  }

  /** The `_id`s of the `$group` by assignee: each assignee once. */
  function Assignees(cs: seq<Complaint>): (ids: seq<UserId>)
    ensures forall u :: u in ids <==> AssignedAmong(cs, u)
    ensures forall i, j :: 0 <= i < j < |ids| ==> ids[i] != ids[j]
  {
    if cs == [] then []
    else
      var rest := Assignees(cs[1..]);
      assert forall u: UserId :: AssignedAmong(cs, u) <==> cs[0].assignedTo == Some(u) || AssignedAmong(cs[1..], u) by {
        forall u: UserId ensures AssignedAmong(cs, u) <==> cs[0].assignedTo == Some(u) || AssignedAmong(cs[1..], u) {
          if AssignedAmong(cs, u) && cs[0].assignedTo != Some(u) {
            var i :| 0 <= i < |cs| && cs[i].assignedTo == Some(u);
            assert cs[1..][i - 1] == cs[i];
          }
          if AssignedAmong(cs[1..], u) {
            var i :| 0 <= i < |cs[1..]| && cs[1..][i].assignedTo == Some(u);
            assert cs[i + 1] == cs[1..][i];
          }
        }
      }
      match cs[0].assignedTo
      case Some(u) => if u in rest then rest else [u] + rest
      case None => rest
  }

  /** One row of the report, for an agent the lookup found and the complaints assigned to them. */
  function AgentRowOf(u: UserId, info: AgentInfo, group: seq<Complaint>): (row: AgentRow)
    requires group != []
    ensures row.agent == u && row.agentName == info.name && row.agentEmail == info.email
    ensures row.department == info.department
    ensures row.totalAssigned == |group| && row.resolved + row.pending <= row.totalAssigned
    ensures row.resolved == CountStatus(group, Resolved) && row.pending == CountStatus(group, Pending)
    ensures row.avgRating == Average(Ratings(group))
    ensures row.avgResolutionTime == Average(ResolutionDays(group))
    ensures 0.0 <= row.resolutionRate <= 100.0
    ensures row.resolutionRate == Percent(row.resolved, row.totalAssigned)
  {
    StatusPartition(group);
    var resolved := CountStatus(group, Resolved);
    AgentRow(u, info.name, info.email, info.department, |group|, resolved, CountStatus(group, Pending),
             Average(Ratings(group)), Average(ResolutionDays(group)), Percent(resolved, |group|))
  }

  /** What every row of the report satisfies, over the matched complaints. */
  ghost predicate RowSound(row: AgentRow, matched: seq<Complaint>, agents: map<UserId, AgentInfo>) {
    row.agent in agents && row.agentName == agents[row.agent].name
    && row.agentEmail == agents[row.agent].email
    && row.totalAssigned == Count(matched, AssignedTo(row.agent)) > 0
    && row == AgentRowOf(row.agent, agents[row.agent], Where(matched, AssignedTo(row.agent)))
    && row.resolved + row.pending <= row.totalAssigned
    && 0.0 <= row.resolutionRate <= 100.0
  }

  /** Agent `u` has a row in `rows`. */
  predicate Reported(rows: seq<AgentRow>, u: UserId) {
    exists row :: row in rows && row.agent == u
  }

  /** An agent is reported by a list of rows when the first row is theirs or the rest report them. */
  lemma ReportedCons(rows: seq<AgentRow>, v: UserId)
    requires rows != []
    ensures Reported(rows, v) <==> rows[0].agent == v || Reported(rows[1..], v)
  {
    if Reported(rows, v) && rows[0].agent != v {
      var row :| row in rows && row.agent == v;
      var k :| 0 <= k < |rows| && rows[k] == row;
      assert rows[1..][k - 1] == row;
    }
    if Reported(rows[1..], v) {
      var row :| row in rows[1..] && row.agent == v;
      assert row in rows;
    }
    if rows[0].agent == v {
      assert rows[0] in rows;
    }
  }

  /** Two lists of rows with the same members report the same agents. */
  lemma ReportedSameMembers(rows: seq<AgentRow>, others: seq<AgentRow>)
    requires forall row :: row in rows <==> row in others
    ensures forall u :: Reported(rows, u) <==> Reported(others, u)
  {
    forall u ensures Reported(rows, u) <==> Reported(others, u) {
      if Reported(rows, u) {
        var row :| row in rows && row.agent == u;
        assert row in others;
      }
      if Reported(others, u) {
        var row :| row in others && row.agent == u;
        assert row in rows;
      }
    }
  }

  /** The row of one agent with an assigned complaint among the matched ones. */
  function RowFor(u: UserId, matched: seq<Complaint>, agents: map<UserId, AgentInfo>): (row: AgentRow)
    requires u in agents && AssignedAmong(matched, u)
    ensures row.agent == u && RowSound(row, matched, agents)
  {
    var i :| 0 <= i < |matched| && matched[i].assignedTo == Some(u);
    assert AssignedTo(u)(matched[i]);
    AgentRowOf(u, agents[u], Where(matched, AssignedTo(u)))
  }

  function RowsFor(ids: seq<UserId>, matched: seq<Complaint>, agents: map<UserId, AgentInfo>): (rows: seq<AgentRow>)
    requires forall u | u in ids :: u in agents && AssignedAmong(matched, u)
    ensures |rows| == |ids|
    ensures forall i :: 0 <= i < |rows| ==> rows[i] == RowFor(ids[i], matched, agents)
  {
    seq(|ids|, i requires 0 <= i < |ids| => RowFor(ids[i], matched, agents))
  }

  /** Rows whose agents are `ids`, position by position, report exactly `ids`. */
  lemma ReportedAgents(rows: seq<AgentRow>, ids: seq<UserId>)
    requires |rows| == |ids| && forall i :: 0 <= i < |rows| ==> rows[i].agent == ids[i]
    ensures forall u :: Reported(rows, u) <==> u in ids
  {
    forall u ensures Reported(rows, u) <==> u in ids {
      if u in ids {
        var i :| 0 <= i < |ids| && ids[i] == u;
        assert rows[i] in rows;
      }
      if Reported(rows, u) {
        var row :| row in rows && row.agent == u;
        var i :| 0 <= i < |rows| && rows[i] == row;
        assert ids[i] == u;
      }
    }
  }

  /** Rows before the `$sort`; `$unwind` drops the assignees the lookup does not find. */
  function AgentRows(matched: seq<Complaint>, agents: map<UserId, AgentInfo>): (rows: seq<AgentRow>)
    ensures forall row | row in rows :: RowSound(row, matched, agents)
    ensures forall u :: Reported(rows, u) <==> u in agents && AssignedAmong(matched, u)
    ensures forall i, j :: 0 <= i < j < |rows| ==> rows[i].agent != rows[j].agent
  {
    var ids := Where(Assignees(matched), (u: UserId) => u in agents);
    WhereDistinct(Assignees(matched), (u: UserId) => u in agents, (u: UserId) => u);
    var rows := RowsFor(ids, matched, agents);
    ReportedAgents(rows, ids);
    rows
  }

  function ResolutionRate(row: AgentRow): real { row.resolutionRate }

  /**
   * `getAgentPerformance`: one row per assignee of a matching complaint that
   * the users lookup finds, sorted by resolution rate, highest first.
   */
  function AgentPerformance(cs: seq<Complaint>, department: string, agents: map<UserId, AgentInfo>): (rows: seq<AgentRow>)
    ensures SortedDesc(rows, ResolutionRate)
    ensures forall row | row in rows :: RowSound(row, Where(cs, AssignedIn(department)), agents)
    ensures forall u :: Reported(rows, u) <==> u in agents && AssignedAmong(Where(cs, AssignedIn(department)), u)
    ensures forall i, j :: 0 <= i < j < |rows| ==> rows[i].agent != rows[j].agent
  {
    var unsorted := AgentRows(Where(cs, AssignedIn(department)), agents);
    var rows := SortDesc(unsorted, ResolutionRate);
    SortDescMembers(unsorted, ResolutionRate);
    ReportedSameMembers(rows, unsorted);
    DistinctPermutation(unsorted, rows, (row: AgentRow) => row.agent);
    rows
  }

  /** Agents are reported for the complaints the `$match` lets through. */
  lemma AssignedAmongMatched(cs: seq<Complaint>, department: string, u: UserId)
    ensures AssignedAmong(Where(cs, AssignedIn(department)), u) <==>
            exists i :: 0 <= i < |cs| && cs[i].assignedTo == Some(u)
                        && (department != "" ==> DepartmentCode(cs[i].department) == department)
  {
    var matched := Where(cs, AssignedIn(department));
    if AssignedAmong(matched, u) {
      var i :| 0 <= i < |matched| && matched[i].assignedTo == Some(u);
      assert matched[i] in matched;
      var j :| 0 <= j < |cs| && cs[j] == matched[i];
    }
    if exists i :: 0 <= i < |cs| && cs[i].assignedTo == Some(u)
                   && (department != "" ==> DepartmentCode(cs[i].department) == department) {
      var i :| 0 <= i < |cs| && cs[i].assignedTo == Some(u)
               && (department != "" ==> DepartmentCode(cs[i].department) == department);
      assert AssignedIn(department)(cs[i]);
      assert cs[i] in matched;
      var j :| 0 <= j < |matched| && matched[j] == cs[i];
    }
  }

  // ---------------------------------------------------------------------------
  // Report export

  /**
   * The export query: department when given (a blank one is ignored), dates
   * when both are given. `find` casts the department through the path's
   * `uppercase` setter before comparing.
   */
  predicate InExport(c: Complaint, startDate: Option<int>, endDate: Option<int>, department: string) {
    (department != "" ==> DepartmentCode(c.department) == ToUpper(department)) && InDateRange(c, startDate, endDate)
  }

  /** A department code has no lower-case letter and starts with an upper-case one. */
  lemma DepartmentCodeUpper(d: Department)
    ensures |DepartmentCode(d)| > 0 && IsUpperLetter(DepartmentCode(d)[0])
    ensures forall i :: 0 <= i < |DepartmentCode(d)| ==> !IsLowerLetter(DepartmentCode(d)[i])
  {
  }

  /** The export filter ignores the case of the department: `?department=it` exports the IT complaints. */
  lemma ExportIgnoresDepartmentCase(cs: seq<Complaint>, startDate: Option<int>, endDate: Option<int>, d: Department)
    ensures forall c :: c in ExportedComplaints(cs, startDate, endDate, ToLower(DepartmentCode(d)))
                   <==> c in ExportedComplaints(cs, startDate, endDate, DepartmentCode(d))
  {
    DepartmentCodeUpper(d);
    UpperOfLower(DepartmentCode(d));
    ToUpperFixesUpper(DepartmentCode(d));
  }

  function CreatedAtKey(c: Complaint): real { c.createdAt as real }

  /** The CSV projection of one complaint; `resolvedAt` None prints as "N/A". */
  datatype CsvRow = CsvRow(
    id: string, title: string, department: Department, status: Status, priority: Priority,
    createdAt: int, resolvedAt: Option<int>)

  datatype Export = JsonExport(complaints: seq<Complaint>) | CsvExport(rows: seq<CsvRow>)

  function CsvRowOf(c: Complaint): (row: CsvRow)
    ensures row.id == c.complaintId && row.title == c.title && row.department == c.department
    ensures row.status == c.status && row.priority == c.priority && row.createdAt == c.createdAt
    ensures row.resolvedAt == c.resolution.resolvedAt
  {
    CsvRow(c.complaintId, c.title, c.department, c.status, c.priority, c.createdAt, c.resolution.resolvedAt)
  }

  /** The complaints of the export, newest first (`sort('-createdAt')`). */
  function ExportedComplaints(cs: seq<Complaint>, startDate: Option<int>, endDate: Option<int>, department: string)
    : (r: seq<Complaint>)
    ensures SortedDesc(r, CreatedAtKey)
    ensures forall c :: c in r <==> c in cs && InExport(c, startDate, endDate, department)
    ensures |r| == Count(cs, (c: Complaint) => InExport(c, startDate, endDate, department))
    ensures multiset(r) == multiset(Where(cs, (c: Complaint) => InExport(c, startDate, endDate, department)))
  {
    var matched := Where(cs, (c: Complaint) => InExport(c, startDate, endDate, department));
    SortDescMembers(matched, CreatedAtKey);
    SortDesc(matched, CreatedAtKey)
  }

  /** `exportReport`: the same complaints, whole or as CSV rows in the same order. */
  function ExportReport(cs: seq<Complaint>, startDate: Option<int>, endDate: Option<int>, department: string,
                        format: string): (r: Export)
    ensures r.CsvExport? <==> format == "csv"
    ensures r.JsonExport? ==> r.complaints == ExportedComplaints(cs, startDate, endDate, department)
    ensures r.CsvExport? ==> var es := ExportedComplaints(cs, startDate, endDate, department);
              |r.rows| == |es| && forall i :: 0 <= i < |es| ==> r.rows[i] == CsvRowOf(es[i])
  {
    var es := ExportedComplaints(cs, startDate, endDate, department);
    if format == "csv" then CsvExport(seq(|es|, i requires 0 <= i < |es| => CsvRowOf(es[i])))
    else JsonExport(es)
  }
}
