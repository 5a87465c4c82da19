/**
 * The complaint entity (backend/models/Complaint.js): its enumerations, the
 * ticket code, the priority-to-SLA table, the pre-save hook that fixes the
 * deadlines and writes the first timeline entry, the breach check, the
 * resolution-time virtual and the per-department statistics.
 *
 * Timestamps are integer milliseconds since the epoch; the clock and the
 * random object id are parameters.
 */
module Complaints {
  import opened Wrappers
  import opened Text
  import opened Aggregation

  /** The `_id` of a stored user (an agent, a reporter, an actor). */
  type UserId = nat
  /** The `_id` of a stored complaint document. */
  type ObjectKey = nat
  type Byte = b: int | 0 <= b < 256

  const MsPerHour: int := 3600000
  const MsPerDay: int := 86400000
  const MaxTitleLength: nat := 200

  // ---------------------------------------------------------------------------
  // Enumerations

  datatype Department = ORM | RRM | CRM | IT | PROJECT
  datatype Category = ServiceQuality | TechnicalIssues | Billing | Delivery | Communication | Other
  datatype Priority = Low | Medium | High | Critical
  datatype Status = Pending | InProgress | Resolved | Escalated | Closed

  const AllDepartments: seq<Department> := [ORM, RRM, CRM, IT, PROJECT]
  const AllCategories: seq<Category> :=
    [ServiceQuality, TechnicalIssues, Billing, Delivery, Communication, Other]

  function DepartmentCode(d: Department): string {
    match d
    case ORM => "ORM"
    case RRM => "RRM"
    case CRM => "CRM"
    case IT => "IT"
    case PROJECT => "PROJECT"
  }

  function CategoryName(c: Category): string {
    match c
    case ServiceQuality => "Service Quality"
    case TechnicalIssues => "Technical Issues"
    case Billing => "Billing"
    case Delivery => "Delivery"
    case Communication => "Communication"
    case Other => "Other"
  }

  function StatusName(s: Status): string {
    match s
    case Pending => "pending"
    case InProgress => "in-progress"
    case Resolved => "resolved"
    case Escalated => "escalated"
    case Closed => "closed"
  }

  /**
   * The `department` path: the `uppercase` setter runs before the enum
   * validator, so any capitalisation of a code is accepted.
   */
  function ParseDepartment(s: string): (r: Option<Department>)
    ensures forall d :: r == Some(d) <==> ToUpper(s) == DepartmentCode(d)
  {
    var u := ToUpper(s);
    if u == "ORM" then Some(ORM)
    else if u == "RRM" then Some(RRM)
    else if u == "CRM" then Some(CRM)
    else if u == "IT" then Some(IT)
    else if u == "PROJECT" then Some(PROJECT)
    else None
  }

  /** Every department code is accepted and names its department. */
  lemma DepartmentCodeRoundTrip(d: Department)
    ensures ParseDepartment(DepartmentCode(d)) == Some(d)
  {
    ToUpperFixesUpper(DepartmentCode(d));
  }

  /** The `category` path: an exact match against the enumeration. */
  function ParseCategory(s: string): (r: Option<Category>)
    ensures forall c :: r == Some(c) <==> s == CategoryName(c)
  {
    if s == "Service Quality" then Some(ServiceQuality)
    else if s == "Technical Issues" then Some(TechnicalIssues)
    else if s == "Billing" then Some(Billing)
    else if s == "Delivery" then Some(Delivery)
    else if s == "Communication" then Some(Communication)
    else if s == "Other" then Some(Other)
    else None
  }

  /** The `status` path: an exact match against the enumeration. */
  function ParseStatus(s: string): (r: Option<Status>)
    ensures forall st :: r == Some(st) <==> s == StatusName(st)
  {
    if s == "pending" then Some(Pending)
    else if s == "in-progress" then Some(InProgress)
    else if s == "resolved" then Some(Resolved)
    else if s == "escalated" then Some(Escalated)
    else if s == "closed" then Some(Closed)
    else None
  }

  // ---------------------------------------------------------------------------
  // Sub-documents

  datatype Reporter = Reporter(name: string, email: string, phone: Option<string>, userId: Option<UserId>)
  datatype Attachment = Attachment(filename: string, url: string, uploadedAt: int)
  datatype Comment = Comment(user: UserId, comment: string, createdAt: int)
  datatype TimelineEntry = TimelineEntry(action: string, performedBy: Option<UserId>, timestamp: int, details: string)
  datatype Resolution = Resolution(
    resolvedBy: Option<UserId>,
    resolvedAt: Option<int>,
    resolutionNote: Option<string>,
    /** A `Number`, so fractional ratings such as 4.5 are stored as given. */
    satisfactionRating: Option<real>)

  const NoResolution := Resolution(None, None, None, None)

  /** The `sla` block once the pre-save hook has filled it. */
  datatype SlaTerms = SlaTerms(responseTime: nat, resolutionTime: nat, responseDeadline: int, resolutionDeadline: int)

  /** A stored complaint, as the analytics read it. */
  datatype Complaint = Complaint(
    key: ObjectKey,
    complaintId: string,
    title: string,
    description: string,
    department: Department,
    category: Category,
    priority: Priority,
    status: Status,
    assignedTo: Option<UserId>,
    reportedBy: Reporter,
    attachments: seq<Attachment>,
    comments: seq<Comment>,
    resolution: Resolution,
    timeline: seq<TimelineEntry>,
    sla: Option<SlaTerms>,
    isBreached: bool,
    tags: seq<string>,
    createdAt: int,
    updatedAt: int)

  // ---------------------------------------------------------------------------
  // Ticket code: "CMP-" + the last 8 hex digits of a fresh object id, upper-cased

  /** `ObjectId.toHexString()`: two lower-case hex digits per byte. */
  function HexOfBytes(bs: seq<Byte>): (r: string)
    ensures |r| == 2 * |bs|
  {
    if bs == [] then [] else [HexLower(bs[0] / 16), HexLower(bs[0] % 16)] + HexOfBytes(bs[1..])
  }

  lemma {:induction false} HexOfBytesAppend(a: seq<Byte>, b: seq<Byte>)
    ensures HexOfBytes(a + b) == HexOfBytes(a) + HexOfBytes(b)
  {
    if a != [] {
      assert (a + b)[1..] == a[1..] + b;
      HexOfBytesAppend(a[1..], b);
    } else {
      assert a + b == b;
    }
  }

  /** The default of the `complaintId` path, for a fresh 12-byte object id. */
  function NewComplaintId(objectId: seq<Byte>): (r: string)
    requires |objectId| == 12
    ensures |r| == 12 && r[..4] == "CMP-"
  {
    "CMP-" + ToUpper(HexOfBytes(objectId)[16..])
  }

  predicate IsTicketCode(s: string) {
    |s| == 12 && s[..4] == "CMP-" && forall i :: 4 <= i < 12 ==> IsUpperHexDigit(s[i])
  }

  /** Every character of `s` is an upper-case hex digit. */
  predicate AllUpperHex(s: string) {
    forall i :: 0 <= i < |s| ==> IsUpperHexDigit(s[i])
  }

  /** Reads upper-case hex digit pairs back into bytes; a trailing odd digit is dropped. */
  function DecodeHex(s: string): (bs: seq<Byte>)
    requires AllUpperHex(s)
    ensures |bs| == |s| / 2
  {
    if |s| < 2 then [] else [UpperHexValue(s[0]) * 16 + UpperHexValue(s[1])] + DecodeHex(s[2..])
  }

  /** The two upper-cased digits of one byte read back as that byte. */
  lemma HexPairDecodes(b: Byte)
    ensures IsUpperHexDigit(UpperChar(HexLower(b / 16))) && IsUpperHexDigit(UpperChar(HexLower(b % 16)))
    ensures UpperHexValue(UpperChar(HexLower(b / 16))) * 16 + UpperHexValue(UpperChar(HexLower(b % 16))) == b
  {
    UpperHexOfLower(b / 16);
    UpperHexOfLower(b % 16);
  }

  /** Two upper-case hex digits per byte. */
  function UpperHexOfBytes(bs: seq<Byte>): (r: string)
    ensures |r| == 2 * |bs|
  {
    if bs == [] then []
    else [UpperChar(HexLower(bs[0] / 16)), UpperChar(HexLower(bs[0] % 16))] + UpperHexOfBytes(bs[1..])
  }

  /** Upper-casing the lower-case hex of some bytes gives their upper-case hex. */
  lemma {:induction false} ToUpperHexOfBytes(bs: seq<Byte>)
    ensures ToUpper(HexOfBytes(bs)) == UpperHexOfBytes(bs)
  {
    if bs != [] {
      ToUpperHexOfBytes(bs[1..]);
      var h := HexOfBytes(bs);
      assert h[2..] == HexOfBytes(bs[1..]);
      assert ToUpper(h)[2..] == ToUpper(h[2..]);
    }
  }

  /** Upper-case hex holds only upper-case hex digits. */
  lemma {:induction false} UpperHexDigits(bs: seq<Byte>)
    ensures AllUpperHex(UpperHexOfBytes(bs))
  {
    if bs != [] {
      var u := UpperHexOfBytes(bs);
      HexPairDecodes(bs[0]);
      UpperHexDigits(bs[1..]);
      forall i | 2 <= i < |u| ensures IsUpperHexDigit(u[i]) {
        assert u[i] == UpperHexOfBytes(bs[1..])[i - 2];
      }
    }
  }

  /** Upper-case hex reads back as the bytes. */
  lemma {:induction false} DecodeUpperHex(bs: seq<Byte>)
    requires AllUpperHex(UpperHexOfBytes(bs))
    ensures DecodeHex(UpperHexOfBytes(bs)) == bs
  {
    if bs != [] {
      var hi := UpperChar(HexLower(bs[0] / 16));
      var lo := UpperChar(HexLower(bs[0] % 16));
      var rest := UpperHexOfBytes(bs[1..]);
      HexPairDecodes(bs[0]);
      UpperHexDigits(bs[1..]);
      DecodeUpperHex(bs[1..]);
      assert UpperHexOfBytes(bs) == [hi, lo] + rest;
      DecodeHexPair(bs, hi, lo, rest);
    }
  }

  /** Decoding reads the leading pair of digits as the first byte, then the rest. */
  lemma DecodeHexPair(bs: seq<Byte>, hi: char, lo: char, rest: string)
    requires bs != [] && IsUpperHexDigit(hi) && IsUpperHexDigit(lo) && AllUpperHex(rest)
    requires UpperHexValue(hi) * 16 + UpperHexValue(lo) == bs[0] && DecodeHex(rest) == bs[1..]
    ensures AllUpperHex([hi, lo] + rest)
    ensures DecodeHex([hi, lo] + rest) == bs
  {
    var s := [hi, lo] + rest;
    assert s[2..] == rest;
    assert bs == [bs[0]] + bs[1..];
  }

  /** The upper-cased hex of some bytes holds only upper-case hex digits and reads back as the bytes. */
  lemma DecodeUpperHexOfBytes(bs: seq<Byte>)
    ensures AllUpperHex(ToUpper(HexOfBytes(bs)))
    ensures DecodeHex(ToUpper(HexOfBytes(bs))) == bs
  {
    ToUpperHexOfBytes(bs);
    UpperHexDigits(bs);
    DecodeUpperHex(bs);
  }

  /** A new ticket code is well formed, and its suffix spells the last four bytes of the object id. */
  lemma NewComplaintIdSpellsSuffix(objectId: seq<Byte>)
    requires |objectId| == 12
    ensures IsTicketCode(NewComplaintId(objectId))
    ensures DecodeHex(NewComplaintId(objectId)[4..]) == objectId[8..]
  {
    assert objectId == objectId[..8] + objectId[8..];
    HexOfBytesAppend(objectId[..8], objectId[8..]);
    assert HexOfBytes(objectId)[16..] == HexOfBytes(objectId[8..]);
    DecodeUpperHexOfBytes(objectId[8..]);
    assert NewComplaintId(objectId)[4..] == ToUpper(HexOfBytes(objectId[8..]));
  }

  /** Two fresh ids give the same ticket code exactly when their last four bytes agree. */
  lemma NewComplaintIdCollision(a: seq<Byte>, b: seq<Byte>)
    requires |a| == 12 && |b| == 12
    ensures NewComplaintId(a) == NewComplaintId(b) <==> a[8..] == b[8..]
  {
    NewComplaintIdSpellsSuffix(a);
    NewComplaintIdSpellsSuffix(b);
    if a[8..] == b[8..] {
      assert a == a[..8] + a[8..] && b == b[..8] + b[8..];
      HexOfBytesAppend(a[..8], a[8..]);
      HexOfBytesAppend(b[..8], b[8..]);
      assert HexOfBytes(a)[16..] == HexOfBytes(b)[16..];
    }
  }

  // ---------------------------------------------------------------------------
  // SLA policy

  datatype SlaHours = SlaHours(response: nat, resolution: nat)

  /** The hour budgets per priority used by the pre-save hook. */
  function SlaConfig(p: Priority): (h: SlaHours)
    ensures 0 < h.response < h.resolution
  {
    match p
    case Critical => SlaHours(1, 4)
    case High => SlaHours(4, 24)
    case Medium => SlaHours(8, 72)
    case Low => SlaHours(24, 168)
  }

  function Urgency(p: Priority): nat {
    match p
    case Low => 0
    case Medium => 1
    case High => 2
    case Critical => 3
  }

  /** A more urgent priority gets strictly shorter budgets. */
  lemma SlaShrinksWithUrgency(p: Priority, q: Priority)
    requires Urgency(p) < Urgency(q)
    ensures SlaConfig(q).response < SlaConfig(p).response
    ensures SlaConfig(q).resolution < SlaConfig(p).resolution
  {
  }

  /** The `sla` block the hook writes at `now`. */
  function SlaAt(p: Priority, now: int): (t: SlaTerms)
    ensures t.responseTime == SlaConfig(p).response && t.resolutionTime == SlaConfig(p).resolution
    ensures now < t.responseDeadline < t.resolutionDeadline
    ensures t.resolutionDeadline - t.responseDeadline == (t.resolutionTime - t.responseTime) * MsPerHour
  {
    var h := SlaConfig(p);
    SlaTerms(h.response, h.resolution, now + h.response * MsPerHour, now + h.resolution * MsPerHour)
  }

  function CreatedEntry(now: int): TimelineEntry {
    TimelineEntry("created", None, now, "Complaint created")
  }

  // ---------------------------------------------------------------------------
  // Resolution time and breach

  /** The `resolutionTimeInDays` virtual: whole days from creation to resolution, or null. */
  function ResolutionTimeInDays(c: Complaint): (r: Option<int>)
    ensures r.Some? <==> c.resolution.resolvedAt.Some?
    ensures r.Some? ==> var diff := c.resolution.resolvedAt.value - c.createdAt;
                        r.value * MsPerDay <= diff < (r.value + 1) * MsPerDay
  {
    match c.resolution.resolvedAt
    case Some(at) => Some((at - c.createdAt) / MsPerDay)
    case None => None
  }

  /** The condition `checkSLABreach` tests: still open and past the resolution deadline. */
  predicate IsOverdue(status: Status, sla: Option<SlaTerms>, now: int) {
    status != Resolved && status != Closed && sla.Some? && now > sla.value.resolutionDeadline
  }

  // ---------------------------------------------------------------------------
  // Schema validation

  /** The `min: 1, max: 5` bounds of the rating path. */
  predicate ValidRating(r: real) { 1.0 <= r <= 5.0 }

  /**
   * What schema validation guarantees of every stored complaint, however it
   * was stored: `insertMany` runs the validators and the defaults but not the
   * pre-save hook, so a complaint stored that way has no SLA block and no
   * `created` entry.
   */
  ghost predicate WellFormed(c: Complaint) {
    && IsTicketCode(c.complaintId)
    && 0 < |c.title| <= MaxTitleLength
    && |c.description| > 0
    && (c.resolution.satisfactionRating.Some? ==> ValidRating(c.resolution.satisfactionRating.value))
  }

  /** What the pre-save hook adds on a complaint's first `save()`. */
  ghost predicate CreationRecorded(c: Complaint) {
    && |c.timeline| >= 1 && c.timeline[0].action == "created"
    && c.sla.Some? && c.sla.value.responseDeadline < c.sla.value.resolutionDeadline
  }

  /** The raw fields of a creation request. */
  datatype ComplaintInput = ComplaintInput(
    title: string,
    description: string,
    department: string,
    category: string,
    reporterName: string,
    reporterEmail: string,
    reporterPhone: Option<string>,
    reporterUserId: Option<UserId>)

  /** The schema paths a creation request is validated on. */
  datatype InputPath = TitlePath | DescriptionPath | DepartmentPath | CategoryPath | ReporterNamePath | ReporterEmailPath

  /**
   * Whether schema validation rejects path `p` of a creation request.
   * `title` and `description` are trimmed before `required` and `maxlength`
   * run; the department is upper-cased and the e-mail lower-cased before
   * their checks.
   */
  predicate PathFails(inp: ComplaintInput, p: InputPath) {
    match p
    case TitlePath => Trim(inp.title) == [] || |Trim(inp.title)| > MaxTitleLength
    case DescriptionPath => Trim(inp.description) == []
    case DepartmentPath => ParseDepartment(inp.department).None?
    case CategoryPath => ParseCategory(inp.category).None?
    case ReporterNamePath => inp.reporterName == []
    case ReporterEmailPath => !IsReporterEmail(ToLower(inp.reporterEmail))
  }

  const AllInputPaths: set<InputPath> :=
    {TitlePath, DescriptionPath, DepartmentPath, CategoryPath, ReporterNamePath, ReporterEmailPath}

  /** The failing paths (the keys of the validation error's `errors` object). */
  function ValidationErrors(inp: ComplaintInput): (errs: set<InputPath>)
    ensures forall p :: p in errs <==> PathFails(inp, p)
  {
    set p | p in AllInputPaths && PathFails(inp, p)
  }

  // ---------------------------------------------------------------------------
  // The mutable document

  class ComplaintDocument {
    const key: ObjectKey
    const complaintId: string
    const title: string
    const description: string
    const department: Department
    const category: Category
    const reportedBy: Reporter
    const tags: seq<string>
    var priority: Priority
    var status: Status
    var assignedTo: Option<UserId>
    var attachments: seq<Attachment>
    var comments: seq<Comment>
    var resolution: Resolution
    var timeline: seq<TimelineEntry>
    var sla: Option<SlaTerms>
    var isBreached: bool
    var createdAt: int
    var updatedAt: int
    /** Mongoose's `isNew`: true until the first save. */
    var isNew: bool

    function Record(): Complaint
      reads this
    {
      Complaint(key, complaintId, title, description, department, category, priority, status,
                assignedTo, reportedBy, attachments, comments, resolution, timeline, sla,
                isBreached, tags, createdAt, updatedAt)
    }

    /** A saved document that satisfies the schema. */
    ghost predicate Valid()
      reads this
    {
      !isNew && WellFormed(Record())
    }

    /** `new Complaint({...})`: the schema defaults, not yet saved. */
    constructor (key: ObjectKey, objectId: seq<Byte>, title: string, description: string,
                 department: Department, category: Category, priority: Priority, reportedBy: Reporter)
      requires |objectId| == 12
      ensures this.key == key && complaintId == NewComplaintId(objectId)
      ensures this.title == title && this.description == description
      ensures this.department == department && this.category == category && this.reportedBy == reportedBy
      ensures this.priority == priority && status == Pending && assignedTo == None
      ensures attachments == [] && comments == [] && timeline == [] && tags == []
      ensures resolution == NoResolution && sla == None && !isBreached && isNew
    {
      this.key := key;
      complaintId := NewComplaintId(objectId);
      this.title := title;
      this.description := description;
      this.department := department;
      this.category := category;
      this.reportedBy := reportedBy;
      tags := [];
      this.priority := priority;
      status := Pending;
      assignedTo := None;
      attachments := [];
      comments := [];
      resolution := NoResolution;
      timeline := [];
      sla := None;
      isBreached := false;
      createdAt := 0;
      updatedAt := 0;
      isNew := true;
    }

    /**
     * `save()` at time `now`: on the first save the pre-save hook fixes the
     * SLA block from the current priority and appends the single `created`
     * entry; later saves leave both alone. The timestamps plugin stamps
     * `createdAt` on insert and `updatedAt` on every save.
     */
    method Save(now: int)
      modifies this`sla, this`timeline, this`createdAt, this`updatedAt, this`isNew
      ensures old(isNew) ==>
                sla == Some(SlaAt(priority, now)) && timeline == old(timeline) + [CreatedEntry(now)] && createdAt == now
      ensures !old(isNew) ==> sla == old(sla) && timeline == old(timeline) && createdAt == old(createdAt)
      ensures updatedAt == now && !isNew
    {
      if isNew {
        sla := Some(SlaAt(priority, now));
        timeline := timeline + [CreatedEntry(now)];
        createdAt := now;
      }
      updatedAt := now;
      isNew := false;
    }

    /**
     * `checkSLABreach()` at time `now`: reports whether the complaint is open
     * and past its resolution deadline, and latches `isBreached` when it is.
     * It never clears the flag.
     */
    method CheckSLABreach(now: int) returns (breached: bool)
      modifies this`isBreached
      ensures breached == IsOverdue(status, sla, now)
      ensures isBreached == (old(isBreached) || breached)
    {
      breached := false;
      if status != Resolved && status != Closed {
        if sla.Some? && now > sla.value.resolutionDeadline {
          isBreached := true;
          breached := true;
        }
      }
    }
  }

  // ---------------------------------------------------------------------------
  // Corpus predicates shared by the aggregations

  function HasStatus(s: Status): Complaint -> bool { (c: Complaint) => c.status == s }
  function HasPriority(p: Priority): Complaint -> bool { (c: Complaint) => c.priority == p }
  function HasDepartment(d: Department): Complaint -> bool { (c: Complaint) => c.department == d }
  function HasCategory(k: Category): Complaint -> bool { (c: Complaint) => c.category == k }

  function CountStatus(cs: seq<Complaint>, s: Status): nat { Count(cs, HasStatus(s)) }
  function CountPriority(cs: seq<Complaint>, p: Priority): nat { Count(cs, HasPriority(p)) }

  /** Every complaint has exactly one of the five statuses. */
  lemma {:induction false} StatusPartition(cs: seq<Complaint>)
    ensures CountStatus(cs, Pending) + CountStatus(cs, InProgress) + CountStatus(cs, Resolved)
          + CountStatus(cs, Escalated) + CountStatus(cs, Closed) == |cs|
  {
    if cs != [] {
      StatusPartition(cs[1..]);
    }
  }

  /** Every complaint has exactly one of the four priorities. */
  lemma {:induction false} PriorityPartition(cs: seq<Complaint>)
    ensures CountPriority(cs, Critical) + CountPriority(cs, High) + CountPriority(cs, Medium)
          + CountPriority(cs, Low) == |cs|
  {
    if cs != [] {
      PriorityPartition(cs[1..]);
    }
  }

  /** `createdAt` within `[start, end]`, applied only when both bounds are given. */
  predicate InDateRange(c: Complaint, startDate: Option<int>, endDate: Option<int>) {
    startDate.Some? && endDate.Some? ==> startDate.value <= c.createdAt <= endDate.value
  }

  /** Days from creation to resolution, for complaints that have a resolution time. */
  function ResolutionDays(cs: seq<Complaint>): (ds: seq<real>)
    ensures |ds| == Count(cs, (c: Complaint) => c.resolution.resolvedAt.Some?)
  {
    if cs == [] then []
    else
      var rest := ResolutionDays(cs[1..]);
      match cs[0].resolution.resolvedAt
      case Some(at) => [((at - cs[0].createdAt) as real) / (MsPerDay as real)] + rest
      case None => rest
  }

  /** The satisfaction ratings that are present. */
  function Ratings(cs: seq<Complaint>): (rs: seq<real>)
    ensures |rs| == Count(cs, (c: Complaint) => c.resolution.satisfactionRating.Some?)
  {
    if cs == [] then []
    else
      var rest := Ratings(cs[1..]);
      match cs[0].resolution.satisfactionRating
      case Some(r) => [r] + rest
      case None => rest
  }

  // ---------------------------------------------------------------------------
  // getStatistics

  datatype DepartmentStatistics = DepartmentStatistics(
    total: nat, pending: nat, inProgress: nat, resolved: nat, escalated: nat,
    critical: nat, high: nat, medium: nat, low: nat,
    /** `$avg` of the SLA resolution budget in hours (null when no complaint has one). */
    avgResolutionTime: Option<real>)

  /** The SLA resolution budgets, in hours, of the complaints that have an SLA block. */
  function SlaResolutionHours(cs: seq<Complaint>): (hs: seq<real>)
    ensures hs == [] <==> forall i :: 0 <= i < |cs| ==> cs[i].sla.None?
  {
    if cs == [] then []
    else
      var rest := SlaResolutionHours(cs[1..]);
      match cs[0].sla
      case Some(t) => [t.resolutionTime as real] + rest
      case None => rest
  }

  /** The `$group` stage of `getStatistics` over one department's complaints. */
  function StatisticsOf(group: seq<Complaint>): (s: DepartmentStatistics)
    ensures s.total == |group|
    ensures s.pending == CountStatus(group, Pending) && s.inProgress == CountStatus(group, InProgress)
    ensures s.resolved == CountStatus(group, Resolved) && s.escalated == CountStatus(group, Escalated)
    ensures s.critical == CountPriority(group, Critical) && s.high == CountPriority(group, High)
    ensures s.medium == CountPriority(group, Medium) && s.low == CountPriority(group, Low)
    ensures s.critical + s.high + s.medium + s.low == s.total
    ensures s.pending + s.inProgress + s.resolved + s.escalated <= s.total
    ensures s.avgResolutionTime.Some? <==> exists i :: 0 <= i < |group| && group[i].sla.Some?
    ensures s.avgResolutionTime == Average(SlaResolutionHours(group))
  {
    StatusPartition(group);
    PriorityPartition(group);
    DepartmentStatistics(
      |group|,
      CountStatus(group, Pending), CountStatus(group, InProgress), CountStatus(group, Resolved),
      CountStatus(group, Escalated),
      CountPriority(group, Critical), CountPriority(group, High), CountPriority(group, Medium),
      CountPriority(group, Low),
      Average(SlaResolutionHours(group)))
  }

  predicate MatchesStatistics(c: Complaint, department: Option<Department>, startDate: Option<int>, endDate: Option<int>) {
    (department.Some? ==> c.department == department.value) && InDateRange(c, startDate, endDate)
  }

  lemma AllDepartmentsListed(d: Department)
    ensures d in AllDepartments
  {
  }

  /** A department has a non-empty group in `Where(cs, f)` exactly when some complaint of it satisfies `f`. */
  lemma DepartmentGroupNonEmpty(cs: seq<Complaint>, f: Complaint -> bool, d: Department)
    ensures Count(Where(cs, f), HasDepartment(d)) > 0 <==> exists i :: 0 <= i < |cs| && cs[i].department == d && f(cs[i])
  {
    var w := Where(cs, f);
    if Count(w, HasDepartment(d)) > 0 {
      var j :| 0 <= j < |w| && HasDepartment(d)(w[j]);
      assert w[j] in w;
      var i :| 0 <= i < |cs| && cs[i] == w[j];
    }
  }

  /** The `$match` of the statistics, as a filter. */
  function StatisticsFilter(department: Option<Department>, startDate: Option<int>, endDate: Option<int>)
    : Complaint -> bool
  {
    (c: Complaint) => MatchesStatistics(c, department, startDate, endDate)
  }

  /** Some complaint of department `d` passes the `$match` of the statistics. */
  predicate StatisticsMatchIn(cs: seq<Complaint>, department: Option<Department>, startDate: Option<int>,
                              endDate: Option<int>, d: Department) {
    exists i :: 0 <= i < |cs| && cs[i].department == d && MatchesStatistics(cs[i], department, startDate, endDate)
  }

  /** The matching complaints of department `d`, the input of its `$group`. */
  function StatisticsGroup(cs: seq<Complaint>, department: Option<Department>, startDate: Option<int>,
                           endDate: Option<int>, d: Department): seq<Complaint> {
    Where(Where(cs, StatisticsFilter(department, startDate, endDate)), HasDepartment(d))
  }

  /**
   * `Complaint.getStatistics(department, startDate, endDate)`: one group per
   * department that has a matching complaint, computed over those complaints.
   */
  function GetStatistics(cs: seq<Complaint>, department: Option<Department>, startDate: Option<int>, endDate: Option<int>)
    : (r: map<Department, DepartmentStatistics>)
    ensures forall d :: d in r <==> StatisticsMatchIn(cs, department, startDate, endDate, d)
    ensures forall d | d in r :: r[d] == StatisticsOf(StatisticsGroup(cs, department, startDate, endDate, d))
  {
    assert forall d :: d in AllDepartments by {
      forall d: Department ensures d in AllDepartments { AllDepartmentsListed(d); }
    }
    map d | d in AllDepartments && StatisticsMatchIn(cs, department, startDate, endDate, d)
      :: StatisticsOf(StatisticsGroup(cs, department, startDate, endDate, d))
  }

  /**
   * In every group the status counts other than `closed` add up to at most
   * the total, and the four priority counts add up to exactly the total.
   */
  lemma StatisticsBalance(cs: seq<Complaint>, department: Option<Department>, startDate: Option<int>, endDate: Option<int>)
    ensures forall d | d in GetStatistics(cs, department, startDate, endDate) ::
      var s := GetStatistics(cs, department, startDate, endDate)[d];
      && s.total > 0
      && s.pending + s.inProgress + s.resolved + s.escalated <= s.total
      && s.critical + s.high + s.medium + s.low == s.total
  {
    var r := GetStatistics(cs, department, startDate, endDate);
    var f := StatisticsFilter(department, startDate, endDate);
    forall d | d in r
      ensures r[d].total > 0
      ensures r[d].pending + r[d].inProgress + r[d].resolved + r[d].escalated <= r[d].total
      ensures r[d].critical + r[d].high + r[d].medium + r[d].low == r[d].total
    {
      var g := StatisticsGroup(cs, department, startDate, endDate, d);
      DepartmentGroupNonEmpty(cs, f, d);
      StatusPartition(g);
      PriorityPartition(g);
    }
  }
}
