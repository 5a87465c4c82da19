// The complaint handlers: the keyword priority classifier of creation and the
// lifecycle operations that load a complaint, change it and save it.
//
// A handler receives the result of `findById` (null when there is no such
// complaint), the acting user `actor` (`req.user.id`) and the clock reading
// `now`. A save that fails schema validation throws; the handler then answers
// with the server error and nothing is stored, so the model leaves the
// document unchanged on that path.

module ComplaintController {
  import opened Wrappers
  import opened Text
  import opened Complaints
  import Users
  import opened Http

  const ComplaintNotFound := NotFound("Complaint not found")
  const AgentNotFound := NotFound("Agent not found")
  const OnlyResolvedRated := BadRequest("Can only rate resolved complaints")

  // ---------------------------------------------------------------------------
  // Keyword priority classifier

  const UrgentKeywords: seq<string> := ["urgent", "critical", "emergency", "immediate"]
  const HighKeywords: seq<string> := ["important", "asap", "quickly"]

  /** `keywords.some(k => text.includes(k))`. */
  function MentionsAny(text: string, keywords: seq<string>): (b: bool)
    ensures b <==> exists i :: 0 <= i < |keywords| && Contains(text, keywords[i])
  {
    if keywords == [] then false
    else Contains(text, keywords[0]) || MentionsAny(text, keywords[1..])
  }

  /** The lower-cased text the classifier searches: title, one space, description. */
  function CombinedText(title: string, description: string): string {
    ToLower(title + " " + description)
  }

  /**
   * The priority `createComplaint` chooses: critical when an urgent keyword
   * occurs, otherwise high when a high keyword occurs, otherwise medium.
   */
  function ClassifyPriority(title: string, description: string): (p: Priority)
    ensures p != Low
    ensures p == Critical <==>
              exists i :: 0 <= i < |UrgentKeywords| && Contains(CombinedText(title, description), UrgentKeywords[i])
    ensures p == High <==>
              && (forall i :: 0 <= i < |UrgentKeywords| ==> !Contains(CombinedText(title, description), UrgentKeywords[i]))
              && (exists i :: 0 <= i < |HighKeywords| && Contains(CombinedText(title, description), HighKeywords[i]))
  {
    var text := CombinedText(title, description);
    if MentionsAny(text, UrgentKeywords) then Critical
    else if MentionsAny(text, HighKeywords) then High
    else Medium
  }

  lemma KeywordsAreLowerCase()
    ensures forall i :: 0 <= i < |UrgentKeywords| ==> ToLower(UrgentKeywords[i]) == UrgentKeywords[i]
    ensures forall i :: 0 <= i < |HighKeywords| ==> ToLower(HighKeywords[i]) == HighKeywords[i]
  {
    forall i | 0 <= i < |UrgentKeywords| ensures ToLower(UrgentKeywords[i]) == UrgentKeywords[i] {
      ToLowerFixesLower(UrgentKeywords[i]);
    }
    forall i | 0 <= i < |HighKeywords| ensures ToLower(HighKeywords[i]) == HighKeywords[i] {
      ToLowerFixesLower(HighKeywords[i]);
    }
  }

  /** Concatenation regrouped around a keyword. */
  lemma Regroup(a: string, b: string, c: string, d: string)
    ensures a + (b + c + d) == (a + b) + c + d
    ensures (a + b + c) + d == a + b + (c + d)
  {
  }

  /** A keyword mentioned in the title or the description is found in the combined text. */
  lemma KeywordFound(before: string, k: string, after: string)
    requires ToLower(k) == k
    ensures Contains(ToLower(before + k + after), k)
  {
    ToLowerAppend(before + k, after);
    ToLowerAppend(before, k);
    ContainsInConcat(ToLower(before), k, ToLower(after));
  }

  /** An urgent keyword anywhere in the title makes the complaint critical, whatever else it says. */
  lemma UrgentTitleIsCritical(before: string, i: nat, after: string, description: string)
    requires i < |UrgentKeywords|
    ensures ClassifyPriority(before + UrgentKeywords[i] + after, description) == Critical
  {
    var k := UrgentKeywords[i];
    KeywordsAreLowerCase();
    var title := before + k + after;
    Regroup(before, k, after, " " + description);
    assert title + " " + description == title + (" " + description);
    KeywordFound(before, k, after + (" " + description));
    assert Contains(CombinedText(title, description), k);
  }

  /**
   * A high keyword in the description, with no urgent keyword anywhere,
   * makes the complaint high.
   */
  lemma HighDescriptionIsHigh(title: string, before: string, i: nat, after: string)
    requires i < |HighKeywords|
    requires forall j :: 0 <= j < |UrgentKeywords| ==>
               !Contains(CombinedText(title, before + HighKeywords[i] + after), UrgentKeywords[j])
    ensures ClassifyPriority(title, before + HighKeywords[i] + after) == High
  {
    var k := HighKeywords[i];
    KeywordsAreLowerCase();
    var description := before + k + after;
    Regroup(title + " ", before, k, after);
    KeywordFound(title + " " + before, k, after);
    var text := CombinedText(title, description);
    assert Contains(text, HighKeywords[i]);
    assert MentionsAny(text, HighKeywords);
    assert !MentionsAny(text, UrgentKeywords);
  }

  // ---------------------------------------------------------------------------
  // Creation

  lemma AcceptedDepartment(inp: ComplaintInput)
    requires ValidationErrors(inp) == {}
    ensures ParseDepartment(inp.department).Some?
  {
    assert !PathFails(inp, DepartmentPath);
  }

  lemma AcceptedCategory(inp: ComplaintInput)
    requires ValidationErrors(inp) == {}
    ensures ParseCategory(inp.category).Some?
  {
    assert !PathFails(inp, CategoryPath);
  }

  lemma AcceptedText(inp: ComplaintInput)
    requires ValidationErrors(inp) == {}
    ensures 0 < |Trim(inp.title)| <= MaxTitleLength && |Trim(inp.description)| > 0
  {
    assert !PathFails(inp, TitlePath);
    assert !PathFails(inp, DescriptionPath);
  }

  /** `Complaint.create` with values that pass validation: construct, then the first save. */
  method NewDocument(key: ObjectKey, objectId: seq<Byte>, title: string, description: string,
                     department: Department, category: Category, priority: Priority, reporter: Reporter, now: int)
    returns (doc: ComplaintDocument)
    requires |objectId| == 12 && 0 < |title| <= MaxTitleLength && |description| > 0
    ensures fresh(doc) && doc.Valid() && CreationRecorded(doc.Record())
    ensures doc.Record() == Complaint(key, NewComplaintId(objectId), title, description, department, category,
                                      priority, Pending, None, reporter, [], [], NoResolution, [CreatedEntry(now)],
                                      Some(SlaAt(priority, now)), false, [], now, now)
  {
    NewComplaintIdSpellsSuffix(objectId);
    doc := new ComplaintDocument(key, objectId, title, description, department, category, priority, reporter);
    doc.Save(now);
  }

  /**
   * `createComplaint`: classify the priority, build the document and save it.
   * A request that fails validation yields the failing paths and no document.
   */
  method CreateComplaint(inp: ComplaintInput, key: ObjectKey, objectId: seq<Byte>, now: int)
    returns (r: Result<ComplaintDocument, set<InputPath>>)
    requires |objectId| == 12
    ensures ValidationErrors(inp) != {} ==> r == Err(ValidationErrors(inp))
    ensures ValidationErrors(inp) == {} ==> r.Ok? && fresh(r.value) && r.value.Valid()
    ensures r.Ok? ==> CreationRecorded(r.value.Record())
    ensures r.Ok? ==>
              && ParseDepartment(inp.department) == Some(r.value.department)
              && ParseCategory(inp.category) == Some(r.value.category)
              && r.value.Record() == Complaint(
                   key, NewComplaintId(objectId), Trim(inp.title), Trim(inp.description),
                   r.value.department, r.value.category,
                   ClassifyPriority(inp.title, inp.description), Pending, None,
                   Reporter(inp.reporterName, ToLower(inp.reporterEmail), inp.reporterPhone, inp.reporterUserId),
                   [], [], NoResolution, [CreatedEntry(now)],
                   Some(SlaAt(ClassifyPriority(inp.title, inp.description), now)), false, [], now, now)
  {
    var errs := ValidationErrors(inp);
    if errs != {} {
      return Err(errs);
    }
    AcceptedDepartment(inp);
    AcceptedCategory(inp);
    AcceptedText(inp);
    var priority := ClassifyPriority(inp.title, inp.description);
    var reporter := Reporter(inp.reporterName, ToLower(inp.reporterEmail), inp.reporterPhone, inp.reporterUserId);
    var doc := NewDocument(key, objectId, Trim(inp.title), Trim(inp.description),
                           ParseDepartment(inp.department).value, ParseCategory(inp.category).value,
                           priority, reporter, now);
    return Ok(doc);
  }

  // ---------------------------------------------------------------------------
  // Lifecycle handlers

  function Entry(action: string, actor: UserId, now: int, details: string): TimelineEntry {
    TimelineEntry(action, Some(actor), now, details)
  }

  /**
   * `updateComplaintStatus`: any status may follow any other. An unknown
   * status string fails validation on save.
   */
  method UpdateComplaintStatus(complaint: ComplaintDocument?, status: string, actor: UserId, now: int)
    returns (o: Outcome)
    requires complaint != null ==> complaint.Valid()
    modifies complaint
    ensures complaint == null ==> o == ComplaintNotFound
    ensures complaint != null ==> complaint.Valid()
    ensures complaint != null && ParseStatus(status).None? ==> o == ServerError && unchanged(complaint)
    ensures complaint != null && ParseStatus(status).Some? ==>
              o == Done && complaint.Record() == old(complaint.Record()).(
                status := ParseStatus(status).value,
                timeline := old(complaint.timeline) + [Entry("status_changed", actor, now, "Status changed to " + status)],
                updatedAt := now)
  {
    if complaint == null {
      return ComplaintNotFound;
    }
    var parsed := ParseStatus(status);
    if parsed.None? {
      return ServerError;
    }
    complaint.status := parsed.value;
    complaint.timeline := complaint.timeline + [Entry("status_changed", actor, now, "Status changed to " + status)];
    complaint.Save(now);
    return Done;
  }

  /**
   * `assignComplaint`: the complaint is checked before the agent. The agent's
   * list of assigned complaints is appended to, so re-assigning the same
   * complaint lists it twice.
   */
  method AssignComplaint(complaint: ComplaintDocument?, agent: Users.UserDocument?, actor: UserId, now: int)
    returns (o: Outcome)
    requires complaint != null ==> complaint.Valid()
    requires agent != null ==> !agent.isNew
    modifies complaint, agent
    ensures complaint == null ==> o == ComplaintNotFound && (agent != null ==> unchanged(agent))
    ensures complaint != null && agent == null ==> o == AgentNotFound && unchanged(complaint)
    ensures complaint != null ==> complaint.Valid()
    ensures complaint != null && agent != null ==> o == Done
    ensures complaint != null && agent != null ==>
              complaint.Record() == old(complaint.Record()).(
                assignedTo := Some(agent.key),
                status := InProgress,
                timeline := old(complaint.timeline) + [Entry("assigned", actor, now, "Assigned to " + old(agent.name))],
                updatedAt := now)
    ensures complaint != null && agent != null ==>
              && agent.assignedComplaints == old(agent.assignedComplaints) + [complaint.key]
              && agent.Record() == old(agent.Record()).(updatedAt := now)
  {
    if complaint == null {
      return ComplaintNotFound;
    }
    if agent == null {
      return AgentNotFound;
    }
    Assign(complaint, agent, actor, now);
    return Done;
  }

  /** The assignment proper, once both the complaint and the agent were found. */
  method Assign(complaint: ComplaintDocument, agent: Users.UserDocument, actor: UserId, now: int)
    requires complaint.Valid() && !agent.isNew
    modifies complaint, agent
    ensures complaint.Valid()
    ensures complaint.Record() == old(complaint.Record()).(
              assignedTo := Some(agent.key),
              status := InProgress,
              timeline := old(complaint.timeline) + [Entry("assigned", actor, now, "Assigned to " + old(agent.name))],
              updatedAt := now)
    ensures agent.assignedComplaints == old(agent.assignedComplaints) + [complaint.key]
    ensures agent.Record() == old(agent.Record()).(updatedAt := now)
  {
    complaint.assignedTo := Some(agent.key);
    complaint.status := InProgress;
    complaint.timeline := complaint.timeline + [Entry("assigned", actor, now, "Assigned to " + agent.name)];
    complaint.Save(now);
    agent.RecordAssignment(complaint.key, now);
  }

  /**
   * The assignment as written. The user schema declares no
   * `assignedComplaints` path, so `agent.assignedComplaints` reads as
   * undefined and the `push` throws a TypeError once the complaint has been
   * saved; `asyncHandler` turns it into a 500. The complaint stays assigned
   * and the agent is not touched.
   */
  method AssignAsWritten(complaint: ComplaintDocument, agent: Users.UserDocument, actor: UserId, now: int)
    returns (o: Outcome)
    requires complaint.Valid() && !agent.isNew
    modifies complaint
    ensures o == ServerError
    ensures complaint.Valid()
    ensures complaint.Record() == old(complaint.Record()).(
              assignedTo := Some(agent.key),
              status := InProgress,
              timeline := old(complaint.timeline) + [Entry("assigned", actor, now, "Assigned to " + agent.name)],
              updatedAt := now)
    ensures unchanged(agent)
  {
    complaint.assignedTo := Some(agent.key);
    complaint.status := InProgress;
    complaint.timeline := complaint.timeline + [Entry("assigned", actor, now, "Assigned to " + agent.name)];
    complaint.Save(now);
    return ServerError;
  }

  /** `addComment`: one more comment; status and timeline stay as they are. */
  method AddComment(complaint: ComplaintDocument?, text: string, actor: UserId, now: int) returns (o: Outcome)
    requires complaint != null ==> complaint.Valid()
    modifies complaint
    ensures complaint == null ==> o == ComplaintNotFound
    ensures complaint != null ==> complaint.Valid()
    ensures complaint != null ==>
              o == Done && complaint.Record() == old(complaint.Record()).(
                comments := old(complaint.comments) + [Comment(actor, text, now)],
                updatedAt := now)
  {
    if complaint == null {
      return ComplaintNotFound;
    }
    complaint.comments := complaint.comments + [Comment(actor, text, now)];
    complaint.Save(now);
    return Done;
  }

  /**
   * `resolveComplaint`: from any status, including an already resolved one.
   * The resolution block is replaced as a whole, so an earlier rating is lost.
   */
  method ResolveComplaint(complaint: ComplaintDocument?, note: Option<string>, actor: UserId, now: int)
    returns (o: Outcome)
    requires complaint != null ==> complaint.Valid()
    modifies complaint
    ensures complaint == null ==> o == ComplaintNotFound
    ensures complaint != null ==> complaint.Valid()
    ensures complaint != null ==>
              o == Done && complaint.Record() == old(complaint.Record()).(
                status := Resolved,
                resolution := Resolution(Some(actor), Some(now), note, None),
                timeline := old(complaint.timeline) + [Entry("resolved", actor, now, "Complaint resolved")],
                updatedAt := now)
  {
    if complaint == null {
      return ComplaintNotFound;
    }
    Resolve(complaint, note, actor, now);
    return Done;
  }

  /** The resolution proper, once the complaint was found. */
  method Resolve(complaint: ComplaintDocument, note: Option<string>, actor: UserId, now: int)
    requires complaint.Valid()
    modifies complaint
    ensures complaint.Valid()
    ensures complaint.Record() == old(complaint.Record()).(
              status := Resolved,
              resolution := Resolution(Some(actor), Some(now), note, None),
              timeline := old(complaint.timeline) + [Entry("resolved", actor, now, "Complaint resolved")],
              updatedAt := now)
  {
    complaint.status := Resolved;
    complaint.resolution := Resolution(Some(actor), Some(now), note, None);
    complaint.timeline := complaint.timeline + [Entry("resolved", actor, now, "Complaint resolved")];
    complaint.Save(now);
  }

  /**
   * `escalateComplaint`: from any status; the priority becomes critical but
   * the SLA deadlines fixed at creation stay as they were.
   */
  method EscalateComplaint(complaint: ComplaintDocument?, actor: UserId, now: int) returns (o: Outcome)
    requires complaint != null ==> complaint.Valid()
    modifies complaint
    ensures complaint == null ==> o == ComplaintNotFound
    ensures complaint != null ==> complaint.Valid() && complaint.sla == old(complaint.sla)
    ensures complaint != null ==>
              o == Done && complaint.Record() == old(complaint.Record()).(
                status := Escalated,
                priority := Critical,
                timeline := old(complaint.timeline) + [Entry("escalated", actor, now, "Complaint escalated to higher priority")],
                updatedAt := now)
  {
    if complaint == null {
      return ComplaintNotFound;
    }
    complaint.status := Escalated;
    complaint.priority := Critical;
    complaint.timeline := complaint.timeline + [Entry("escalated", actor, now, "Complaint escalated to higher priority")];
    complaint.Save(now);
    return Done;
  }

  /** `uploadAttachment`: one more attachment; status and timeline stay as they are. */
  method UploadAttachment(complaint: ComplaintDocument?, filename: string, url: string, now: int) returns (o: Outcome)
    requires complaint != null ==> complaint.Valid()
    modifies complaint
    ensures complaint == null ==> o == ComplaintNotFound
    ensures complaint != null ==> complaint.Valid()
    ensures complaint != null ==>
              o == Done && complaint.Record() == old(complaint.Record()).(
                attachments := old(complaint.attachments) + [Attachment(filename, url, now)],
                updatedAt := now)
  {
    if complaint == null {
      return ComplaintNotFound;
    }
    complaint.attachments := complaint.attachments + [Attachment(filename, url, now)];
    complaint.Save(now);
    return Done;
  }

  /**
   * `rateComplaint`: only a resolved complaint can be rated, and the schema
   * accepts ratings from 1 to 5, fractions included; only the rating changes.
   * An absent or null `rating` (None) unsets the stored rating and is
   * answered 200 like any accepted one.
   */
  method RateComplaint(complaint: ComplaintDocument?, rating: Option<real>, now: int) returns (o: Outcome)
    requires complaint != null ==> complaint.Valid()
    modifies complaint
    ensures complaint == null ==> o == ComplaintNotFound
    ensures complaint != null ==> complaint.Valid()
    ensures complaint != null && old(complaint.status) != Resolved ==> o == OnlyResolvedRated && unchanged(complaint)
    ensures complaint != null && old(complaint.status) == Resolved && rating.Some? && !ValidRating(rating.value) ==>
              o == ServerError && unchanged(complaint)
    ensures complaint != null && old(complaint.status) == Resolved && (rating.Some? ==> ValidRating(rating.value)) ==>
              o == Done && complaint.Record() == old(complaint.Record()).(
                resolution := old(complaint.resolution).(satisfactionRating := rating),
                updatedAt := now)
  {
    if complaint == null {
      return ComplaintNotFound;
    }
    if complaint.status != Resolved {
      return OnlyResolvedRated;
    }
    if rating.Some? && !ValidRating(rating.value) {
      return ServerError;
    }
    complaint.resolution := complaint.resolution.(satisfactionRating := rating);
    complaint.Save(now);
    return Done;
  }
}
