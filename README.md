# MNGL complaint ticketing — a Dafny model

This project models the core of the MNGL customer-complaint system. Citizens file complaints about the gas utility's
service. Each complaint gets a ticket code (`CMP-XXXXXXXX`), a priority derived from keywords, and SLA deadlines fixed
at creation. Staff then assign, comment on, resolve, escalate and rate complaints, and every change appends to the
complaint's timeline. Around that lifecycle the model also covers:

- **Backend**:
  - the analytics folds over the complaint store (overview, per-department rows, category and priority
    distributions, resolution times, SLA compliance, agent performance, export, custom range, real-time figures, and
    the month-by-department trend pivot);
  - the department documents with their agent lists and metrics;
  - the user document with its BP-number generator;
  - the authentication controller (signup, login, profile and profile update);
  - the `protect`/`authorize` guards.
- **Frontend**:
  - the `auth` slice of the Redux store, as a state machine;
  - the signup form's validation;
  - the private-route guard;
  - the admin dashboard's user-list operations.

The source's shape is kept. Mongoose documents that handlers change in place are classes, and their methods state the
complete new state: `Complaints.ComplaintDocument`, `Departments.DepartmentDocument`, `Users.UserDocument`, and the
store's `AuthSlice.AuthState`. The hook loop that generates BP numbers and the loop that pivots trends are methods with
loop invariants, proved equal to specification functions. Pure computations are functions whose contracts state their
meaning: aggregations, validators, decision chains, reducers and list transformations.

Conventions:

- Time is integer milliseconds, passed in as `now`.
- Ratios and averages are exact `real`s.
- A handler's HTTP answer is an `Http.Outcome`.
- The store is a `seq` or `map` of records.
- A stored complaint (`ComplaintDocument.Valid`) is promised only what the schema validators check. The SLA block and
  the 'created' entry come from the pre-save hook on the first `save()` (`Complaints.CreationRecorded`). Complaints
  stored by `insertMany` (the seeder) never get them, and the lifecycle handlers accept those complaints as well.
- Randomness, bcrypt and `jwt` are parameters: an `ObjectId`'s bytes, the `Math.random` draws, a `hash` function,
  a `compare` function and a `verify` function.

Files: `wrappers.dfy` (Option/Result), `text.dfy` (string built-ins), `aggregation.dfy` (pipeline folds), `http.dfy`,
`complaint.dfy`, `complaint_controller.dfy`, `analytics.dfy`, `department.dfy`, `department_controller.dfy`,
`user.dfy`, `auth_controller.dfy`, `auth_middleware.dfy`, `auth_slice.dfy`, `signup_form.dfy`, `private_route.dfy`,
`admin_dashboard.dfy`.

## Model

| member | source | states |
|---|---|---|
| Complaints.ParseDepartment | backend/models/Complaint.js:27-32 | a department string is accepted exactly when its upper-cased form is one of ORM, RRM, CRM, IT, PROJECT |
| Complaints.DepartmentCodeRoundTrip | backend/models/Complaint.js:30 | every department's code parses back to that department |
| Complaints.ParseCategory | backend/models/Complaint.js:33-44 | a category is accepted exactly when it is one of the six listed names, case-sensitively |
| Complaints.ParseStatus | backend/models/Complaint.js:51-56 | a status is accepted exactly when it is one of the five listed names |
| Complaints.HexOfBytesAppend | backend/models/Complaint.js:9-10 | hex-encoding distributes over concatenation of byte strings |
| Complaints.NewComplaintId | backend/models/Complaint.js:8-13 | a new complaint id has 12 characters and starts with "CMP-" |
| Complaints.DecodeUpperHexOfBytes | backend/models/Complaint.js:9-12 | upper-cased hex is all upper-hex digits and decodes back to the bytes |
| Complaints.ToUpperHexOfBytes | backend/models/Complaint.js:9-12 | upper-casing the hex string of some bytes is their upper-case hex |
| Complaints.HexPairDecodes | backend/models/Complaint.js:9-12 | the two upper-cased digits of a byte are hex digits whose value is the byte |
| Complaints.UpperHexDigits | backend/models/Complaint.js:9-12 | upper-case hex holds only upper-case hex digits |
| Complaints.DecodeUpperHex | backend/models/Complaint.js:9-12 | upper-case hex decodes back to the bytes |
| Complaints.DecodeHexPair | backend/models/Complaint.js:9-12 | a leading digit pair worth the first byte, followed by the encoding of the rest, decodes to all the bytes |
| Complaints.NewComplaintIdSpellsSuffix | backend/models/Complaint.js:8-13 | a new id is a ticket code whose 8 upper-hex digits decode to the last 4 bytes of the ObjectId |
| Complaints.NewComplaintIdCollision | backend/models/Complaint.js:9-12 | two ObjectIds give the same complaint id exactly when their last 4 bytes agree |
| Complaints.SlaConfig | backend/models/Complaint.js:163-168 | every priority's response hours are positive and below its resolution hours |
| Complaints.SlaShrinksWithUrgency | backend/models/Complaint.js:163-168 | a more urgent priority has strictly shorter response and resolution windows |
| Complaints.SlaAt | backend/models/Complaint.js:170-175 | the deadlines are now + hours·3,600,000 ms, with now < response deadline < resolution deadline |
| Complaints.ResolutionTimeInDays | backend/models/Complaint.js:149-155 | null without resolvedAt; otherwise the floor of the elapsed days, bounded by the millisecond difference |
| Complaints.ValidationErrors | backend/models/Complaint.js:16-72 | a path is reported exactly when its schema rule fails (trimmed title 1..200, description, department and category enums, reporter name and email) |
| Complaints.ComplaintDocument.constructor | backend/models/Complaint.js:3-147 | a fresh document has status pending, no assignee, empty lists, no SLA, not breached, and the generated id |
| Complaints.ComplaintDocument.Save | backend/models/Complaint.js:158-186 | only a new document gets its SLA and exactly one 'created' entry; later saves change only updatedAt |
| Complaints.ComplaintDocument.CheckSLABreach | backend/models/Complaint.js:189-198 | returns true iff open and past the resolution deadline; isBreached becomes old value or result, never cleared |
| Complaints.StatusPartition | backend/models/Complaint.js:214-218 | the five status counts add up to the number of complaints |
| Complaints.PriorityPartition | backend/models/Complaint.js:219-222 | the four priority counts add up to the number of complaints |
| Complaints.ResolutionDays | backend/models/Department.js:90-103 | one resolution time per complaint that has resolvedAt |
| Complaints.Ratings | backend/models/Department.js:104-106 | one rating per complaint that has a satisfaction rating |
| Complaints.AllDepartmentsListed | backend/models/Complaint.js:30 | the department list names every department |
| Complaints.DepartmentGroupNonEmpty | backend/models/Complaint.js:202-213 | a department's group in a filtered corpus is non-empty iff some matching complaint is in it |
| Complaints.StatisticsOf | backend/models/Complaint.js:211-224 | the exact total, status and priority counts of a group; the four priority counts sum to the total; the mean SLA hours, absent iff no complaint has an SLA |
| Complaints.GetStatistics | backend/models/Complaint.js:201-229 | a department has an entry exactly when some complaint of it passes the department and date filters, and that entry is the statistics of its matching complaints |
| Complaints.StatisticsBalance | backend/models/Complaint.js:209-226 | per department: total > 0, pending+inProgress+resolved+escalated ≤ total, and the four priority counts sum to total |
| ComplaintController.MentionsAny | backend/controllers/complaintController.js:17-21 | true iff some keyword is a substring of the text |
| ComplaintController.ClassifyPriority | backend/controllers/complaintController.js:13-23 | never low; critical iff an urgent keyword occurs; high iff none does and an important keyword does |
| ComplaintController.KeywordsAreLowerCase | backend/controllers/complaintController.js:14-15 | the keyword lists are already lower case, so they can match the lower-cased text |
| ComplaintController.KeywordFound | backend/controllers/complaintController.js:17-21 | a lower-case keyword inside a text is found in its lower-cased form |
| ComplaintController.UrgentTitleIsCritical | backend/controllers/complaintController.js:17-19 | a title containing an urgent keyword makes the complaint critical whatever the description |
| ComplaintController.HighDescriptionIsHigh | backend/controllers/complaintController.js:19-21 | with no urgent keyword, a description containing an important keyword makes it high |
| ComplaintController.AcceptedDepartment | backend/controllers/complaintController.js:25-33 | an accepted request names a known department |
| ComplaintController.AcceptedCategory | backend/controllers/complaintController.js:25-33 | an accepted request names a known category |
| ComplaintController.AcceptedText | backend/controllers/complaintController.js:25-33 | an accepted request has a trimmed title of 1..200 characters and a non-blank description |
| ComplaintController.NewDocument | backend/controllers/complaintController.js:25-33 | the created document holds the request's fields, the classified priority and the generated id |
| ComplaintController.CreateComplaint | backend/controllers/complaintController.js:9-39 | a failing request yields exactly its validation errors (Express's default handler answers them with a 500); otherwise a saved, well-formed complaint with SLA and one 'created' entry |
| ComplaintController.UpdateComplaintStatus | backend/controllers/complaintController.js:181-208 | 404 when missing; any valid status is set with no transition check and exactly one 'status_changed' entry is appended |
| ComplaintController.AssignComplaint | backend/controllers/complaintController.js:213-253 | 404 for the complaint first, then for the agent, changing nothing; else assignee set, status in-progress, one 'assigned' entry, id appended to the agent's list |
| ComplaintController.Assign | backend/controllers/complaintController.js:233-246 | for a found complaint and agent: assignee set, status in-progress, one 'assigned' entry, id appended to the agent's list, schema kept |
| ComplaintController.AssignAsWritten | backend/controllers/complaintController.js:233-246 | as written: the complaint is saved assigned, in progress and with the entry, then the push onto the missing path throws, so the answer is 500 and the agent is untouched |
| ComplaintController.AddComment | backend/controllers/complaintController.js:258-283 | 404 when missing; else exactly one comment appended, status and timeline untouched |
| ComplaintController.ResolveComplaint | backend/controllers/complaintController.js:288-320 | from any status: resolved, resolution replaced by {by, at, note} (rating dropped), one 'resolved' entry |
| ComplaintController.Resolve | backend/controllers/complaintController.js:300-313 | for a found complaint: resolved, resolution replaced, one 'resolved' entry, schema kept |
| ComplaintController.EscalateComplaint | backend/controllers/complaintController.js:325-351 | status escalated, priority critical, one 'escalated' entry, SLA deadlines unchanged |
| ComplaintController.UploadAttachment | backend/controllers/complaintController.js:385-410 | 404 when missing; else exactly one attachment appended, status and timeline untouched |
| ComplaintController.RateComplaint | backend/controllers/complaintController.js:415-442 | 404 when missing; 400 and no change unless resolved; a rating outside 1..5 (fractions allowed) fails validation with no change; else only the satisfaction rating changes, an absent rating unsetting it |
| Analytics.AllCategoriesListed | backend/models/Complaint.js:36-43 | the category list names every category |
| Analytics.AllStatusesListed | backend/models/Complaint.js:54 | the status list names every status |
| Analytics.AllPrioritiesListed | backend/models/Complaint.js:48 | the priority list names every priority |
| Analytics.DepartmentPresent | backend/controllers/analyticsController.js:58-76 | a department's count is positive iff it occurs in the corpus |
| Analytics.DepartmentFiltered | backend/controllers/analyticsController.js:12-18 | a department occurs among the filtered complaints iff one of its complaints passes the filter |
| Analytics.Breakdown | backend/controllers/analyticsController.js:62-74 | total is the group size; resolved, pending and escalated are the exact status counts, together at most the total |
| Analytics.DepartmentBreakdowns | backend/controllers/analyticsController.js:58-76 | one entry per department that occurs, each the breakdown of exactly that department's complaints (total > 0) |
| Analytics.ResolvedDaysCounted | backend/controllers/analyticsController.js:32-38 | one day count per complaint that is resolved and has a resolution date |
| Analytics.MeanResolvedDays | backend/controllers/analyticsController.js:32-56 | 0 when no complaint is resolved with a date; else the value whose product with their number is the sum of their days (their mean) |
| Analytics.OverviewOf | backend/controllers/analyticsController.js:20-90 | exact status counts of the matched complaints, resolutionRate = resolved/total·100 in [0,100], avgResolutionTime = MeanResolvedDays, one breakdown per department present; all zero on an empty corpus |
| Analytics.DashboardOverview | backend/controllers/analyticsController.js:9-90 | the overview of exactly the complaints created in [start,end] when both dates are given, of all of them otherwise |
| Analytics.FiguresOf | backend/controllers/analyticsController.js:105-127 | total is the group size; resolved, pending, escalated, critical and high are the exact counts; avgResolutionTime is the $avg of the resolution times, null when none |
| Analytics.RowOf | backend/controllers/analyticsController.js:101-135 | a department's row has figures exactly when it has complaints, and then they are FiguresOf its complaints |
| Analytics.DepartmentAnalytics | backend/controllers/analyticsController.js:97-144 | exactly five rows in the order ORM, RRM, CRM, IT, PROJECT; a row's figures are absent iff the department has no complaint, else FiguresOf that department's complaints |
| Analytics.CategoryGroups | backend/controllers/analyticsController.js:196-208 | one group per category present, no category twice, each with its exact positive count |
| Analytics.CategoryTable | backend/controllers/analyticsController.js:196-208 | every category paired with its exact count, each category once |
| Analytics.CategoryDistribution | backend/controllers/analyticsController.js:195-222 | sorted by count, non-increasing; each listed count exact and positive; a category is listed iff it occurs, and at most once |
| Analytics.CategoryListedIff | backend/controllers/analyticsController.js:196-213 | a reordering of the groups lists a category iff it occurs in the corpus |
| Analytics.PriorityDistribution | backend/controllers/analyticsController.js:224-248 | one entry per priority present, no priority twice, each with its exact count |
| Analytics.TimesOf | backend/controllers/analyticsController.js:270-275 | minTime and maxTime are values of the list bounding every value; avgTime is its $avg; min ≤ avg ≤ max |
| Analytics.ResolvedGroupDays | backend/controllers/analyticsController.js:252-271 | in a corpus of resolved complaints, each department has one time per complaint |
| Analytics.ResolvedDepartmentTimes | backend/controllers/analyticsController.js:252-271 | a department has resolution times after the match iff one of its complaints is resolved with a resolution date |
| Analytics.DepartmentTimes | backend/controllers/analyticsController.js:262-275 | a department's group is the mean, minimum and maximum of its non-empty list of resolution times |
| Analytics.ResolutionTimeAnalysis | backend/controllers/analyticsController.js:250-283 | an entry exactly for departments with a resolved complaint, holding the mean, minimum and maximum of that department's times, with min ≤ avg ≤ max |
| Analytics.ComplianceOf | backend/controllers/analyticsController.js:291-309 | breached counts the breached complaints and compliant the others, together the total ≥ 1; complianceRate = compliant/total·100 in [0,100] |
| Analytics.SlaCompliance | backend/controllers/analyticsController.js:288-321 | one entry per department present, each ComplianceOf exactly that department's complaints |
| Analytics.StatusCounts | backend/controllers/analyticsController.js:470-474 | an exact count for each status that occurs |
| Analytics.PriorityCounts | backend/controllers/analyticsController.js:476-480 | an exact count for each priority that occurs |
| Analytics.DepartmentCounts | backend/controllers/analyticsController.js:482-486 | an exact count for each department that occurs |
| Analytics.CustomRangeAnalytics | backend/controllers/analyticsController.js:448-497 | a result key exists exactly for each requested metric; total counts the complaints in range whose department matches a listed name once upper-cased; byStatus, byPriority and byDepartment are the exact counts of the complaints the uncast $match keeps, whose departments are listed names |
| Analytics.CustomRangeReadingsAgree | backend/controllers/analyticsController.js:458-461 | when the listed names have no lower-case letters, the cast and the uncast filters select the same complaints |
| Analytics.CustomRangeReadingsSplit | backend/controllers/analyticsController.js:458-487 | a lower-case department name counts the complaint in total and drops it from the three breakdowns |
| Analytics.RealtimeMetrics | backend/controllers/analyticsController.js:499-520 | last24Hours and lastHour count the complaints created since now − 24 h and now − 1 h, lastHour ≤ last24Hours; pending, escalated and critical-open are exact counts |
| Analytics.MonthNamesDistinct | backend/controllers/analyticsController.js:175 | distinct months have distinct names |
| Analytics.Put | backend/controllers/analyticsController.js:183 | writing a cell sets it and keeps every other cell |
| Analytics.OpenRow | backend/controllers/analyticsController.js:180-182 | the month's row exists afterwards |
| Analytics.PivotStep | backend/controllers/analyticsController.js:178-184 | one item writes its (month, department) count and changes no other cell; a month is added to the order once |
| Analytics.PivotStepInvariant | backend/controllers/analyticsController.js:178-184 | one step keeps every row keyed, named and ordered consistently |
| Analytics.PivotPrefixInvariant | backend/controllers/analyticsController.js:178-184 | the invariant holds after any prefix of the items |
| Analytics.PivotOf | backend/controllers/analyticsController.js:175-188 | the finished pivot satisfies the invariant |
| Analytics.PivotMonthsDistinct | backend/controllers/analyticsController.js:175-184 | the months of the pivot have pairwise different names |
| Analytics.RowsOf | backend/controllers/analyticsController.js:188 | one row per month key, in first-seen order, with distinct months |
| Analytics.PivotTrends | backend/controllers/analyticsController.js:175-188 | the forEach loop computes exactly the rows of the pivot specification |
| Analytics.PivotRows | backend/controllers/analyticsController.js:178-182 | a month has a row iff some item of that month was processed |
| Analytics.PivotLastWriteWins | backend/controllers/analyticsController.js:183 | a cell holds the count of the last item that wrote it |
| Analytics.PivotUnwritten | backend/controllers/analyticsController.js:178-184 | a cell no item wrote stays absent |
| Analytics.SameMonthOfTwoYearsCollide | backend/controllers/analyticsController.js:179-183 | March 2024 and March 2025 share one row, and the later year's count wins |
| Analytics.Assignees | backend/controllers/analyticsController.js:327-336 | each assigned agent among the matched complaints once, and no one else |
| Analytics.AgentRowOf | backend/controllers/analyticsController.js:335-384 | the lookup's name, e-mail and department; totalAssigned is the group size; resolved and pending are exact counts; avgRating and avgResolutionTime are the $avg of the present ratings and times; resolutionRate = resolved/total·100 |
| Analytics.ReportedCons | backend/controllers/analyticsController.js:332-385 | an agent is reported by a list of rows iff the first row or the rest report them |
| Analytics.ReportedSameMembers | backend/controllers/analyticsController.js:386-388 | lists with the same rows report the same agents |
| Analytics.RowFor | backend/controllers/analyticsController.js:332-385 | the row of an agent with a matched complaint is sound: AgentRowOf exactly that agent's matched complaints |
| Analytics.RowsFor | backend/controllers/analyticsController.js:332-385 | one sound row per given agent, in the given order |
| Analytics.AgentRows | backend/controllers/analyticsController.js:332-385 | exactly the known agents with an assigned complaint are reported, once each, each row AgentRowOf that agent's complaints |
| Analytics.AgentPerformance | backend/controllers/analyticsController.js:324-397 | rows sorted by resolution rate, non-increasing; one row per known agent assigned in the (optionally restricted) corpus, no agent twice, each row AgentRowOf that agent's matched complaints |
| Analytics.AssignedAmongMatched | backend/controllers/analyticsController.js:327-335 | an agent is assigned among the matched complaints iff one of their complaints passes the department filter |
| Analytics.ExportedComplaints | backend/controllers/analyticsController.js:403-416 | exactly the complaints passing the filters, each as often as in the store (same multiset), newest first; the department filter is compared after upper-casing, as the schema setter casts it |
| Analytics.ExportIgnoresDepartmentCase | backend/controllers/analyticsController.js:404-412 | a lower-case department code exports the same complaints as the code itself |
| Analytics.CsvRowOf | backend/controllers/analyticsController.js:421-429 | the seven CSV columns: id, title, department, status, priority, createdAt, and resolvedAt (None printing as N/A) |
| Analytics.ExportReport | backend/controllers/analyticsController.js:400-446 | CSV exactly when format is "csv": one CsvRowOf per exported complaint in order; JSON otherwise, the exported complaints |
| Departments.ParseDepartmentId | backend/models/Department.js:8 | a departmentId is accepted exactly when it is one of the five codes |
| Departments.MetricsOf | backend/models/Department.js:79-115 | totalComplaints is the count, resolved ≤ total, avg resolution time and satisfaction are the means (0 when empty) |
| Departments.RatingsInRange | backend/models/Complaint.js:105-109 | valid complaints have every rating in [1,5] |
| Departments.SatisfactionScoreRange | backend/models/Department.js:104-106 | the satisfaction score is 0 or lies in [1,5] |
| Departments.WithAgent | backend/controllers/departmentController.js:231-238 | refused iff already present; else appended once, keeping the list duplicate-free |
| Departments.WithoutAgent | backend/controllers/departmentController.js:265-267 | every occurrence removed, the others kept |
| Departments.WithoutAbsentAgent | backend/controllers/departmentController.js:265-267 | removing an absent agent leaves the list unchanged |
| Departments.WithoutAgentAppend | backend/controllers/departmentController.js:265-267 | removal distributes over concatenation, so the order of the rest is kept |
| Departments.WithoutUndoesWith | backend/controllers/departmentController.js:238-267 | removing a freshly added agent restores the list |
| Departments.DepartmentDocument.constructor | backend/models/Department.js:29-70 | a new department has no agents, the default settings (20 complaints per agent) and zero metrics |
| Departments.DepartmentDocument.AddAgent | backend/controllers/departmentController.js:238-239 | the agent list becomes the old list plus the agent |
| Departments.DepartmentDocument.RemoveAgent | backend/controllers/departmentController.js:265-269 | the agent list becomes the old list without the agent |
| Departments.DepartmentDocument.UpdateMetrics | backend/models/Department.js:76-120 | no complaints: nothing changes; otherwise metrics = MetricsOf(the department's complaints); returns the metrics |
| DepartmentController.FindDepartment | backend/controllers/departmentController.js:25-34 | null iff no document has the id; otherwise a document with that id |
| DepartmentController.DepartmentLookup | backend/controllers/departmentController.js:29-34 | 404 exactly when the id is unknown |
| DepartmentController.StatsOf | backend/controllers/departmentController.js:115-143 | total = group size > 0; pending, inProgress, resolved, escalated and critical are the exact counts; the averages are the $avg of the times and ratings (null when none) |
| DepartmentController.DepartmentStats | backend/controllers/departmentController.js:115-159 | the all-zero record exactly when no complaint is stored under the code; else StatsOf exactly those complaints |
| DepartmentController.GetDepartmentStats | backend/controllers/departmentController.js:103-162 | corrected: 404 iff the department is missing; otherwise its id, name and stats |
| DepartmentController.GetDepartmentStatsAsWritten | backend/controllers/departmentController.js:103-113 | as written: 404 iff the department is missing; otherwise always a 500, never statistics |
| DepartmentController.StatsNeverSentAsWritten | backend/controllers/departmentController.js:113 | for every existing department the as-written handler answers 500 where the corrected one answers its statistics |
| DepartmentController.UpdateDepartmentMetrics | backend/controllers/departmentController.js:167-184 | 404 when missing; else the department's metrics are updated and returned |
| DepartmentController.AssignAgentToDepartment | backend/controllers/departmentController.js:210-250 | 404 department first, then 404 agent, then 400 when present, nothing changed; else agent appended once and agent.department set |
| DepartmentController.RemoveAgentFromDepartment | backend/controllers/departmentController.js:255-276 | 404 when missing; else every occurrence removed, success even if absent |
| Http.HttpStatus | backend/controllers/authController.js:40-54 | success is 200, an unexpected error 500, and every code lies in 200..599 |
| Users.ValidName | backend/models/user.js:5-10 | the trimmed name is 1..100 characters |
| Users.ValidNameAfterTrim | backend/models/user.js:8-9 | the trimmed name passes validation exactly when the given one does, so a stored name re-validates on every save |
| Users.ValidEmail | backend/models/user.js:11-18 | the trimmed, lower-cased address matches the account pattern |
| Users.ValidContactNumber | backend/models/user.js:19-23 | exactly ten decimal digits |
| Users.ValidPassword | backend/models/user.js:29-33 | at least six characters |
| Users.ParseRole | backend/models/user.js:34-38 | a role is accepted exactly when it is "user" or "admin" |
| Users.BpSerial | backend/models/user.js:69 | floor(10000 + draw·90000) lies in 10000..99999 |
| Users.BpCandidateShape | backend/models/user.js:67-70 | "MNGL-" + year + "-" + five digits whose value is in 10000..99999, already upper case |
| Users.BpNumberInjective | backend/models/user.js:70 | different serials give different BP numbers |
| Users.FirstFree | backend/models/user.js:66-81 | the first draw whose candidate is not taken; none iff all collide |
| Users.GeneratedBp | backend/models/user.js:61-86 | a generated number is never one already taken |
| Users.GenerateBpNumber | backend/models/user.js:61-86 | the bounded while loop computes exactly the generator's specification |
| Users.ToJson | backend/models/user.js:102-106 | the JSON object never holds the password and holds every other field unchanged |
| Users.UserDocument.constructor | backend/models/user.js:4-51 | a new user has trimmed name, lower-cased trimmed email, no BP number, role user, active |
| Users.UserDocument.Touch | backend/models/user.js:55-57 | only updatedAt changes |
| Users.UserDocument.RecordAssignment | backend/controllers/complaintController.js:243-244 | the complaint is appended to assignedComplaints (duplicates kept) |
| Users.UserDocument.SetDepartment | backend/controllers/departmentController.js:242-243 | the user's department is set |
| Users.UserDocument.Save | backend/models/user.js:54-94 | not new: only updatedAt; new: an existing BP kept, else generated or the save fails; the password is hashed |
| AuthController.GenerateToken | backend/controllers/authController.js:6-8 | the payload carries the user's id under "userId" and has no "id" |
| AuthController.Respond | backend/controllers/authController.js:40-50 | the response exposes id, name, email, contact, BP number and role, and a token for that id |
| AuthController.SignupRulesCoverFields | backend/routes/authRoutes.js:14-32 | route rules that pass imply the schema's name, contact and password rules |
| AuthController.BpNumbers | backend/models/user.js:73-78 | every stored user's BP number is taken |
| AuthController.SaveNewUser | backend/controllers/authController.js:27-35 | a user is stored iff a BP number is generated, with normalised name and email and the hashed password |
| AuthController.Signup | backend/controllers/authController.js:11-56 | 400 on rule errors, then 400 on a registered email, nothing stored; created iff a BP number is generated; the BP is fresh |
| AuthController.FindLoginUser | backend/controllers/authController.js:69-74 | the first user matching the email or the BP number; none iff none matches |
| AuthController.Login | backend/controllers/authController.js:59-110 | 400 before lookup, then 401 no match, then 401 wrong password, then 403 inactive, else the response |
| AuthController.DeactivatedOnlyWithPassword | backend/controllers/authController.js:76-89 | a 403 is only given to a user whose password matched |
| AuthController.LoginAuthenticates | backend/controllers/authController.js:94-104 | a successful login answers for a stored user |
| AuthController.GetProfile | backend/controllers/authController.js:113-121 | found iff stored; the profile lacks the password and has every other field of the stored user, each with its stored value |
| AuthController.Keys | backend/controllers/authController.js:126 | the keys of the body, in order |
| AuthController.IsValidUpdate | backend/controllers/authController.js:127-129 | valid iff every key is name or contactNumber |
| AuthController.Lookup | backend/controllers/authController.js:136-140 | the value given for a key in the body, absent iff the key is not there |
| AuthController.UpdateProfile | backend/controllers/authController.js:124-150 | 400 "Invalid updates" and no change on a foreign key; else name and contact set from the body |
| AuthController.EmptyUpdateAllowed | backend/controllers/authController.js:128-130 | an empty body passes the whitelist |
| AuthController.ForeignKeyRejected | backend/controllers/authController.js:127-134 | one key outside the whitelist rejects the body |
| AuthMiddleware.UntilSpace | backend/middleware/authMiddleware.js:15 | the longest space-free prefix |
| AuthMiddleware.BearerToken | backend/middleware/authMiddleware.js:11-16 | a token only under the "Bearer " prefix; it is the space-free, non-empty field after it |
| AuthMiddleware.BearerTokenRoundTrip | backend/middleware/authMiddleware.js:11-16 | "Bearer " + token reads back as the token |
| AuthMiddleware.UntilSpaceWhole | backend/middleware/authMiddleware.js:15 | a space-free string is its own first field |
| AuthMiddleware.FindWithoutPassword | backend/middleware/authMiddleware.js:27 | the stored user without the password, iff the id is stored |
| AuthMiddleware.ProtectReading | backend/middleware/authMiddleware.js:7-51 | 401 no token, 401 bad token, 401 no user, 403 inactive, else the user without password |
| AuthMiddleware.ProtectAsWritten | backend/middleware/authMiddleware.js:27 | no token gives 401; admitted exactly when the token verifies, carries an "id" claim, and that id names a stored, active user; an admitted user is active and password-free; a refusal is 401 or 403 |
| AuthMiddleware.Protect | backend/middleware/authMiddleware.js:7-51 | no token gives 401; admitted exactly when the token verifies, carries a "userId" claim, and that id names a stored, active user; the admitted user is that stored user without its password |
| AuthMiddleware.IssuedTokenRejectedAsWritten | backend/middleware/authMiddleware.js:27 | as written, every issued token is answered 401 "User not found." |
| AuthMiddleware.IssuedTokenAccepted | backend/controllers/authController.js:6-8 | corrected, an issued token of an active stored user admits that user |
| AuthMiddleware.IssuedTokenOfDeactivatedUser | backend/middleware/authMiddleware.js:36-41 | corrected, an issued token of a deactivated user gives 403 |
| AuthMiddleware.Authorize | backend/middleware/authMiddleware.js:56-73 | 401 without a user, 403 for an unlisted role, else the user |
| AuthMiddleware.ProtectedNeverUnauthenticated | backend/middleware/authMiddleware.js:58-63 | after protect admits a user, authorize never answers 401 |
| AuthMiddleware.AdminOnly | backend/middleware/authMiddleware.js:65-70 | an admin-only guard admits exactly the admins |
| AuthSlice.Reduce | frontend/src/redux/slices/authSlice.js:72-156 | each reducer case; the token changes only on a successful sign-in, a failed getMe or a successful logout, the user also on a successful getMe, the authenticated flag only on those settled cases, and a new error only on a rejection |
| AuthSlice.ErrorMessage | frontend/src/redux/slices/authSlice.js:98 | a non-empty payload message, else the fallback |
| AuthSlice.ReduceKeepsConsistent | frontend/src/redux/slices/authSlice.js:80-156 | every case keeps "authenticated implies a user" |
| AuthSlice.InitialConsistent | frontend/src/redux/slices/authSlice.js:60-67 | the initial state is consistent and not authenticated |
| AuthSlice.LoadingFollowsRequests | frontend/src/redux/slices/authSlice.js:83-155 | pending cases set isLoading, fulfilled and rejected cases clear it |
| AuthSlice.FailedAttemptKeepsSession | frontend/src/redux/slices/authSlice.js:83-100 | a rejected signup or login keeps user, token and authenticated, with a non-empty error |
| AuthSlice.SuccessfulAttemptSignsIn | frontend/src/redux/slices/authSlice.js:103-115 | a fulfilled signup or login signs in with the payload's user and token |
| AuthSlice.Member | frontend/src/redux/slices/authSlice.js:90-91 | a member read of undefined throws; a missing member reads as undefined |
| AuthSlice.CredentialsBody | backend/controllers/authController.js:40-51 | the backend's body has user and token at top level and no data member |
| AuthSlice.FulfilledAsWritten | frontend/src/redux/slices/authSlice.js:88-95 | as written, the case throws exactly when payload.data is undefined or unreadable |
| AuthSlice.FulfilledCorrected | frontend/src/redux/slices/authSlice.js:108-115 | reading payload.user and payload.token, the case throws only on an undefined payload |
| AuthSlice.Settle | frontend/src/redux/slices/authSlice.js:80-156 | a throwing reducer leaves the store state unchanged |
| AuthSlice.SignInStuckAsWritten | frontend/src/redux/slices/authSlice.js:88-115 | as written, every successful signup or login throws and leaves the store loading, with the old session and no success |
| AuthSlice.CorrectedReadSignsIn | frontend/src/redux/slices/authSlice.js:88-115 | corrected, the fulfilled case is the specified reducer case and signs in with the body's user and token |
| AuthSlice.SignOutCases | frontend/src/redux/slices/authSlice.js:132-150 | getMe rejected and logout fulfilled sign out; only logout sets success |
| AuthSlice.SessionKeepingCases | frontend/src/redux/slices/authSlice.js:123-155 | logout rejected and getMe pending keep the session and success flag |
| AuthSlice.ClearsAreLocal | frontend/src/redux/slices/authSlice.js:73-78 | clearError resets only error and clearSuccess only success |
| AuthSlice.AuthState.constructor | frontend/src/redux/slices/authSlice.js:60-67 | the store starts in the initial state with the stored token |
| AuthSlice.AuthState.Dispatch | frontend/src/redux/slices/authSlice.js:72-156 | the new state is the reducer's result on the old state |
| SignupForm.SetValue | frontend/src/components/auth/Signup.jsx:31-36 | the edited field takes the value, others keep theirs |
| SignupForm.ValidateForm | frontend/src/components/auth/Signup.jsx:47-79 | a field has an entry iff its rule fails, holding that rule's message; the role never has one |
| SignupForm.ValidateFormRules | frontend/src/components/auth/Signup.jsx:47-79 | each field's rule (blank name; blank or ill-formed email; blank or non-10-digit contact; password under 6; missing or differing confirmation) and the message it leaves |
| SignupForm.HandleChange | frontend/src/components/auth/Signup.jsx:31-45 | the value is set and only the edited field's error is cleared |
| SignupForm.HandleSubmit | frontend/src/components/auth/Signup.jsx:81-91 | the request is sent iff there are no errors, with the values as typed |
| SignupForm.SentFormPassesRules | frontend/src/components/auth/Signup.jsx:81-91 | a sent form has a name, a 10-digit contact, a 6+ password and a matching confirmation |
| SignupForm.EmptyFormBlocked | frontend/src/components/auth/Signup.jsx:14-21 | the empty form is not sent and has an error on every field but the role |
| PrivateRoute.Guard | frontend/src/components/auth/PrivateRoute.jsx:19-42 | spinner iff loading; login iff not loading and not authenticated; children iff no role or it matches |
| PrivateRoute.ShouldFetchMe | frontend/src/components/auth/PrivateRoute.jsx:12-17 | fetch iff a token exists, not authenticated and not loading; then the guard redirects to login |
| PrivateRoute.FetchMeCycle | frontend/src/components/auth/PrivateRoute.jsx:12-30 | a failed fetch from that state ends on the login redirect |
| PrivateRoute.OwnRoleAdmitted | frontend/src/components/auth/PrivateRoute.jsx:33-42 | after getMe succeeds, the user's own role is admitted |
| PrivateRoute.RoleRedirectsTarget | frontend/src/components/auth/PrivateRoute.jsx:33-39 | a wrong role goes to /admin for admins, /dashboard otherwise |
| AdminDashboard.Flipped | frontend/src/pages/AdminDashboard.jsx:98 | 'active' becomes 'inactive' and anything else 'active' |
| AdminDashboard.ToggleUserStatus | frontend/src/pages/AdminDashboard.jsx:95-101 | same length; the matching users flipped, others unchanged |
| AdminDashboard.ToggleTwiceRestores | frontend/src/pages/AdminDashboard.jsx:96-100 | toggling twice restores users whose status is active or inactive |
| AdminDashboard.ToggleNormalisesUnknownStatus | frontend/src/pages/AdminDashboard.jsx:98 | an unknown status goes to 'inactive' after two toggles |
| AdminDashboard.DeleteUser | frontend/src/pages/AdminDashboard.jsx:103-107 | unconfirmed: unchanged; confirmed: every user with the id removed, the rest in order and each kept once per occurrence (length is the count of users without the id) |
| AdminDashboard.DeleteAbsentId | frontend/src/pages/AdminDashboard.jsx:103-107 | deleting an absent id changes nothing |
| AdminDashboard.FilteredUsers | frontend/src/pages/AdminDashboard.jsx:109-113 | kept iff the lower-cased query occurs in name, email or BP number; an order-preserving subsequence whose length is the number of matching users |
| AdminDashboard.EmptyQueryKeepsAll | frontend/src/pages/AdminDashboard.jsx:109-113 | an empty query keeps everyone |
| Text.IsAccountEmail | backend/models/user.js:17 | the account pattern: a word chain, `@`, then a word chain ending in a dot and two or three word characters |
| Text.IsReporterEmail | backend/models/Complaint.js:71 | the reporter pattern: no white space, and an `@` followed later by a `.`, each with characters on both sides |
| Text.AccountEmailIsReporterEmail | backend/models/user.js:17 | every address the account pattern accepts also passes the reporter pattern of backend/models/Complaint.js:71 |
| Text.ReporterEmailIgnoresCase | backend/models/Complaint.js:69-71 | lower-casing before the match changes no verdict of the reporter pattern |

## Left out

- Mongoose and MongoDB mechanics (`find`, `populate`, `$lookup`, indexes, `save` round trips) are out: the store is a
  sequence or map of records, and the aggregations are folds over it.
- The trend query (`$match`, `$group`, `$sort` at backend/controllers/analyticsController.js:153-172) is out: its grouped
  items are an input of `Analytics.PivotTrends`, keyed by month number.
- The `updateComplaint` handler is out: its timeline push goes to a copy that `findByIdAndUpdate` never stores, and the
  rest is a blind overwrite of the request body.
- DepartmentController.GetDepartmentStats: modelled as intended, as if the aggregation ran. As written, the `require`
  inside an ES module at backend/controllers/departmentController.js:113 throws, so every existing department answers
  500; that behaviour is `DepartmentController.GetDepartmentStatsAsWritten` (see Findings).
- Floating-point rounding (`toFixed`, `$round`, `parseFloat`) is out: ratios and averages are exact reals.
- The clock, `Math.random`, `ObjectId` generation, bcrypt and `jwt.sign`/`jwt.verify` are parameters, not computed.
- A `findById` cast error on a malformed id is out, because ids are natural numbers.
- The express-validator rules of backend/routes/authRoutes.js are out as library code: the `isEmail` verdict is the
  input `emailAccepted`, and `normalizeEmail` is not modelled.
- AuthSlice.Reduce: the fulfilled signup and login cases take `user` and `token` as given, which is the corrected
  reading. The backend answers `{ message, user, token }` at top level, while the slice reads `payload.data.user`; the
  as-written case is `AuthSlice.FulfilledAsWritten` (see Findings).
- The `getMe` thunk requests `/auth/me`, which the auth routes do not define (only `/profile`), so it is always
  rejected; the model takes its outcome as an action and does not model the route table.
- The logout thunk is out: it calls `resetAuthState`, which does not exist. Only its reducer cases are modelled.
- localStorage, `window.confirm`, `setTimeout` and navigation are out. A stored token and the confirm answer are
  inputs; the route guard's result is a `View`.
- The auth routes import a middleware name that authMiddleware.js does not export; this wiring is out.
- `department` and `assignedComplaints` are set on users though the user schema lacks them. The model keeps them as
  fields of `Users.UserDocument`, as the controllers intend.
- ComplaintController.AssignComplaint: modelled as intended. As written, the `push` onto the missing
  `assignedComplaints` path throws after the complaint is saved, so every assignment answers 500 with the complaint
  assigned and the agent unchanged; that behaviour is `ComplaintController.AssignAsWritten` (see Findings).
- DepartmentController.AssignAgentToDepartment: sets the agent's `department` as the handler intends. Under the user
  schema, Mongoose's strict mode drops the path on save, so the stored agent in fact keeps no department.
- ComplaintController.RateComplaint: the rating is a number or absent; a non-numeric value, which Mongoose's cast
  rejects with a 500, is not modelled.
- Concurrency is out: the two saves in `assignComplaint`, `Promise.all`, the async thunks, and a user deleted between
  `protect` and a handler.
- The chatbot and the seeder are out: they are network and fixture code.
- Text.ToLower, Text.ToUpper and Text.Trim cover ASCII letters and ASCII white space only. JavaScript's Unicode case
  mapping and white-space set are out, and so is `\w`/`\S` beyond ASCII in the e-mail patterns.
- Complaints.ValidationErrors: the title's length bound counts Unicode characters, while Mongoose's `maxlength`
  counts UTF-16 code units. A title with characters outside the Basic Multilingual Plane is shorter in the model than
  in JavaScript, so the model can accept a title of more than 200 code units that the schema rejects.
- Users.ValidName: the 1..100 bound counts Unicode characters, not the UTF-16 code units that `minlength` and
  `maxlength` count; a name with characters outside the Basic Multilingual Plane measures shorter than in JavaScript.
- Users.ValidPassword: the six-character minimum counts Unicode characters, not UTF-16 code units, so a password of
  three characters outside the Basic Multilingual Plane fails in the model but passes `minlength: 6`.
- SignupForm.ValidateFormRules: the password rule compares the number of Unicode characters with 6, while
  `password.length` counts UTF-16 code units; the same three-character password is refused by the model and accepted
  by the form.
- Users.UserDocument.Save: bcrypt's salt is out. `hash` is a function of the password alone, and `isModified('password')`
  is taken to hold on a new document.
- The complaint's `isBreached` flag is a field of the complaint rather than of its `sla` object.

## Findings

| source | as written | input that shows it | evidently intended | confidence | as-written member | corrected member |
|---|---|---|---|---|---|---|
| backend/middleware/authMiddleware.js:27 | `protect` looks the user up under `decoded.id`, but backend/controllers/authController.js:7 signs tokens with `{ userId }` | any token issued at login or signup for a stored, active user: `protect` answers 401 "User not found." | look the user up under `decoded.userId` | high (not executed) | AuthMiddleware.IssuedTokenRejectedAsWritten | AuthMiddleware.IssuedTokenAccepted |
| frontend/src/redux/slices/authSlice.js:90-91 | the fulfilled signup and login cases read `action.payload.data.user` and `.token`, but backend/controllers/authController.js:40-51 and 94-105 answer `{ message, user, token }` with no `data` | any successful signup or login: the case throws a TypeError and the store stays loading, keeping the previous session | read `action.payload.user` and `action.payload.token` | high (not executed) | AuthSlice.SignInStuckAsWritten | AuthSlice.CorrectedReadSignsIn |
| backend/controllers/complaintController.js:245 | `agent.assignedComplaints.push(...)` on a user whose schema (backend/models/user.js) has no `assignedComplaints` path | any assignment of a found complaint to a found agent: the complaint is saved as assigned, then the handler answers 500 | declare `assignedComplaints` in the user schema, so the id is appended and the answer is 200 | medium (not executed) | ComplaintController.AssignAsWritten | ComplaintController.Assign |
| backend/controllers/departmentController.js:113 | `require('../models/Complaint')` in a file loaded as an ES module, where `require` is not defined | any request for an existing department's statistics: the ReferenceError reaches Express through `asyncHandler`, which answers 500 | import the `Complaint` model at the top of the file, so the statistics are sent with a 200 | high (not executed) | DepartmentController.GetDepartmentStatsAsWritten | DepartmentController.GetDepartmentStats |
