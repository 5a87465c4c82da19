// The `User` model: field validators, the BP-number generator of the
// pre-save hook, the mutable user document and its `toJSON` projection.

module Users {
  import opened Wrappers
  import opened Text
  import Complaints

  type UserId = Complaints.UserId

  const MaxNameLength := 100
  const MinPasswordLength := 6
  const MaxBpAttempts := 10
  const BpFailure := "Could not generate unique BP Number"

  datatype Role = UserRole | AdminRole

  function RoleName(r: Role): string {
    match r
    case UserRole => "user"
    case AdminRole => "admin"
  }

  /** The `role` enumeration check. */
  function ParseRole(s: string): (r: Option<Role>)
    ensures forall x :: r == Some(x) <==> s == RoleName(x)
  {
    if s == "user" then Some(UserRole)
    else if s == "admin" then Some(AdminRole)
    else None
  }

  // ---------------------------------------------------------------------------
  // Field validators (run on the value after the path's setters)

  /** `name`: trimmed, required, at most 100 characters. */
  predicate ValidName(name: string) {
    0 < |Trim(name)| <= MaxNameLength
  }

  /** `email`: lower-cased and trimmed, then the account e-mail pattern. */
  predicate ValidEmail(email: string) {
    IsAccountEmail(ToLower(Trim(email)))
  }

  /** `contactNumber`: exactly ten decimal digits. */
  predicate ValidContactNumber(s: string) {
    IsTenDigits(s)
  }

  /** `password`: required with at least six characters. */
  predicate ValidPassword(p: string) {
    |p| >= MinPasswordLength
  }

  /**
   * The `trim` setter runs before the validators, so a stored name passes
   * them again on every later save exactly when the name first given did.
   */
  lemma ValidNameAfterTrim(name: string)
    ensures ValidName(Trim(name)) <==> ValidName(name)
  {
    TrimIdempotent(name);
  }

  // ---------------------------------------------------------------------------
  // BP numbers: "MNGL-" + year + "-" + a five-digit serial

  /** `Math.floor(10000 + draw * 90000)` for a draw of `Math.random()` in [0, 1). */
  function BpSerial(draw: real): (n: nat)
    requires 0.0 <= draw < 1.0
    ensures 10000 <= n <= 99999
  {
    (10000.0 + draw * 90000.0).Floor
  }

  function BpNumber(year: nat, serial: nat): string {
    "MNGL-" + Decimal(year) + "-" + Decimal(serial)
  }

  /** The candidate of one attempt: "MNGL-", the year, "-" and the serial of the draw. */
  function BpCandidate(year: nat, draw: real): string
    requires 0.0 <= draw < 1.0
  {
    BpNumber(year, BpSerial(draw))
  }

  /**
   * A candidate starts with "MNGL-", ends with "-" and five digits that read
   * back as a serial in 10000..99999, and upper-casing (the `uppercase` setter
   * of the path) leaves it unchanged.
   */
  lemma BpCandidateShape(year: nat, draw: real)
    requires 0.0 <= draw < 1.0
    ensures |BpCandidate(year, draw)| == 11 + |Decimal(year)|
    ensures BpCandidate(year, draw)[..5] == "MNGL-"
    ensures BpCandidate(year, draw)[|BpCandidate(year, draw)| - 6] == '-'
    ensures forall i :: |BpCandidate(year, draw)| - 5 <= i < |BpCandidate(year, draw)| ==> IsDigit(BpCandidate(year, draw)[i])
    ensures 10000 <= DecimalValue(BpCandidate(year, draw)[|BpCandidate(year, draw)| - 5..]) <= 99999
    ensures ToUpper(BpCandidate(year, draw)) == BpCandidate(year, draw)
  {
    var n := BpSerial(draw);
    BpNumberLayout(year, n);
    BpNumberUpper(year, n);
    BpNumberSerial(year, n);
  }

  /** The last five characters of a BP number with a five-digit serial are digits reading back as the serial. */
  lemma BpNumberSerial(year: nat, n: nat)
    requires 10000 <= n <= 99999
    ensures |BpNumber(year, n)| >= 5
    ensures forall i :: |BpNumber(year, n)| - 5 <= i < |BpNumber(year, n)| ==> IsDigit(BpNumber(year, n)[i])
    ensures DecimalValue(BpNumber(year, n)[|BpNumber(year, n)| - 5..]) == n
  {
    var bp := BpNumber(year, n);
    BpNumberLayout(year, n);
    DecimalRoundTrip(n);
    forall i | |bp| - 5 <= i < |bp| ensures IsDigit(bp[i]) {
      assert bp[i] == bp[|bp| - 5..][i - (|bp| - 5)];
    }
  }

  /** Where the parts of a BP number with a five-digit serial sit. */
  lemma BpNumberLayout(year: nat, n: nat)
    requires 10000 <= n <= 99999
    ensures |BpNumber(year, n)| == 11 + |Decimal(year)|
    ensures BpNumber(year, n)[..5] == "MNGL-"
    ensures BpNumber(year, n)[|BpNumber(year, n)| - 6] == '-'
    ensures BpNumber(year, n)[|BpNumber(year, n)| - 5..] == Decimal(n)
  {
    DecimalFiveDigits(n);
    var bp := BpNumber(year, n);
    assert bp == "MNGL-" + Decimal(year) + "-" + Decimal(n);
    assert bp[..5] == "MNGL-";
    assert bp[|bp| - 5..] == Decimal(n);
  }

  /** A BP number has no lower-case letter, so upper-casing keeps it. */
  lemma BpNumberUpper(year: nat, n: nat)
    ensures ToUpper(BpNumber(year, n)) == BpNumber(year, n)
  {
    var bp := BpNumber(year, n);
    forall i | 0 <= i < |bp| ensures !IsLowerLetter(bp[i]) {
      if 5 <= i < 5 + |Decimal(year)| {
        assert bp[i] == Decimal(year)[i - 5];
      } else if i >= 6 + |Decimal(year)| {
        assert bp[i] == Decimal(n)[i - 6 - |Decimal(year)|];
      }
    }
    ToUpperFixesUpper(bp);
  }

  /** Within one year, different serials give different BP numbers. */
  lemma BpNumberInjective(year: nat, m: nat, n: nat)
    requires BpNumber(year, m) == BpNumber(year, n)
    ensures m == n
  {
    var prefix := "MNGL-" + Decimal(year) + "-";
    assert BpNumber(year, m) == prefix + Decimal(m);
    assert BpNumber(year, n) == prefix + Decimal(n);
    assert Decimal(m) == BpNumber(year, m)[|prefix|..];
    assert Decimal(n) == BpNumber(year, n)[|prefix|..];
    DecimalRoundTrip(m);
    DecimalRoundTrip(n);
  }

  predicate ValidDraws(draws: seq<real>) {
    forall i :: 0 <= i < |draws| ==> 0.0 <= draws[i] < 1.0
  }

  /**
   * The index of the first attempt whose candidate is not taken, or None when
   * every attempt collides.
   */
  function FirstFree(year: nat, draws: seq<real>, taken: set<string>): (r: Option<nat>)
    requires ValidDraws(draws)
    ensures r.Some? ==> r.value < |draws| && BpCandidate(year, draws[r.value]) !in taken
    ensures r.Some? ==> forall k :: 0 <= k < r.value ==> BpCandidate(year, draws[k]) in taken
    ensures r.None? <==> forall k :: 0 <= k < |draws| ==> BpCandidate(year, draws[k]) in taken
  {
    if draws == [] then None
    else if BpCandidate(year, draws[0]) !in taken then Some(0)
    else match FirstFree(year, draws[1..], taken)
      case None => None
      case Some(j) => Some(j + 1)
  }

  /** The BP number the hook assigns, or None when it throws. */
  function GeneratedBp(year: nat, draws: seq<real>, taken: set<string>): (r: Option<string>)
    requires ValidDraws(draws)
    ensures r.Some? ==> r.value !in taken
  {
    match FirstFree(year, draws, taken)
    case Some(i) => Some(BpCandidate(year, draws[i]))
    case None => None
  }

  /**
   * The retry loop of the pre-save hook: at most ten attempts, one draw per
   * attempt; `taken` holds the BP numbers already stored.
   */
  method GenerateBpNumber(year: nat, draws: seq<real>, taken: set<string>) returns (bp: Option<string>)
    requires |draws| == MaxBpAttempts && ValidDraws(draws)
    ensures bp == GeneratedBp(year, draws, taken)
  {
    var isUnique := false;
    var attempts := 0;
    bp := None;
    while !isUnique && attempts < MaxBpAttempts
      invariant 0 <= attempts <= MaxBpAttempts
      invariant isUnique == bp.Some?
      invariant !isUnique ==> forall k :: 0 <= k < attempts ==> BpCandidate(year, draws[k]) in taken
      invariant isUnique ==> 0 < attempts && FirstFree(year, draws, taken) == Some(attempts - 1)
                             && bp == Some(BpCandidate(year, draws[attempts - 1]))
    {
      var generated := BpCandidate(year, draws[attempts]);
      if generated !in taken {
        bp := Some(generated);
        isUnique := true;
      }
      attempts := attempts + 1;
    }
  }

  // ---------------------------------------------------------------------------
  // The stored user and its JSON projection

  datatype User = User(
    key: UserId,
    name: string,
    email: string,
    contactNumber: string,
    bpNumber: string,
    password: string,
    role: Role,
    isActive: bool,
    createdAt: int,
    updatedAt: int)

  datatype JsonValue = JStr(s: string) | JBool(b: bool) | JNum(n: int)

  /** `toObject()`: every path of the document. */
  function ToObject(u: User): map<string, JsonValue> {
    map[
      "_id" := JNum(u.key),
      "name" := JStr(u.name),
      "email" := JStr(u.email),
      "contactNumber" := JStr(u.contactNumber),
      "bpNumber" := JStr(u.bpNumber),
      "password" := JStr(u.password),
      "role" := JStr(RoleName(u.role)),
      "isActive" := JBool(u.isActive),
      "createdAt" := JNum(u.createdAt),
      "updatedAt" := JNum(u.updatedAt)]
  }

  /** `toJSON()`: the document without its password and with everything else intact. */
  function ToJson(u: User): (j: map<string, JsonValue>)
    ensures "password" !in j
    ensures forall k :: k in j <==> k in ToObject(u) && k != "password"
    ensures forall k | k in j :: j[k] == ToObject(u)[k]
  {
    ToObject(u) - {"password"}
  }

  // ---------------------------------------------------------------------------
  // The mutable document

  class UserDocument {
    const key: UserId
    var name: string
    var email: string
    var contactNumber: string
    /** The empty string stands for an unset path (it is falsy for the hook). */
    var bpNumber: string
    var password: string
    var role: Role
    var isActive: bool
    var createdAt: int
    var updatedAt: int
    var isNew: bool
    /** Written by the controllers; the schema declares neither path. */
    var department: Option<Complaints.Department>
    var assignedComplaints: seq<Complaints.ObjectKey>

    function Record(): User
      reads this
    {
      User(key, name, email, contactNumber, bpNumber, password, role, isActive, createdAt, updatedAt)
    }

    /** `new User({name, email, contactNumber, password})` at time `now`, with the schema's setters and defaults. */
    constructor (key: UserId, name: string, email: string, contactNumber: string, password: string, now: int)
      ensures this.key == key && this.name == Trim(name) && this.email == Trim(ToLower(email))
      ensures this.contactNumber == contactNumber && this.password == password && bpNumber == []
      ensures role == UserRole && isActive && createdAt == now && updatedAt == now && isNew
      ensures department == None && assignedComplaints == []
    {
      this.key := key;
      this.name := Trim(name);
      this.email := Trim(ToLower(email));
      this.contactNumber := contactNumber;
      this.password := password;
      bpNumber := [];
      role := UserRole;
      isActive := true;
      createdAt := now;
      updatedAt := now;
      isNew := true;
      department := None;
      assignedComplaints := [];
    }

    /** `save()` of a stored document: the hook only refreshes `updatedAt`. */
    method Touch(now: int)
      requires !isNew
      modifies this`updatedAt
      ensures updatedAt == now
    {
      updatedAt := now;
    }

    /** `assignedComplaints.push(k)` followed by a save of the stored document. */
    method RecordAssignment(k: Complaints.ObjectKey, now: int)
      requires !isNew
      modifies this`assignedComplaints, this`updatedAt
      ensures assignedComplaints == old(assignedComplaints) + [k] && updatedAt == now
    {
      assignedComplaints := assignedComplaints + [k];
      Touch(now);
    }

    /** `agent.department = departmentId` followed by a save of the stored document. */
    method SetDepartment(d: Complaints.Department, now: int)
      requires !isNew
      modifies this`department, this`updatedAt
      ensures department == Some(d) && updatedAt == now
    {
      department := Some(d);
      Touch(now);
    }

    /**
     * `save()` with the pre-save hook. A stored document only gets a fresh
     * `updatedAt` (no BP number, no hashing). A new one keeps a BP number it
     * already has, otherwise gets the generated one; when generation fails the
     * save is aborted and nothing changes. The password of a new document is
     * hashed with `hash` (bcrypt with a fresh salt).
     */
    method Save(now: int, year: nat, draws: seq<real>, taken: set<string>, hash: string -> string)
      returns (err: Option<string>)
      requires |draws| == MaxBpAttempts && ValidDraws(draws)
      modifies this`bpNumber, this`password, this`updatedAt, this`isNew
      ensures !old(isNew) ==> err == None && updatedAt == now && bpNumber == old(bpNumber)
                              && password == old(password) && !isNew
      ensures old(isNew) && old(bpNumber) == [] && GeneratedBp(year, draws, taken).None? ==>
                err == Some(BpFailure) && unchanged(this)
      ensures old(isNew) && old(bpNumber) == [] && GeneratedBp(year, draws, taken).Some? ==>
                err == None && bpNumber == GeneratedBp(year, draws, taken).value
      ensures old(isNew) && old(bpNumber) != [] ==> err == None && bpNumber == old(bpNumber)
      ensures old(isNew) && err == None ==> password == hash(old(password)) && updatedAt == old(updatedAt) && !isNew
    {
      if !isNew {
        Touch(now);
        return None;
      }
      if bpNumber == [] {
        var generated := GenerateBpNumber(year, draws, taken);
        if generated.None? {
          return Some(BpFailure);
        }
        bpNumber := generated.value;
      }
      password := hash(password);
      isNew := false;
      err := None;
    }
  }
}
