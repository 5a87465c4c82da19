// The authentication handlers: signup, login, the profile and its update,
// and the claims of the tokens they issue.

module AuthController {
  import opened Wrappers
  import opened Text
  import opened Http
  import Users
  import Aggregation

  type UserId = Users.UserId

  /** The 400 answer listing the route's failed rules (its body is an `errors` array, not a message). */
  const RuleViolations := BadRequest("")
  const EmailRegistered := BadRequest("Email already registered")
  const InvalidCredentials := Unauthorized("Invalid credentials")
  const AccountDeactivated := Forbidden("Account is deactivated")
  const InvalidUpdates := BadRequest("Invalid updates")

  const MinSignupNameLength := 2

  // ---------------------------------------------------------------------------
  // Tokens

  /** The claims of a token: a map from claim name to value. */
  type Claims = map<string, UserId>

  /** The payload `generateToken` signs: the user's id under the claim `userId`. */
  function GenerateToken(id: UserId): (payload: Claims)
    ensures "userId" in payload && payload["userId"] == id
    ensures "id" !in payload
  {
    map["userId" := id]
  }

  /**
   * The claims `jwt.verify` gives back for a token signed by `generateToken`
   * for `id`: the payload plus the registered `iat` and `exp` claims.
   */
  predicate IssuedFor(claims: Claims, id: UserId) {
    claims - {"iat", "exp"} == GenerateToken(id)
  }

  // ---------------------------------------------------------------------------
  // Responses

  /** The `user` object of a signup or login answer: the password is not one of its fields. */
  datatype PublicUser = PublicUser(
    id: UserId,
    name: string,
    email: string,
    contactNumber: string,
    bpNumber: string,
    role: Users.Role)

  datatype AuthResponse = AuthResponse(user: PublicUser, token: Claims)

  /** The answer for an authenticated user: its public fields and a token for its id. */
  function Respond(u: Users.User): (r: AuthResponse)
    ensures r.user.id == u.key && r.token == GenerateToken(u.key)
    ensures r.user.name == u.name && r.user.email == u.email && r.user.bpNumber == u.bpNumber
    ensures r.user.contactNumber == u.contactNumber && r.user.role == u.role
  {
    AuthResponse(PublicUser(u.key, u.name, u.email, u.contactNumber, u.bpNumber, u.role), GenerateToken(u.key))
  }

  // ---------------------------------------------------------------------------
  // Signup

  /**
   * The signup rules of the route: every field present, the name 2..100
   * characters once trimmed, an e-mail the e-mail rule accepts, ten digits, and
   * a password of at least six characters.
   */
  predicate SignupRulesPass(name: string, emailAccepted: bool, contactNumber: string, password: string) {
    name != [] && MinSignupNameLength <= |Trim(name)| <= Users.MaxNameLength
    && emailAccepted
    && contactNumber != [] && IsTenDigits(contactNumber)
    && password != [] && |password| >= Users.MinPasswordLength
  }

  /** The schema's validators, run by `save()` before the pre-save hook. */
  predicate FieldsValid(name: string, email: string, contactNumber: string, password: string) {
    Users.ValidName(name) && Users.ValidEmail(email)
    && Users.ValidContactNumber(contactNumber) && Users.ValidPassword(password)
  }

  /**
   * Whatever passes the route's rules also passes the schema's validators for
   * the name (trimmed by the rule), the contact number and the password, so a
   * signup that gets past the rules can only fail validation on its e-mail.
   */
  lemma SignupRulesCoverFields(name: string, emailAccepted: bool, contactNumber: string, password: string)
    requires SignupRulesPass(name, emailAccepted, contactNumber, password)
    ensures Users.ValidName(Trim(name)) && Users.ValidContactNumber(contactNumber) && Users.ValidPassword(password)
  {
    TrimIdempotent(name);
  }

  /** `User.findOne({email})`: the query casts the value with the path's setters. */
  predicate EmailTaken(users: seq<Users.User>, email: string) {
    exists i :: 0 <= i < |users| && users[i].email == Trim(ToLower(email))
  }

  function BpNumbers(users: seq<Users.User>): (taken: set<string>)
    ensures forall i :: 0 <= i < |users| ==> users[i].bpNumber in taken
  {
    set u | u in users :: u.bpNumber
  }

  /**
   * `new User({...})` followed by `save()`: the stored record, or None when
   * the pre-save hook finds no free BP number. `taken` holds the stored BP numbers.
   */
  method SaveNewUser(name: string, email: string, contactNumber: string, password: string, key: UserId,
                     now: int, year: nat, draws: seq<real>, taken: set<string>, hash: string -> string)
    returns (stored: Option<Users.User>)
    requires |draws| == Users.MaxBpAttempts && Users.ValidDraws(draws)
    ensures stored.Some? <==> Users.GeneratedBp(year, draws, taken).Some?
    ensures stored.Some? ==> stored.value == Users.User(key, Trim(name), Trim(ToLower(email)), contactNumber,
                                                        Users.GeneratedBp(year, draws, taken).value, hash(password),
                                                        Users.UserRole, true, now, now)
  {
    var user := new Users.UserDocument(key, name, email, contactNumber, password, now);
    var err := user.Save(now, year, draws, taken, hash);
    if err.Some? {
      return None;
    }
    stored := Some(user.Record());
  }

  /**
   * `signup`. `users` are the stored users, `key` the id of the new document,
   * `draws` the random draws of the BP-number loop, `hash` bcrypt. The name
   * reaches the handler trimmed by the route's sanitizer. The answer is 400 when
   * a rule fails, 400 when the e-mail is registered, 500 when the schema's
   * validators or the BP-number generation fail, and otherwise 201 with the
   * stored user, whose BP number is not one already stored.
   */
  method Signup(name: string, emailAccepted: bool, email: string, contactNumber: string, password: string,
                users: seq<Users.User>, key: UserId, now: int, year: nat, draws: seq<real>, hash: string -> string)
    returns (o: Outcome, stored: Option<Users.User>, response: Option<AuthResponse>)
    requires |draws| == Users.MaxBpAttempts && Users.ValidDraws(draws)
    ensures !SignupRulesPass(name, emailAccepted, contactNumber, password) ==>
              o == RuleViolations && stored.None? && response.None?
    ensures SignupRulesPass(name, emailAccepted, contactNumber, password) && EmailTaken(users, email) ==>
              o == EmailRegistered && stored.None? && response.None?
    ensures o == Created <==>
              SignupRulesPass(name, emailAccepted, contactNumber, password) && !EmailTaken(users, email)
              && Users.ValidEmail(email) && Users.GeneratedBp(year, draws, BpNumbers(users)).Some?
    ensures o.ServerError? <==>
              SignupRulesPass(name, emailAccepted, contactNumber, password) && !EmailTaken(users, email)
              && o != Created
    ensures o != Created ==> stored.None? && response.None?
    ensures o == Created ==> stored.Some? && response == Some(Respond(stored.value))
    ensures o == Created ==> stored.value.bpNumber !in BpNumbers(users)
    ensures o == Created ==> stored.value == Users.User(key, Trim(name), Trim(ToLower(email)), contactNumber,
                                                          stored.value.bpNumber, hash(password), Users.UserRole,
                                                          true, now, now)
  {
    stored, response := None, None;
    if !SignupRulesPass(name, emailAccepted, contactNumber, password) {
      return RuleViolations, stored, response;
    }
    if EmailTaken(users, email) {
      return EmailRegistered, stored, response;
    }
    var trimmed := Trim(name);
    SignupRulesCoverFields(name, emailAccepted, contactNumber, password);
    if !FieldsValid(trimmed, email, contactNumber, password) {
      return ServerError, stored, response;
    }
    var taken := BpNumbers(users);
    stored := SaveNewUser(trimmed, email, contactNumber, password, key, now, year, draws, taken, hash);
    if stored.None? {
      return ServerError, stored, response;
    }
    TrimIdempotent(name);
    response := Some(Respond(stored.value));
    o := Created;
  }

  // ---------------------------------------------------------------------------
  // Login

  /** The login rules of the route: a password, and an e-mail or a BP number. */
  predicate LoginRulesPass(email: Option<string>, bpNumber: Option<string>, password: Option<string>) {
    password.GetOr([]) != [] && (email.GetOr([]) != [] || bpNumber.GetOr([]) != [])
  }

  /**
   * One branch of the `$or` query, with `email || ''` and `bpNumber || ''`
   * cast by the paths' setters. A user without a BP number (the empty string
   * here) has no such path and matches no BP number.
   */
  predicate MatchesLogin(u: Users.User, email: Option<string>, bpNumber: Option<string>) {
    u.email == Trim(ToLower(email.GetOr([])))
    || (u.bpNumber != [] && u.bpNumber == ToUpper(bpNumber.GetOr([])))
  }

  /** `User.findOne(...)`: the position of the first stored user the query matches. */
  function FindLoginUser(users: seq<Users.User>, email: Option<string>, bpNumber: Option<string>): (r: Option<nat>)
    ensures r.Some? ==> r.value < |users| && MatchesLogin(users[r.value], email, bpNumber)
    ensures r.Some? ==> forall j :: 0 <= j < r.value ==> !MatchesLogin(users[j], email, bpNumber)
    ensures r.None? <==> forall j :: 0 <= j < |users| ==> !MatchesLogin(users[j], email, bpNumber)
  {
    Aggregation.FirstIndex(users, (u: Users.User) => MatchesLogin(u, email, bpNumber))
  }

  /**
   * `login`. `compare(candidate, hash)` is bcrypt's comparison. Rules first
   * (400), then the lookup and the password (the same 401 for both), then the
   * active flag (403), then 200 with the user and a token.
   */
  function Login(email: Option<string>, bpNumber: Option<string>, password: Option<string>,
                 users: seq<Users.User>, compare: (string, string) -> bool): (r: Result<AuthResponse, Outcome>)
    ensures !LoginRulesPass(email, bpNumber, password) ==> r == Err(RuleViolations)
    ensures LoginRulesPass(email, bpNumber, password) && FindLoginUser(users, email, bpNumber).None? ==>
              r == Err(InvalidCredentials)
    ensures r.Ok? <==>
              LoginRulesPass(email, bpNumber, password) && FindLoginUser(users, email, bpNumber).Some?
              && compare(password.value, users[FindLoginUser(users, email, bpNumber).value].password)
              && users[FindLoginUser(users, email, bpNumber).value].isActive
    ensures r.Ok? ==> r.value == Respond(users[FindLoginUser(users, email, bpNumber).value])
    ensures r.Err? ==> r.error in {RuleViolations, InvalidCredentials, AccountDeactivated}
  {
    if !LoginRulesPass(email, bpNumber, password) then Err(RuleViolations)
    else match FindLoginUser(users, email, bpNumber)
      case None => Err(InvalidCredentials)
      case Some(i) =>
        if !compare(password.value, users[i].password) then Err(InvalidCredentials)
        else if !users[i].isActive then Err(AccountDeactivated)
        else Ok(Respond(users[i]))
  }

  /**
   * The answer to a wrong password never depends on the account's state: a
   * deactivated account is only reported to a caller who knows its password.
   */
  lemma DeactivatedOnlyWithPassword(email: Option<string>, bpNumber: Option<string>, password: Option<string>,
                                    users: seq<Users.User>, compare: (string, string) -> bool)
    requires Login(email, bpNumber, password, users, compare) == Err(AccountDeactivated)
    ensures FindLoginUser(users, email, bpNumber).Some?
    ensures var u := users[FindLoginUser(users, email, bpNumber).value];
            compare(password.value, u.password) && !u.isActive
  {
  }

  /** A successful login answers for a stored, active user the query matched and whose password was given. */
  lemma LoginAuthenticates(email: Option<string>, bpNumber: Option<string>, password: Option<string>,
                           users: seq<Users.User>, compare: (string, string) -> bool)
    requires Login(email, bpNumber, password, users, compare).Ok?
    ensures exists i :: 0 <= i < |users| && users[i].key == Login(email, bpNumber, password, users, compare).value.user.id
                        && users[i].isActive && MatchesLogin(users[i], email, bpNumber)
                        && compare(password.value, users[i].password)
  {
    var i := FindLoginUser(users, email, bpNumber).value;
    assert users[i].key == Login(email, bpNumber, password, users, compare).value.user.id;
  }

  // ---------------------------------------------------------------------------
  // Profile

  /** `getProfile`: the stored user without its password, or null when it is gone. */
  function GetProfile(store: map<UserId, Users.User>, id: UserId): (r: Option<map<string, Users.JsonValue>>)
    ensures r.Some? <==> id in store
    ensures r.Some? ==> "password" !in r.value && r.value.Keys == Users.ToObject(store[id]).Keys - {"password"}
    ensures r.Some? ==> forall k | k in r.value :: r.value[k] == Users.ToObject(store[id])[k]
  {
    if id in store then
      Some(Users.ToJson(store[id]))
    else None
  }

  const AllowedUpdates: seq<string> := ["name", "contactNumber"]

  /** One key of the request body with its value. */
  datatype BodyField = BodyField(key: string, value: string)

  function Keys(body: seq<BodyField>): (ks: seq<string>)
    ensures |ks| == |body| && forall i :: 0 <= i < |body| ==> ks[i] == body[i].key
  {
    if body == [] then [] else [body[0].key] + Keys(body[1..])
  }

  /** `Object.keys(updates).every(...)`: every key of the body is an allowed one. */
  function IsValidUpdate(keys: seq<string>): (ok: bool)
    ensures ok <==> forall i :: 0 <= i < |keys| ==> keys[i] in AllowedUpdates
  {
    if keys == [] then true else keys[0] in AllowedUpdates && IsValidUpdate(keys[1..])
  }

  /** The value the body gives `key` (the last one when it repeats), if any. */
  function Lookup(body: seq<BodyField>, key: string): (r: Option<string>)
    ensures r.None? <==> forall i :: 0 <= i < |body| ==> body[i].key != key
    ensures r.Some? ==> exists i :: 0 <= i < |body| && body[i] == BodyField(key, r.value)
  {
    if body == [] then None
    else if body[|body| - 1].key == key then Some(body[|body| - 1].value)
    else Lookup(body[..|body| - 1], key)
  }

  /** `runValidators`: the validators of the paths the update sets. */
  predicate UpdateValid(body: seq<BodyField>) {
    (Lookup(body, "name").Some? ==> Users.ValidName(Lookup(body, "name").value))
    && (Lookup(body, "contactNumber").Some? ==> Users.ValidContactNumber(Lookup(body, "contactNumber").value))
  }

  /**
   * `updateProfile` on the authenticated user's document. Any key besides the
   * name and the contact number rejects the whole body (400); a value the
   * validators reject is a 500; otherwise the given paths take the given
   * values (the name trimmed) and no other path changes. The update bypasses
   * `save()`, so `updatedAt` stays as it was.
   */
  method UpdateProfile(user: Users.UserDocument, body: seq<BodyField>) returns (o: Outcome)
    modifies user`name, user`contactNumber
    ensures !IsValidUpdate(Keys(body)) ==> o == InvalidUpdates && unchanged(user)
    ensures IsValidUpdate(Keys(body)) && !UpdateValid(body) ==> o == ServerError && unchanged(user)
    ensures IsValidUpdate(Keys(body)) && UpdateValid(body) ==> o == Done
    ensures o == Done ==> user.name == (match Lookup(body, "name") case Some(v) => Trim(v) case None => old(user.name))
    ensures o == Done ==> user.contactNumber == Lookup(body, "contactNumber").GetOr(old(user.contactNumber))
  {
    if !IsValidUpdate(Keys(body)) {
      return InvalidUpdates;
    }
    if !UpdateValid(body) {
      return ServerError;
    }
    var name := Lookup(body, "name");
    if name.Some? {
      user.name := Trim(name.value);
    }
    var contactNumber := Lookup(body, "contactNumber");
    if contactNumber.Some? {
      user.contactNumber := contactNumber.value;
    }
    o := Done;
  }

  /** A body whose keys are all allowed passes the key check; the empty body is one of them. */
  lemma EmptyUpdateAllowed()
    ensures IsValidUpdate(Keys([]))
  {
  }

  /** A body naming any other path, such as the role or the password, is rejected whatever else it holds. */
  lemma ForeignKeyRejected(body: seq<BodyField>, i: nat)
    requires i < |body| && body[i].key !in AllowedUpdates
    ensures !IsValidUpdate(Keys(body))
  {
    assert Keys(body)[i] == body[i].key;
  }
}
