// The request guards: `protect`, which authenticates a bearer token, and
// `authorize`, which admits listed roles only.

module AuthMiddleware {
  import opened Wrappers
  import opened Text
  import opened Http
  import Users
  import AuthController

  type UserId = Users.UserId
  type Claims = AuthController.Claims

  const NotLoggedIn := Unauthorized("Not authorized. Please login.")
  const BadToken := Unauthorized("Invalid or expired token.")
  const UserNotFound := Unauthorized("User not found.")
  const Deactivated := Forbidden("Account deactivated.")
  const NotAuthenticated := Unauthorized("Not authenticated.")
  const AccessDenied := Forbidden("Access denied.")

  const BearerPrefix := "Bearer "

  // ---------------------------------------------------------------------------
  // The bearer token

  /** The longest prefix of `s` without a space. */
  function UntilSpace(s: string): (r: string)
    ensures |r| <= |s| && r == s[..|r|]
    ensures forall i :: 0 <= i < |r| ==> r[i] != ' '
    ensures |r| < |s| ==> s[|r|] == ' '
  {
    if s == [] || s[0] == ' ' then [] else [s[0]] + UntilSpace(s[1..])
  }

  /**
   * The token of an `Authorization` header: when the header starts with
   * "Bearer ", the second field of `split(" ")`, which is what follows the
   * prefix up to the next space; an empty field counts as no token.
   */
  function BearerToken(header: Option<string>): (t: Option<string>)
    ensures t.Some? ==> header.Some? && StartsWith(header.value, BearerPrefix + t.value)
    ensures t.Some? ==> t.value != [] && forall i :: 0 <= i < |t.value| ==> t.value[i] != ' '
    ensures header.None? || !StartsWith(header.value, BearerPrefix) ==> t.None?
  {
    if header.None? || !StartsWith(header.value, BearerPrefix) then None
    else
      var field := UntilSpace(header.value[|BearerPrefix|..]);
      assert header.value[..|BearerPrefix| + |field|] == BearerPrefix + field;
      if field == [] then None else Some(field)
  }

  /** The header a client builds from a token is read back as that token. */
  lemma BearerTokenRoundTrip(t: string)
    requires t != [] && forall i :: 0 <= i < |t| ==> t[i] != ' '
    ensures BearerToken(Some(BearerPrefix + t)) == Some(t)
  {
    var h := BearerPrefix + t;
    assert h[|BearerPrefix|..] == t;
    UntilSpaceWhole(t);
  }

  lemma {:induction false} UntilSpaceWhole(s: string)
    requires forall i :: 0 <= i < |s| ==> s[i] != ' '
    ensures UntilSpace(s) == s
  {
    if s != [] {
      UntilSpaceWhole(s[1..]);
    }
  }

  // ---------------------------------------------------------------------------
  // protect

  /**
   * `jwt.verify` with the server's secret: the claims of a token it accepts,
   * None when it throws (bad signature, expired, malformed).
   */
  type Verify = string -> Option<Claims>

  /** `findById(...).select("-password")`: the user without its password (the empty string stands for the absent path). */
  function FindWithoutPassword(store: map<UserId, Users.User>, id: Option<UserId>): (r: Option<Users.User>)
    ensures r.Some? <==> id.Some? && id.value in store
    ensures r.Some? ==> r.value == store[id.value].(password := [])
  {
    if id.Some? && id.value in store then Some(store[id.value].(password := [])) else None
  }

  /**
   * The chain of `protect`, reading the user's id from the claim `claim`:
   * no token (401), a token `verify` rejects (401), no user under the id (401;
   * a claim that is not there finds no user), a deactivated user (403),
   * otherwise the request goes on with the user.
   */
  function ProtectReading(claim: string, header: Option<string>, verify: Verify,
                          store: map<UserId, Users.User>): (r: Result<Users.User, Outcome>)
    ensures BearerToken(header).None? ==> r == Err(NotLoggedIn)
    ensures BearerToken(header).Some? && verify(BearerToken(header).value).None? ==> r == Err(BadToken)
    ensures r.Ok? <==>
              BearerToken(header).Some? && verify(BearerToken(header).value).Some?
              && claim in verify(BearerToken(header).value).value
              && verify(BearerToken(header).value).value[claim] in store
              && store[verify(BearerToken(header).value).value[claim]].isActive
    ensures r.Ok? ==> r.value.password == [] && r.value.isActive
    ensures r.Ok? ==> r.value == store[verify(BearerToken(header).value).value[claim]].(password := [])
    ensures r.Err? ==> r.error in {NotLoggedIn, BadToken, UserNotFound, Deactivated}
  {
    match BearerToken(header)
    case None => Err(NotLoggedIn)
    case Some(token) =>
      match verify(token)
      case None => Err(BadToken)
      case Some(decoded) =>
        var id := if claim in decoded then Some(decoded[claim]) else None;
        match FindWithoutPassword(store, id)
        case None => Err(UserNotFound)
        case Some(user) => if !user.isActive then Err(Deactivated) else Ok(user)
  }

  /** `protect` as written: it looks the user up under `decoded.id`. */
  function ProtectAsWritten(header: Option<string>, verify: Verify, store: map<UserId, Users.User>): (r: Result<Users.User, Outcome>)
    ensures BearerToken(header).None? ==> r == Err(NotLoggedIn)
    ensures r.Ok? <==>
              BearerToken(header).Some? && verify(BearerToken(header).value).Some?
              && "id" in verify(BearerToken(header).value).value
              && verify(BearerToken(header).value).value["id"] in store
              && store[verify(BearerToken(header).value).value["id"]].isActive
    ensures r.Ok? ==> r.value.isActive && r.value.password == []
    ensures r.Err? ==> r.error in {NotLoggedIn, BadToken, UserNotFound, Deactivated}
  {
    ProtectReading("id", header, verify, store)
  }

  /** `protect` reading the claim `generateToken` writes, `userId`. */
  function Protect(header: Option<string>, verify: Verify, store: map<UserId, Users.User>): (r: Result<Users.User, Outcome>)
    ensures BearerToken(header).None? ==> r == Err(NotLoggedIn)
    ensures r.Ok? <==>
              BearerToken(header).Some? && verify(BearerToken(header).value).Some?
              && "userId" in verify(BearerToken(header).value).value
              && verify(BearerToken(header).value).value["userId"] in store
              && store[verify(BearerToken(header).value).value["userId"]].isActive
    ensures r.Ok? ==> r.value == store[verify(BearerToken(header).value).value["userId"]].(password := [])
  {
    ProtectReading("userId", header, verify, store)
  }

  /**
   * As written, no token the server issues gets through: its claims carry
   * `userId` and no `id`, so the lookup finds nobody and the answer is 401
   * "User not found." even for a stored, active user.
   */
  lemma IssuedTokenRejectedAsWritten(t: string, id: UserId, verify: Verify, store: map<UserId, Users.User>)
    requires t != [] && forall i :: 0 <= i < |t| ==> t[i] != ' '
    requires verify(t).Some? && AuthController.IssuedFor(verify(t).value, id)
    ensures ProtectAsWritten(Some(BearerPrefix + t), verify, store) == Err(UserNotFound)
  {
    BearerTokenRoundTrip(t);
    var claims := verify(t).value;
    assert "id" !in claims - {"iat", "exp"};
  }

  /** Corrected, a token issued for a stored, active user admits that user, without its password. */
  lemma IssuedTokenAccepted(t: string, id: UserId, verify: Verify, store: map<UserId, Users.User>)
    requires t != [] && forall i :: 0 <= i < |t| ==> t[i] != ' '
    requires verify(t).Some? && AuthController.IssuedFor(verify(t).value, id)
    requires id in store && store[id].isActive
    ensures Protect(Some(BearerPrefix + t), verify, store) == Ok(store[id].(password := []))
  {
    BearerTokenRoundTrip(t);
    var claims := verify(t).value;
    assert "userId" in claims - {"iat", "exp"};
    assert claims["userId"] == (claims - {"iat", "exp"})["userId"];
  }

  /** Corrected, a token issued for a deactivated user is refused with 403. */
  lemma IssuedTokenOfDeactivatedUser(t: string, id: UserId, verify: Verify, store: map<UserId, Users.User>)
    requires t != [] && forall i :: 0 <= i < |t| ==> t[i] != ' '
    requires verify(t).Some? && AuthController.IssuedFor(verify(t).value, id)
    requires id in store && !store[id].isActive
    ensures Protect(Some(BearerPrefix + t), verify, store) == Err(Deactivated)
  {
    BearerTokenRoundTrip(t);
    var claims := verify(t).value;
    assert "userId" in claims - {"iat", "exp"};
    assert claims["userId"] == (claims - {"iat", "exp"})["userId"];
  }

  // ---------------------------------------------------------------------------
  // authorize

  /**
   * `authorize(...roles)`: no authenticated user (401), a role that is not
   * listed (403), otherwise the request goes on.
   */
  function Authorize(user: Option<Users.User>, roles: seq<string>): (r: Result<Users.User, Outcome>)
    ensures user.None? ==> r == Err(NotAuthenticated)
    ensures r.Ok? <==> user.Some? && Users.RoleName(user.value.role) in roles
    ensures r.Ok? ==> r.value == user.value
    ensures r.Err? ==> r.error in {NotAuthenticated, AccessDenied}
  {
    match user
    case None => Err(NotAuthenticated)
    case Some(u) => if Users.RoleName(u.role) !in roles then Err(AccessDenied) else Ok(u)
  }

  /**
   * Behind `protect`, `authorize` never answers 401: an authenticated user is
   * either admitted or denied access.
   */
  lemma ProtectedNeverUnauthenticated(header: Option<string>, verify: Verify, store: map<UserId, Users.User>, roles: seq<string>)
    requires Protect(header, verify, store).Ok?
    ensures Authorize(Some(Protect(header, verify, store).value), roles) != Err(NotAuthenticated)
  {
  }

  /** An admin-only guard admits exactly the admins. */
  lemma AdminOnly(u: Users.User)
    ensures Authorize(Some(u), ["admin"]).Ok? <==> u.role == Users.AdminRole
  {
    assert Users.RoleName(Users.UserRole) != "admin";
  }
}
