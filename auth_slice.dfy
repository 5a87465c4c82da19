// The client's authentication state: the `auth` slice of the Redux store and
// the reducer cases that change it.

module AuthSlice {
  import opened Wrappers

  /** The user object the client keeps from a signup, login or profile answer. */
  datatype SessionUser = SessionUser(
    id: nat, name: string, email: string, contactNumber: string, bpNumber: string, role: string)

  /** The two thunks whose three reducer cases are alike: signup and login. */
  datatype Flow = SignupFlow | LoginFlow

  function FailureDefault(f: Flow): string {
    match f
    case SignupFlow => "Signup failed"
    case LoginFlow => "Login failed"
  }

  const LogoutFailed := "Logout failed"

  /**
   * The actions the slice handles. A rejection carries the `message` of its
   * payload when the payload is an object that has one (None otherwise).
   */
  datatype Action =
    | ClearError
    | ClearSuccess
    | CredentialsPending(flow: Flow)
    | CredentialsFulfilled(flow: Flow, user: SessionUser, token: string)
    | CredentialsRejected(flow: Flow, message: Option<string>)
    | GetMePending
    | GetMeFulfilled(profile: SessionUser)
    | GetMeRejected
    | LogoutPending
    | LogoutFulfilled
    | LogoutRejected(reason: Option<string>)

  /** The fields of the slice's state. */
  datatype AuthSnapshot = AuthSnapshot(
    user: Option<SessionUser>,
    token: Option<string>,
    isAuthenticated: bool,
    isLoading: bool,
    error: Option<string>,
    success: bool)

  /** The initial state; `storedToken` is the token found in local storage. */
  function Initial(storedToken: Option<string>): AuthSnapshot {
    AuthSnapshot(None, storedToken, false, false, None, false)
  }

  /** `action.payload?.message || fallback`: an empty or absent message gives the fallback. */
  function ErrorMessage(message: Option<string>, fallback: string): (e: string)
    ensures fallback != [] ==> e != []
    ensures message.Some? && message.value != [] ==> e == message.value
  {
    if message.Some? && message.value != [] then message.value else fallback
  }

  /**
   * The state after one action: the specification of the reducer cases.
   * Only a settled credentials, `getMe` or logout request touches the session:
   * the token changes only when a sign-in succeeds, `getMe` fails or logout
   * succeeds, and the user also when `getMe` succeeds.
   */
  function Reduce(s: AuthSnapshot, a: Action): (r: AuthSnapshot)
    ensures r.token != s.token ==> a.CredentialsFulfilled? || a.GetMeRejected? || a.LogoutFulfilled?
    ensures r.user != s.user ==> a.CredentialsFulfilled? || a.GetMeFulfilled? || a.GetMeRejected? || a.LogoutFulfilled?
    ensures r.isAuthenticated != s.isAuthenticated ==> Settles(a) && !a.CredentialsRejected? && !a.LogoutRejected?
    ensures r.error.Some? && r.error != s.error ==> a.CredentialsRejected? || a.LogoutRejected?
  {
    match a
    case ClearError => s.(error := None)
    case ClearSuccess => s.(success := false)
    case CredentialsPending(_) => s.(isLoading := true, error := None, success := false)
    case CredentialsFulfilled(_, u, t) =>
      s.(isLoading := false, user := Some(u), token := Some(t), isAuthenticated := true, success := true)
    case CredentialsRejected(f, m) =>
      s.(isLoading := false, error := Some(ErrorMessage(m, FailureDefault(f))), success := false)
    case GetMePending => s.(isLoading := true, error := None)
    case GetMeFulfilled(u) => s.(isLoading := false, user := Some(u), isAuthenticated := true)
    case GetMeRejected => s.(isLoading := false, user := None, token := None, isAuthenticated := false)
    case LogoutPending => s.(isLoading := true)
    case LogoutFulfilled =>
      s.(isLoading := false, user := None, token := None, isAuthenticated := false, success := true)
    case LogoutRejected(m) => s.(isLoading := false, error := Some(ErrorMessage(m, LogoutFailed)))
  }

  /** The session fields: who is signed in and with which token. */
  predicate SameSession(s: AuthSnapshot, t: AuthSnapshot) {
    s.user == t.user && s.token == t.token && s.isAuthenticated == t.isAuthenticated
  }

  predicate SignedOut(s: AuthSnapshot) {
    s.user.None? && s.token.None? && !s.isAuthenticated
  }

  /** An authenticated state always holds a user. */
  predicate Consistent(s: AuthSnapshot) {
    s.isAuthenticated ==> s.user.Some?
  }

  predicate Settles(a: Action) {
    a.CredentialsFulfilled? || a.CredentialsRejected? || a.GetMeFulfilled? || a.GetMeRejected?
    || a.LogoutFulfilled? || a.LogoutRejected?
  }

  /** Every action keeps an authenticated state holding a user, starting from the initial state. */
  lemma ReduceKeepsConsistent(s: AuthSnapshot, a: Action)
    requires Consistent(s)
    ensures Consistent(Reduce(s, a))
  {
  }

  lemma InitialConsistent(storedToken: Option<string>)
    ensures Consistent(Initial(storedToken)) && !Initial(storedToken).isAuthenticated
  {
  }

  /** Each fulfilled or rejected case ends the loading state; each pending case starts it. */
  lemma LoadingFollowsRequests(s: AuthSnapshot, a: Action)
    ensures Settles(a) ==> !Reduce(s, a).isLoading
    ensures a.CredentialsPending? || a.GetMePending? || a.LogoutPending? ==> Reduce(s, a).isLoading
  {
  }

  /**
   * A failed signup or login leaves the session as it was, whatever the
   * payload: the user, the token and the authenticated flag are untouched,
   * and the error is a non-empty message.
   */
  lemma FailedAttemptKeepsSession(s: AuthSnapshot, f: Flow, m: Option<string>)
    ensures var t := Reduce(Reduce(s, CredentialsPending(f)), CredentialsRejected(f, m));
            SameSession(s, t) && !t.isLoading && !t.success && t.error.Some? && t.error.value != []
  {
  }

  /** A successful signup or login signs the user in with its token and reports success. */
  lemma SuccessfulAttemptSignsIn(s: AuthSnapshot, f: Flow, u: SessionUser, token: string)
    ensures var t := Reduce(Reduce(s, CredentialsPending(f)), CredentialsFulfilled(f, u, token));
            t.user == Some(u) && t.token == Some(token) && t.isAuthenticated && t.success
            && !t.isLoading && t.error.None?
  {
  }

  // ---------------------------------------------------------------------------
  // The payload of a fulfilled signup or login, as JavaScript values

  /** The values the fulfilled cases read out of `action.payload`. */
  datatype JsValue = Undefined | JsText(text: string) | JsUser(user: SessionUser) | JsObject(members: map<string, JsValue>)

  /**
   * `v.key`: a missing member reads as undefined, and reading a member of
   * undefined throws a TypeError (Err).
   */
  function Member(v: JsValue, key: string): (r: Result<JsValue, string>)
    ensures r.Err? <==> v.Undefined?
    ensures v.JsObject? ==> r == Ok(if key in v.members then v.members[key] else Undefined)
    ensures v.JsText? || v.JsUser? ==> r == Ok(Undefined)
  {
    match v
    case Undefined => Err("TypeError")
    case JsObject(m) => Ok(if key in m then m[key] else Undefined)
    case _ => Ok(Undefined)
  }

  /**
   * The body the backend answers a successful signup or login with, which
   * `response.data` hands on as the payload: `{ message, user, token }`,
   * with no `data` member.
   */
  function CredentialsBody(message: string, u: SessionUser, token: string): (v: JsValue)
    ensures Member(v, "data") == Ok(Undefined)
    ensures Member(v, "user") == Ok(JsUser(u)) && Member(v, "token") == Ok(JsText(token))
  {
    JsObject(map["message" := JsText(message), "user" := JsUser(u), "token" := JsText(token)])
  }

  /** The fulfilled case once `user` and `token` have been read: anything but a user object or a string stores null. */
  function SignIn(s: AuthSnapshot, user: JsValue, token: JsValue): AuthSnapshot {
    s.(isLoading := false,
       user := if user.JsUser? then Some(user.user) else None,
       token := if token.JsText? then Some(token.text) else None,
       isAuthenticated := true, success := true)
  }

  /**
   * The fulfilled signup and login cases as the slice writes them: they read
   * `payload.data.user` and `payload.data.token`. Err is the TypeError that
   * aborts the reducer.
   */
  function FulfilledAsWritten(s: AuthSnapshot, payload: JsValue): (r: Result<AuthSnapshot, string>)
    ensures r.Err? <==> Member(payload, "data").Err? || Member(payload, "data") == Ok(Undefined)
  {
    match Member(payload, "data")
    case Err(e) => Err(e)
    case Ok(data) =>
      match (Member(data, "user"), Member(data, "token"))
      case (Ok(u), Ok(t)) => Ok(SignIn(s, u, t))
      case _ => Err("TypeError")
  }

  /** The fulfilled cases reading the members the backend sends: `payload.user` and `payload.token`. */
  function FulfilledCorrected(s: AuthSnapshot, payload: JsValue): (r: Result<AuthSnapshot, string>)
    ensures r.Err? <==> payload.Undefined?
  {
    match (Member(payload, "user"), Member(payload, "token"))
    case (Ok(u), Ok(t)) => Ok(SignIn(s, u, t))
    case _ => Err("TypeError")
  }

  /** A dispatch whose reducer throws leaves the store's state as it was. */
  function Settle(s: AuthSnapshot, r: Result<AuthSnapshot, string>): (t: AuthSnapshot)
    ensures r.Err? ==> t == s
    ensures r.Ok? ==> t == r.value
  {
    if r.Ok? then r.value else s
  }

  /**
   * As written, every successful signup or login throws in its fulfilled
   * case, so the store stays as the pending case left it: still loading,
   * nobody newly signed in, no success and no error.
   */
  lemma SignInStuckAsWritten(s: AuthSnapshot, f: Flow, message: string, u: SessionUser, token: string)
    ensures var p := Reduce(s, CredentialsPending(f));
            FulfilledAsWritten(p, CredentialsBody(message, u, token)).Err?
    ensures var p := Reduce(s, CredentialsPending(f));
            var t := Settle(p, FulfilledAsWritten(p, CredentialsBody(message, u, token)));
            t.isLoading && SameSession(s, t) && !t.success && t.error.None?
  {
    var p := Reduce(s, CredentialsPending(f));
    assert Member(CredentialsBody(message, u, token), "data") == Ok(Undefined);
  }

  /**
   * Reading the members the backend does send, the fulfilled case is the
   * reducer case `Reduce` specifies, and the attempt signs the user in.
   */
  lemma CorrectedReadSignsIn(s: AuthSnapshot, f: Flow, message: string, u: SessionUser, token: string)
    ensures var p := Reduce(s, CredentialsPending(f));
            FulfilledCorrected(p, CredentialsBody(message, u, token)) == Ok(Reduce(p, CredentialsFulfilled(f, u, token)))
    ensures var p := Reduce(s, CredentialsPending(f));
            var t := Settle(p, FulfilledCorrected(p, CredentialsBody(message, u, token)));
            t.user == Some(u) && t.token == Some(token) && t.isAuthenticated && t.success && !t.isLoading
  {
    var body := CredentialsBody(message, u, token);
    assert Member(body, "user") == Ok(JsUser(u)) && Member(body, "token") == Ok(JsText(token));
    SuccessfulAttemptSignsIn(s, f, u, token);
  }

  /** A failed profile fetch and a logout both sign out; only the logout reports success. */
  lemma SignOutCases(s: AuthSnapshot)
    ensures SignedOut(Reduce(s, GetMeRejected)) && Reduce(s, GetMeRejected).success == s.success
    ensures SignedOut(Reduce(s, LogoutFulfilled)) && Reduce(s, LogoutFulfilled).success
  {
  }

  /** A failed logout and a pending profile fetch leave the session and the success flag alone. */
  lemma SessionKeepingCases(s: AuthSnapshot, m: Option<string>)
    ensures SameSession(s, Reduce(s, LogoutRejected(m))) && Reduce(s, LogoutRejected(m)).success == s.success
    ensures SameSession(s, Reduce(s, GetMePending)) && Reduce(s, GetMePending).success == s.success
  {
  }

  /** Clearing the error or the success flag changes nothing else. */
  lemma ClearsAreLocal(s: AuthSnapshot)
    ensures Reduce(s, ClearError) == s.(error := None)
    ensures Reduce(s, ClearSuccess) == s.(success := false)
    ensures Reduce(Reduce(s, ClearError), ClearError) == Reduce(s, ClearError)
  {
  }

  /** The store's `auth` state, changed in place by the reducer cases. */
  class AuthState {
    var user: Option<SessionUser>
    var token: Option<string>
    var isAuthenticated: bool
    var isLoading: bool
    var error: Option<string>
    var success: bool

    function Snapshot(): AuthSnapshot
      reads this
    {
      AuthSnapshot(user, token, isAuthenticated, isLoading, error, success)
    }

    constructor (storedToken: Option<string>)
      ensures Snapshot() == Initial(storedToken)
    {
      user := None;
      token := storedToken;
      isAuthenticated := false;
      isLoading := false;
      error := None;
      success := false;
    }

    /** Runs the reducer case of `a` on the state. */
    method Dispatch(a: Action)
      modifies this
      ensures Snapshot() == Reduce(old(Snapshot()), a)
    {
      match a
      case ClearError =>
        error := None;
      case ClearSuccess =>
        success := false;
      case CredentialsPending(_) =>
        isLoading := true;
        error := None;
        success := false;
      case CredentialsFulfilled(_, u, t) =>
        isLoading := false;
        user := Some(u);
        token := Some(t);
        isAuthenticated := true;
        success := true;
      case CredentialsRejected(f, m) =>
        isLoading := false;
        error := Some(ErrorMessage(m, FailureDefault(f)));
        success := false;
      case GetMePending =>
        isLoading := true;
        error := None;
      case GetMeFulfilled(u) =>
        isLoading := false;
        user := Some(u);
        isAuthenticated := true;
      case GetMeRejected =>
        isLoading := false;
        user := None;
        token := None;
        isAuthenticated := false;
      case LogoutPending =>
        isLoading := true;
      case LogoutFulfilled =>
        isLoading := false;
        user := None;
        token := None;
        isAuthenticated := false;
        success := true;
      case LogoutRejected(m) =>
        isLoading := false;
        error := Some(ErrorMessage(m, LogoutFailed));
    }
  }
}
