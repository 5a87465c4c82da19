// The route guard in front of the signed-in pages, and the condition under
// which it asks the server for the current user.

module PrivateRoute {
  import opened Wrappers
  import AuthSlice

  /** What the guard renders. */
  datatype View = Spinner | RedirectToLogin | RedirectToAdmin | RedirectToDashboard | RenderChildren

  /** `user?.role === role`: false when there is no user. */
  predicate HasRole(user: Option<AuthSlice.SessionUser>, role: string) {
    user.Some? && user.value.role == role
  }

  /** A `requiredRole` that is set (a non-empty string). */
  predicate Requires(requiredRole: Option<string>) {
    requiredRole.Some? && requiredRole.value != []
  }

  /**
   * The guard: loading shows the spinner; not signed in goes to the login
   * page; a required role the user lacks sends admins to /admin and everyone
   * else to /dashboard; otherwise the page renders.
   */
  function Guard(s: AuthSlice.AuthSnapshot, requiredRole: Option<string>): (v: View)
    ensures v == Spinner <==> s.isLoading
    ensures v == RedirectToLogin <==> !s.isLoading && !s.isAuthenticated
    ensures v == RenderChildren <==>
              !s.isLoading && s.isAuthenticated && (!Requires(requiredRole) || HasRole(s.user, requiredRole.value))
    ensures v == RedirectToAdmin ==> HasRole(s.user, "admin") && requiredRole != Some("admin")
    ensures v == RedirectToDashboard ==> !HasRole(s.user, "admin") && Requires(requiredRole)
  {
    if s.isLoading then Spinner
    else if !s.isAuthenticated then RedirectToLogin
    else if Requires(requiredRole) && !HasRole(s.user, requiredRole.value) then
      if HasRole(s.user, "admin") then RedirectToAdmin else RedirectToDashboard
    else RenderChildren
  }

  /** The effect's condition for dispatching `getMe`: a stored token, not signed in, nothing loading. */
  function ShouldFetchMe(storedToken: Option<string>, s: AuthSlice.AuthSnapshot): (fetch: bool)
    ensures fetch ==> Guard(s, None) == RedirectToLogin
    ensures fetch <==> storedToken.Some? && storedToken.value != [] && !s.isAuthenticated && !s.isLoading
  {
    storedToken.Some? && storedToken.value != [] && !s.isAuthenticated && !s.isLoading
  }

  /**
   * While the profile request is out the guard shows the spinner, and it
   * fires no second request; once the request fails the guard sends the
   * visitor to the login page.
   */
  lemma {:induction false} FetchMeCycle(storedToken: Option<string>, s: AuthSlice.AuthSnapshot, requiredRole: Option<string>)
    ensures var pending := AuthSlice.Reduce(s, AuthSlice.GetMePending);
            Guard(pending, requiredRole) == Spinner && !ShouldFetchMe(storedToken, pending)
    ensures Guard(AuthSlice.Reduce(AuthSlice.Reduce(s, AuthSlice.GetMePending), AuthSlice.GetMeRejected), requiredRole)
            == RedirectToLogin
  {
    var pending := AuthSlice.Reduce(s, AuthSlice.GetMePending);
    assert pending.isLoading;
    var failed := AuthSlice.Reduce(pending, AuthSlice.GetMeRejected);
    assert !failed.isLoading && !failed.isAuthenticated;
  }

  /** A user whose profile arrives passes a guard that requires its own role. */
  lemma OwnRoleAdmitted(s: AuthSlice.AuthSnapshot, u: AuthSlice.SessionUser)
    ensures Guard(AuthSlice.Reduce(s, AuthSlice.GetMeFulfilled(u)), Some(u.role)) == RenderChildren
  {
  }

  /** A redirect for a missing role lands on a page an admin, and only an admin, is sent to. */
  lemma RoleRedirectsTarget(s: AuthSlice.AuthSnapshot, role: string)
    requires !s.isLoading && s.isAuthenticated && role != [] && !HasRole(s.user, role)
    ensures Guard(s, Some(role)) == (if HasRole(s.user, "admin") then RedirectToAdmin else RedirectToDashboard)
  {
  }
}
