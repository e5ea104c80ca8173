/** The route guard (frontend/src/components/routing/PrivateRoute.js):
    a spinner while the auth context is loading, then the nested routes for
    an authenticated client and a redirect to the login page otherwise. */
module PrivateRoute {
  import opened Common
  import opened UserModel
  import opened AuthContext

  datatype View = Spinner | Nested | Redirect(to: string, replace: bool)

  function Guard(loading: bool, isAuthenticated: bool): (v: View)
    ensures v == Spinner <==> loading
    ensures v == Nested <==> !loading && isAuthenticated
    ensures v == Redirect("/login", true) <==> !loading && !isAuthenticated
    ensures v.Redirect? ==> v == Redirect("/login", true)
  {
    if loading then Spinner
    else if isAuthenticated then Nested
    else Redirect("/login", true)
  }

  function GuardOf(s: State): View {
    Guard(s.loading, s.isAuthenticated)
  }

  /** After logging out, the guarded pages are out of reach. */
  lemma LogoutLocksPages(s: State)
    ensures GuardOf(AfterLogout(s)) in {Spinner, Redirect("/login", true)}
  {
  }

  /** A login whose token loads a user opens the guarded pages. */
  lemma LoginOpensPages(s: State, token: string, u: Profile)
    requires Truthy(token)
    ensures AfterLogin(s, Success(token), Success(u)) == (AfterLogin(s, Success(token), Success(u)).0, true)
    ensures GuardOf(AfterLogin(s, Success(token), Success(u)).0) == Nested
  {
  }

  /** A rejected login leaves an unauthenticated client outside. */
  lemma FailedLoginStaysOutside(s: State, body: ErrorBody, userRes: Response<Profile>)
    requires !s.isAuthenticated
    ensures GuardOf(AfterLogin(s, Failure(body), userRes).0) == Redirect("/login", true)
  {
  }
}
