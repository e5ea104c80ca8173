/** The client and the server together: the reply the server sends to the
    client's `GET /api/auth/user` (the gate, then the handler), fed to the
    client's auth state. */
module Session {
  import opened Common
  import opened UserModel
  import Gate
  import AuthRoutes
  import opened AuthContext
  import opened PrivateRoute

  /** The reply `loadUser` receives for `token`: a rejection by the gate or
      a handler error arrives as its `msg` (a plain-text 500 carries none). */
  function UserReply(token: string, env: Env, users: seq<User>): (r: Response<Profile>)
    ensures r.Success? ==> exists u :: u in users && u.profile == r.data
  {
    match Gate.Authenticate("Bearer " + token, env, users)
    case Reject(_, msg) => Failure(ErrorBody("", msg))
    case Forward(p) =>
      match AuthRoutes.CurrentUser(users, p.id)
      case Ok(q) => Success(q)
      case Error(500, _) => Failure(ErrorBody("", ""))
      case Error(_, msg) => Failure(ErrorBody("", msg))
      case Invalid(_) => Failure(ErrorBody("", ""))
  }

  /** Logging in as a stored user signs the client in as that user, with no
      error, and opens the guarded pages. */
  lemma LoginSignsInStoredUser(s: State, users: seq<User>, i: nat, env: Env, token: string)
    requires StoreInvariant(users) && i < |users|
    requires Truthy(token) && ' ' !in token
    requires env.verify(token) == Some(TokenPayload(users[i].profile))
    ensures var (after, ok) := AfterLogin(s, Success(token), UserReply(token, env, users));
      && ok && after.user == Some(users[i].profile) && after.isAuthenticated
      && after.token == token && after.error.None? && GuardOf(after) == Nested
  {
    AuthRoutes.IssuedTokenFetchesSelf(users, i, env, token);
  }

  /** A token the server does not accept leaves the client without a
      stored token and with the gate's message as its error. */
  lemma RejectedTokenDropped(s: State, users: seq<User>, env: Env, token: string)
    requires Truthy(token) && ' ' !in token
    requires env.verify(token).None?
    ensures var after := AfterLoadUser(s.(token := token), UserReply(token, env, users));
      after.token == "" && after.error == Some("Token is not valid")
  {
    Gate.TokenIsSecondField(token, "");
    assert "Bearer " + token + "" == "Bearer " + token;
  }
}
