/** The client's authentication state (frontend/src/context/authContext.js):
    the signed-in user, whether the client counts as authenticated, a
    loading flag, the last error, and the token kept in local storage.
    Server replies are parameters: `loadUser`, `register` and `login` each
    receive the reply their request would get. React's batching of state
    updates is not modelled; updates take effect in program order. */
module AuthContext {
  import opened Common
  import opened UserModel

  /** The JSON body of an error reply: `error` and `msg`, "" when absent
      (and both "" when no reply arrived at all). */
  datatype ErrorBody = ErrorBody(error: string, msg: string)

  datatype Response<T> = Success(data: T) | Failure(body: ErrorBody)

  /** A snapshot of the context: its four state fields and the stored
      token ("" when local storage holds none). */
  datatype State = State(
    user: Option<Profile>,
    isAuthenticated: bool,
    loading: bool,
    error: Option<string>,
    token: string)

  /** `isAuthenticated` is true exactly when a user is loaded. */
  predicate Consistent(s: State) {
    s.isAuthenticated <==> s.user.Some?
  }

  /** `loadUser` given the reply to `GET /api/auth/user`. */
  function AfterLoadUser(s: State, res: Response<Profile>): (r: State)
    ensures !Truthy(s.token) ==> r == s
    ensures Truthy(s.token) && res.Success? ==>
      && r.user == Some(res.data) && r.isAuthenticated
      && r.token == s.token && r.error == s.error
    ensures Truthy(s.token) && res.Failure? ==>
      && r.token == "" && r.error == Some(OrElse(res.body.msg, "Error loading user"))
      && r.isAuthenticated == s.isAuthenticated && r.user == s.user
    ensures r.loading == s.loading
  {
    if !Truthy(s.token) then s
    else match res
      case Success(u) => s.(user := Some(u), isAuthenticated := true)
      case Failure(b) => s.(token := "", error := Some(OrElse(b.msg, "Error loading user")))
  }

  /** `register` given the reply to `POST /api/auth/register` and the reply
      the `loadUser` that follows a token would get. The boolean is the
      result `register` returns. */
  function AfterRegister(s: State, res: Response<string>, userRes: Response<Profile>): (r: (State, bool))
    ensures r.1 <==> res.Success? && Truthy(res.data)
    ensures r.1 ==> r.0 == AfterLoadUser(s.(loading := true, error := None, token := res.data), userRes).(loading := false)
    ensures res.Success? && !Truthy(res.data) ==> r.0.error == Some("Registration failed")
    ensures res.Failure? ==>
      r.0.error == Some(OrElse(res.body.error, OrElse(res.body.msg, "Registration failed. Please try again.")))
    ensures !r.1 ==> r.0 == s.(error := r.0.error, loading := false)
    ensures !r.0.loading
  {
    var started := s.(loading := true, error := None);
    match res
    case Success(token) =>
      if Truthy(token) then (AfterLoadUser(started.(token := token), userRes).(loading := false), true)
      else (started.(error := Some("Registration failed"), loading := false), false)
    case Failure(b) =>
      var msg := OrElse(b.error, OrElse(b.msg, "Registration failed. Please try again."));
      (started.(error := Some(msg), loading := false), false)
  }

  /** `login` given the reply to `POST /api/auth/login` and the reply the
      following `loadUser` would get. */
  function AfterLogin(s: State, res: Response<string>, userRes: Response<Profile>): (r: (State, bool))
    ensures r.1 <==> res.Success?
    ensures r.1 ==> r.0 == AfterLoadUser(s.(loading := true, error := None, token := res.data), userRes).(loading := false)
    ensures !r.1 ==> r.0 == s.(error := Some(OrElse(res.body.msg, "Login failed")), loading := false)
    ensures !r.0.loading
  {
    var started := s.(loading := true, error := None);
    match res
    case Success(token) => (AfterLoadUser(started.(token := token), userRes).(loading := false), true)
    case Failure(b) => (started.(error := Some(OrElse(b.msg, "Login failed")), loading := false), false)
  }

  /** `logout`: no token, no user, not authenticated; loading and the error
      stay as they were. */
  function AfterLogout(s: State): (r: State)
    ensures r.token == "" && r.user.None? && !r.isAuthenticated
    ensures r.loading == s.loading && r.error == s.error
  {
    s.(token := "", user := None, isAuthenticated := false)
  }

  /** Logging out twice is logging out once. */
  lemma LogoutIdempotent(s: State)
    ensures AfterLogout(AfterLogout(s)) == AfterLogout(s)
  {
  }

  /** Every operation keeps `isAuthenticated` in step with the user. */
  lemma OperationsKeepConsistent(s: State, res: Response<string>, userRes: Response<Profile>)
    requires Consistent(s)
    ensures Consistent(AfterLoadUser(s, userRes))
    ensures Consistent(AfterRegister(s, res, userRes).0)
    ensures Consistent(AfterLogin(s, res, userRes).0)
    ensures Consistent(AfterLogout(s))
  {
  }

  /** A failed `loadUser` drops the token but leaves a client that was
      authenticated still authenticated, with its user. */
  lemma FailedLoadKeepsSession(s: State, body: ErrorBody)
    requires Truthy(s.token) && s.isAuthenticated
    ensures AfterLoadUser(s, Failure(body)).isAuthenticated
    ensures AfterLoadUser(s, Failure(body)).user == s.user
    ensures AfterLoadUser(s, Failure(body)).token == ""
  {
  }

  /** The provider's state fields and local storage's `token` entry. */
  class AuthProvider {
    var user: Option<Profile>
    var isAuthenticated: bool
    var loading: bool
    var error: Option<string>
    var token: string

    function Snapshot(): State
      reads this
    {
      State(user, isAuthenticated, loading, error, token)
    }

    /** A provider mounted with `stored` in local storage. */
    constructor (stored: string)
      ensures Snapshot() == State(None, false, false, None, stored)
      ensures Consistent(Snapshot())
    {
      user := None;
      isAuthenticated := false;
      loading := false;
      error := None;
      token := stored;
    }

    method ClearErrors()
      modifies this
      ensures Snapshot() == old(Snapshot()).(error := None)
    {
      error := None;
    }

    method LoadUser(res: Response<Profile>)
      modifies this
      ensures Snapshot() == AfterLoadUser(old(Snapshot()), res)
    {
      if !Truthy(token) {
        return;
      }
      match res {
        case Success(u) =>
          user := Some(u);
          isAuthenticated := true;
        case Failure(b) =>
          token := "";
          error := Some(OrElse(b.msg, "Error loading user"));
      }
    }

    method Register(res: Response<string>, userRes: Response<Profile>) returns (ok: bool)
      modifies this
      ensures (Snapshot(), ok) == AfterRegister(old(Snapshot()), res, userRes)
    {
      loading := true;
      ClearErrors();
      if res.Success? && Truthy(res.data) {
        token := res.data;
        LoadUser(userRes);
        ok := true;
      } else if res.Success? {
        error := Some("Registration failed");
        ok := false;
      } else {
        error := Some(OrElse(res.body.error, OrElse(res.body.msg, "Registration failed. Please try again.")));
        ok := false;
      }
      loading := false;
    }

    method Login(res: Response<string>, userRes: Response<Profile>) returns (ok: bool)
      modifies this
      ensures (Snapshot(), ok) == AfterLogin(old(Snapshot()), res, userRes)
    {
      loading := true;
      ClearErrors();
      if res.Success? {
        token := res.data;
        LoadUser(userRes);
        ok := true;
      } else {
        error := Some(OrElse(res.body.msg, "Login failed"));
        ok := false;
      }
      loading := false;
    }

    method Logout()
      modifies this
      ensures Snapshot() == AfterLogout(old(Snapshot()))
    {
      token := "";
      user := None;
      isAuthenticated := false;
    }
  }
}
