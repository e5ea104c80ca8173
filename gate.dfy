/** The bearer-token gate `protect` (backend/middleware/auth.js): read the
    token from the `Authorization` header, verify it, take the subject id
    from one of three payload shapes, load that user without the password,
    and either pass the request on or answer 401. */
module Gate {
  import opened Common
  import opened Text
  import opened UserModel

  datatype Outcome = Forward(user: Profile) | Reject(status: int, msg: string)

  /** The token: the second space-separated field of a header that starts
      with "Bearer". An absent header is "". A missing or empty second field
      is no token. */
  function BearerToken(authorization: string): (r: Option<string>)
    ensures r.Some? ==> StartsWith(authorization, "Bearer") && Truthy(r.value) && ' ' !in r.value
  {
    if Truthy(authorization) && StartsWith(authorization, "Bearer") then
      var fields := Split(authorization, ' ');
      if |fields| > 1 && Truthy(fields[1]) then Some(fields[1]) else None
    else None
  }

  /** `decoded.id || decoded._id || decoded.user?.id`: the first truthy one. */
  function SubjectId(p: Payload): (r: Option<string>)
    ensures Truthy(p.id) ==> r == Some(p.id)
    ensures !Truthy(p.id) && Truthy(p.underscoreId) ==> r == Some(p.underscoreId)
    ensures (!Truthy(p.id) && !Truthy(p.underscoreId) && p.user.Some? && Truthy(p.user.value.id)) ==> r == Some(p.user.value.id)
    ensures r.None? <==> !Truthy(p.id) && !Truthy(p.underscoreId) && (p.user.None? || !Truthy(p.user.value.id))
  {
    var nested := match p.user case Some(n) => n.id case None => "";
    var id := OrElse(p.id, OrElse(p.underscoreId, nested));
    if Truthy(id) then Some(id) else None
  }

  /** What `protect` does once the token has verified to `payload`. An id
      that cannot be cast to a document id makes `findById` throw, which the
      handler's `catch` answers as an invalid token. */
  function Resolve(payload: Payload, users: seq<User>): (r: Outcome)
    ensures r.Reject? ==> r.status == 401
    ensures r.Forward? ==> exists u :: u in users && u.profile == r.user && Some(u.profile.id) == SubjectId(payload)
    ensures SubjectId(payload).None? ==> r == Reject(401, "Token invalid: No user ID found")
    ensures SubjectId(payload).Some? && !IsObjectId(SubjectId(payload).value) ==>
      r == Reject(401, "Token is not valid")
    ensures (&& SubjectId(payload).Some? && IsObjectId(SubjectId(payload).value)
             && forall i :: 0 <= i < |users| ==> users[i].profile.id != SubjectId(payload).value)
            ==> r == Reject(401, "User not found")
    ensures r.Forward? <==>
      && SubjectId(payload).Some? && IsObjectId(SubjectId(payload).value)
      && exists i :: 0 <= i < |users| && users[i].profile.id == SubjectId(payload).value
  {
    match SubjectId(payload)
    case None => Reject(401, "Token invalid: No user ID found")
    case Some(id) =>
      if !IsObjectId(id) then Reject(401, "Token is not valid")
      else match FindById(users, id)
        case None => Reject(401, "User not found")
        case Some(u) => Forward(u.profile)
  }

  /** The whole decision of `protect`. Every rejection is a 401; a request
      goes on only with a stored user, password left out. */
  function Authenticate(authorization: string, env: Env, users: seq<User>): (r: Outcome)
    ensures r.Reject? ==> r.status == 401
    ensures r.Forward? ==> exists u :: u in users && u.profile == r.user
    ensures r.Forward? ==> BearerToken(authorization).Some? && env.verify(BearerToken(authorization).value).Some?
    ensures BearerToken(authorization).None? ==> r == Reject(401, "No token, authorization denied")
    ensures BearerToken(authorization).Some? && env.verify(BearerToken(authorization).value).None? ==>
      r == Reject(401, "Token is not valid")
    ensures BearerToken(authorization).Some? && env.verify(BearerToken(authorization).value).Some? ==>
      r == Resolve(env.verify(BearerToken(authorization).value).value, users)
  {
    match BearerToken(authorization)
    case None => Reject(401, "No token, authorization denied")
    case Some(token) =>
      match env.verify(token)
      case None => Reject(401, "Token is not valid")
      case Some(payload) => Resolve(payload, users)
  }

  /** A header that is absent or does not start with "Bearer" is refused for
      want of a token. */
  lemma NotBearerRejected(authorization: string, env: Env, users: seq<User>)
    requires !StartsWith(authorization, "Bearer")
    ensures Authenticate(authorization, env, users) == Reject(401, "No token, authorization denied")
  {
  }

  /** "Bearer" with an absent second field is no token. */
  lemma BearerAloneRejected(env: Env, users: seq<User>)
    ensures Authenticate("Bearer", env, users) == Reject(401, "No token, authorization denied")
  {
    SplitWithoutSep("Bearer", ' ');
  }

  /** "Bearer" with an empty second field is no token either, even when a
      token follows after a second space. */
  lemma EmptySecondFieldRejected(rest: string, env: Env, users: seq<User>)
    requires rest == [] || rest[0] == ' '
    ensures Authenticate("Bearer " + rest, env, users) == Reject(401, "No token, authorization denied")
  {
    assert "Bearer " + rest == "Bearer" + [' '] + rest;
    SplitAtFirstSep("Bearer", ' ', rest);
    if rest != [] {
      assert rest == "" + [' '] + rest[1..];
      SplitAtFirstSep("", ' ', rest[1..]);
    }
  }

  /** The token is the second field, whatever follows a further space. */
  lemma {:induction false} TokenIsSecondField(token: string, tail: string)
    requires Truthy(token) && ' ' !in token
    requires tail == [] || tail[0] == ' '
    ensures BearerToken("Bearer " + token + tail) == Some(token)
  {
    var h := "Bearer " + token + tail;
    assert h == "Bearer" + [' '] + (token + tail);
    SplitAtFirstSep("Bearer", ' ', token + tail);
    if tail == [] {
      assert token + tail == token;
      SplitWithoutSep(token, ' ');
    } else {
      assert token + tail == token + [' '] + tail[1..];
      SplitAtFirstSep(token, ' ', tail[1..]);
    }
  }

  /** A present token is never refused for its text, not even the strings
      "null" and "undefined" a client writes for a missing token: the
      outcome depends only on what verification makes of it. */
  lemma LiteralNullTokensNotSpecial(env: Env, users: seq<User>)
    ensures Authenticate("Bearer null", env, users)
            == (match env.verify("null")
                case None => Reject(401, "Token is not valid")
                case Some(p) => Resolve(p, users))
    ensures Authenticate("Bearer undefined", env, users)
            == (match env.verify("undefined")
                case None => Reject(401, "Token is not valid")
                case Some(p) => Resolve(p, users))
  {
    TokenIsSecondField("null", "");
    TokenIsSecondField("undefined", "");
    assert "Bearer " + "null" + "" == "Bearer null";
    assert "Bearer " + "undefined" + "" == "Bearer undefined";
  }

  /** The three payload shapes with the same subject resolve to the same
      outcome. */
  lemma PayloadShapesAgree(x: string, users: seq<User>)
    requires Truthy(x)
    ensures Resolve(Payload(x, "", None), users) == Resolve(Payload("", x, None), users)
    ensures Resolve(Payload(x, "", None), users) == Resolve(Payload("", "", Some(NestedUser(x))), users)
  {
  }

  /** The payload of an issued token names its user through `id`, the
      first place the gate looks. */
  lemma TokenSubjectIsUser(p: Profile)
    requires WellFormed(p)
    ensures SubjectId(TokenPayload(p)) == Some(p.id)
  {
  }

  /** A token issued for a stored user (its payload `{ id }`) lets the
      request through with that user: registration or login followed by
      any protected request. */
  lemma IssuedTokenAccepted(users: seq<User>, i: nat, env: Env, token: string)
    requires StoreInvariant(users) && i < |users|
    requires Truthy(token) && ' ' !in token
    requires env.verify(token) == Some(TokenPayload(users[i].profile))
    ensures Authenticate("Bearer " + token, env, users) == Forward(users[i].profile)
  {
    TokenIsSecondField(token, "");
    assert "Bearer " + token + "" == "Bearer " + token;
    FindByIdUnique(users, i);
  }

  /** The request as `protect` sees it: the header, the `req.user` it
      sets, and the reply it sends when it does not call `next()`. */
  class Request {
    const authorization: string
    var user: Option<Profile>
    var reply: Option<Outcome>

    constructor (authorization: string)
      ensures this.authorization == authorization && user == None && reply == None
    {
      this.authorization := authorization;
      user := None;
      reply := None;
    }

    /** Runs the gate; `next` tells whether `next()` was called. */
    method Protect(env: Env, users: seq<User>) returns (next: bool)
      modifies this
      ensures var out := Authenticate(authorization, env, users);
        && next == out.Forward?
        && (out.Forward? ==> user == Some(out.user) && reply == old(reply))
        && (out.Reject? ==> reply == Some(out))
        && (out == Reject(401, "User not found") ==> user == None)
        && (out.Reject? && out.msg != "User not found" ==> user == old(user))
    {
      var token := "";
      if Truthy(authorization) && StartsWith(authorization, "Bearer") {
        var fields := Split(authorization, ' ');
        token := if |fields| > 1 then fields[1] else "";
      }
      if !Truthy(token) {
        reply := Some(Reject(401, "No token, authorization denied"));
        return false;
      }
      var decoded := env.verify(token);
      if decoded.None? {
        reply := Some(Reject(401, "Token is not valid"));
        return false;
      }
      var userId := SubjectId(decoded.value);
      if userId.None? {
        reply := Some(Reject(401, "Token invalid: No user ID found"));
        return false;
      }
      if !IsObjectId(userId.value) {
        reply := Some(Reject(401, "Token is not valid"));
        return false;
      }
      var found := FindById(users, userId.value);
      user := if found.Some? then Some(found.value.profile) else None;
      if user.None? {
        reply := Some(Reject(401, "User not found"));
        return false;
      }
      next := true;
    }
  }
}
