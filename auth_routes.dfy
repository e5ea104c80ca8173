/** The credential routes (backend/routes/auth.js): `POST /register`,
    `POST /login` and `GET /user`. Each handler body runs as if `protect`
    had run first where it is mounted behind it. */
module AuthRoutes {
  import opened Common
  import opened Seqs
  import opened Text
  import opened UserModel
  import Email
  import Gate

  datatype RegisterBody = RegisterBody(
    firstName: string,
    lastName: string,
    email: string,
    password: string,
    registrationNumber: string,
    faculty: string,
    degreeProgram: string,
    batch: string)

  datatype LoginBody = LoginBody(email: string, password: Option<string>)

  /** The checks of the `/register` validation chain, in its order. */
  datatype RegisterRule =
    | FirstNameGiven | LastNameGiven | EmailAccepted | PasswordLongEnough
    | RegistrationNumberGiven | FacultyGiven | DegreeProgramGiven | BatchNumeric

  const RegisterRules: seq<RegisterRule> := [
    FirstNameGiven, LastNameGiven, EmailAccepted, PasswordLongEnough,
    RegistrationNumberGiven, FacultyGiven, DegreeProgramGiven, BatchNumeric]

  predicate RegisterPasses(rule: RegisterRule, b: RegisterBody, env: Env) {
    match rule
    case FirstNameGiven => Truthy(b.firstName)
    case LastNameGiven => Truthy(b.lastName)
    case EmailAccepted => env.acceptsEmail(b.email)
    case PasswordLongEnough => |b.password| >= 6
    case RegistrationNumberGiven => Truthy(b.registrationNumber)
    case FacultyGiven => Truthy(b.faculty)
    case DegreeProgramGiven => Truthy(b.degreeProgram)
    case BatchNumeric => IsNumeric(b.batch)
  }

  function RegisterMessage(rule: RegisterRule): string {
    match rule
    case FirstNameGiven => "First name is required"
    case LastNameGiven => "Last name is required"
    case EmailAccepted => "Please include a valid email"
    case PasswordLongEnough => "Please enter a password with 6+ characters"
    case RegistrationNumberGiven => "Registration number is required"
    case FacultyGiven => "Faculty is required"
    case DegreeProgramGiven => "Degree program is required"
    case BatchNumeric => "Batch year is required"
  }

  lemma AllRegisterRulesListed()
    ensures forall rule :: rule in RegisterRules
  {
    forall rule: RegisterRule ensures rule in RegisterRules {
      match rule
      case FirstNameGiven => assert RegisterRules[0] == rule;
      case LastNameGiven => assert RegisterRules[1] == rule;
      case EmailAccepted => assert RegisterRules[2] == rule;
      case PasswordLongEnough => assert RegisterRules[3] == rule;
      case RegistrationNumberGiven => assert RegisterRules[4] == rule;
      case FacultyGiven => assert RegisterRules[5] == rule;
      case DegreeProgramGiven => assert RegisterRules[6] == rule;
      case BatchNumeric => assert RegisterRules[7] == rule;
    }
  }

  /** The failing checks of `/register`, in chain order: every check that
      fails is reported, and only those. */
  function RegisterFailures(b: RegisterBody, env: Env): (r: seq<RegisterRule>)
    ensures forall rule :: rule in r <==> !RegisterPasses(rule, b, env)
    ensures IsSubsequence(r, RegisterRules)
  {
    var fails := (rule: RegisterRule) => !RegisterPasses(rule, b, env);
    FilterIsSubsequence(RegisterRules, fails);
    AllRegisterRulesListed();
    Filter(RegisterRules, fails)
  }

  /** A body passes `/register` validation exactly when every check does. */
  predicate RegisterValid(b: RegisterBody, env: Env) {
    RegisterFailures(b, env) == []
  }

  /** A body that passes validation passes every single check. */
  lemma RegisterValidPasses(b: RegisterBody, env: Env, rule: RegisterRule)
    requires RegisterValid(b, env)
    ensures RegisterPasses(rule, b, env)
  {
    assert rule !in RegisterFailures(b, env);
  }

  lemma RegisterValidMeans(b: RegisterBody, env: Env)
    ensures RegisterValid(b, env) <==>
      && Truthy(b.firstName) && Truthy(b.lastName) && env.acceptsEmail(b.email)
      && |b.password| >= 6 && Truthy(b.registrationNumber) && Truthy(b.faculty)
      && Truthy(b.degreeProgram) && IsNumeric(b.batch)
  {
    var r := RegisterFailures(b, env);
    if r == [] {
      RegisterValidPasses(b, env, FirstNameGiven);
      RegisterValidPasses(b, env, LastNameGiven);
      RegisterValidPasses(b, env, EmailAccepted);
      RegisterValidPasses(b, env, PasswordLongEnough);
      RegisterValidPasses(b, env, RegistrationNumberGiven);
      RegisterValidPasses(b, env, FacultyGiven);
      RegisterValidPasses(b, env, DegreeProgramGiven);
      RegisterValidPasses(b, env, BatchNumeric);
    } else {
      assert !RegisterPasses(r[0], b, env);
    }
  }

  /** A validated body makes a document that the schema accepts exactly
      when its email matches the schema's pattern. */
  lemma ValidBodySchema(b: RegisterBody, env: Env, id: Id, now: int)
    requires RegisterValid(b, env) && IsObjectId(id)
    ensures WellFormed(NewProfile(b, id, now)) <==> Email.EmailPattern(b.email)
  {
    RegisterValidMeans(b, env);
  }

  /** The `errors` array of a 400 reply from `/register`. */
  function RegisterErrors(b: RegisterBody, env: Env): (errs: seq<string>)
    ensures |errs| == |RegisterFailures(b, env)|
    ensures forall i :: 0 <= i < |errs| ==> errs[i] == RegisterMessage(RegisterFailures(b, env)[i])
    ensures errs == [] <==> RegisterFailures(b, env) == []
  {
    var rules := RegisterFailures(b, env);
    seq(|rules|, i requires 0 <= i < |rules| => RegisterMessage(rules[i]))
  }

  /** `findOne({ $or: [{ email }, { registrationNumber }] })`. */
  function Duplicate(users: seq<User>, b: RegisterBody): (r: Option<User>)
    ensures r.Some? ==> r.value in users
    ensures r.None? <==> forall i :: 0 <= i < |users| ==>
      users[i].profile.email != b.email && users[i].profile.registrationNumber != b.registrationNumber
  {
    Find(users, (u: User) => u.profile.email == b.email || u.profile.registrationNumber == b.registrationNumber)
  }

  /** The message for a clash: the found user's email decides which. */
  function DuplicateMessage(found: User, email: string): string {
    if found.profile.email == email then "User already exists" else "Registration number already in use"
  }

  /** The new user's fields as submitted; the optional ones take their
      schema defaults. */
  function NewProfile(b: RegisterBody, id: Id, now: int): Profile {
    Profile(id, b.firstName, b.lastName, b.registrationNumber, b.email, b.faculty,
            b.degreeProgram, b.batch, now, "", "", "", NoSocialLinks)
  }

  /** `POST /register` on a store `users`: the reply and the store after
      it. The new document's id `newId` and the clock `now` come from the
      store. Saving validates the document against the schema, whose email
      pattern is not the route's check: an address the route accepts and
      the schema refuses fails the save with 500. */
  function RegisterResult(users: seq<User>, body: RegisterBody, env: Env, newId: Id, now: int): (Reply<string>, seq<User>)
  {
    if RegisterErrors(body, env) != [] then (Invalid(RegisterErrors(body, env)), users)
    else match Duplicate(users, body)
      case Some(found) => (Error(400, DuplicateMessage(found, body.email)), users)
      case None =>
        var p := NewProfile(body, newId, now);
        if !WellFormed(p) then (Error(500, "Registration failed"), users)
        else (Ok(env.sign(TokenPayload(p))), users + [User(p, env.hash(body.password))])
  }

  /** Every refusal of `/register` leaves the store as it was: invalid input
      gets 400 with the error list, a clash gets 400 with the message the
      clashing user's email selects, and a schema refusal gets 500. */
  lemma RegisterRefusals(users: seq<User>, body: RegisterBody, env: Env, newId: Id, now: int)
    requires IsObjectId(newId)
    ensures var (r, after) := RegisterResult(users, body, env, newId, now);
      && (!r.Ok? ==> after == users)
      && (!RegisterValid(body, env) ==> r == Invalid(RegisterErrors(body, env)))
      && (RegisterValid(body, env) && Duplicate(users, body).Some? ==>
            r == Error(400, DuplicateMessage(Duplicate(users, body).value, body.email)))
      && (RegisterValid(body, env) && Duplicate(users, body).None? && !Email.EmailPattern(body.email) ==>
            r == Error(500, "Registration failed"))
  {
    if RegisterValid(body, env) {
      ValidBodySchema(body, env, newId, now);
    }
  }

  /** `/register` succeeds exactly when the body is valid, nothing clashes
      and the schema accepts the email. It then appends one user with the
      submitted fields and the hashed password, keeps the unique indexes,
      and returns the token a login with the same credentials returns. */
  lemma RegisterSucceeds(users: seq<User>, body: RegisterBody, env: Env, newId: Id, now: int)
    requires StoreInvariant(users)
    requires IsObjectId(newId) && forall i :: 0 <= i < |users| ==> users[i].profile.id != newId
    ensures var (r, after) := RegisterResult(users, body, env, newId, now);
      && StoreInvariant(after)
      && (r.Ok? <==> RegisterValid(body, env) && Duplicate(users, body).None? && Email.EmailPattern(body.email))
      && (r.Ok? ==>
            && after == users + [User(NewProfile(body, newId, now), env.hash(body.password))]
            && r.value == env.sign(TokenPayload(NewProfile(body, newId, now)))
            && Login(after, LoginBody(body.email, Some(body.password)), env) == Ok(r.value))
  {
    if RegisterValid(body, env) {
      ValidBodySchema(body, env, newId, now);
      if Duplicate(users, body).None? && Email.EmailPattern(body.email) {
        NewUserLogsIn(users, body, env, newId, now);
      }
    }
  }

  /** The `/register` handler: the validation chain, the clash lookup, then
      a new document saved through the schema check and the pre-save hook. */
  method Register(db: UserCollection, body: RegisterBody, env: Env, newId: Id, now: int)
    returns (r: Reply<string>)
    requires db.Valid()
    requires IsObjectId(newId) && forall i :: 0 <= i < |db.users| ==> db.users[i].profile.id != newId
    modifies db
    ensures (r, db.users) == RegisterResult(old(db.users), body, env, newId, now)
    ensures db.Valid()
  {
    var errs := RegisterErrors(body, env);
    if errs != [] {
      return Invalid(errs);
    }
    var existing := Duplicate(db.users, body);
    if existing.Some? {
      return Error(400, DuplicateMessage(existing.value, body.email));
    }
    var doc := new UserDoc(User(NewProfile(body, newId, now), body.password), true);
    // save(): schema validation first, then the pre-save hook.
    if !WellFormed(doc.user.profile) {
      return Error(500, "Registration failed");
    }
    doc.PreSave(env.hash);
    RegisterSucceeds(db.users, body, env, newId, now);
    db.users := db.users + [doc.user];
    r := Ok(env.sign(TokenPayload(doc.user.profile)));
  }

  /** A user appended with no clash keeps the unique indexes, and can log in
      with the submitted password to receive the token of the registration. */
  lemma NewUserLogsIn(users: seq<User>, body: RegisterBody, env: Env, newId: Id, now: int)
    requires StoreInvariant(users)
    requires RegisterValid(body, env) && Duplicate(users, body).None?
    requires WellFormed(NewProfile(body, newId, now))
    requires forall i :: 0 <= i < |users| ==> users[i].profile.id != newId
    ensures StoreInvariant(users + [User(NewProfile(body, newId, now), env.hash(body.password))])
    ensures Login(users + [User(NewProfile(body, newId, now), env.hash(body.password))],
                  LoginBody(body.email, Some(body.password)), env)
            == Ok(env.sign(TokenPayload(NewProfile(body, newId, now))))
  {
    var added := User(NewProfile(body, newId, now), env.hash(body.password));
    assert forall i :: 0 <= i < |users| ==> DistinctKeys(users[i].profile, added.profile);
    AppendKeepsInvariant(users, added);
    var all := users + [added];
    assert all[|users|] == added;
    FindByEmailUnique(all, |users|);
    var b := LoginBody(body.email, Some(body.password));
    RegisterValidPasses(body, env, EmailAccepted);
    assert LoginErrors(b, env) == [];
    assert FindByEmail(all, b.email) == Some(added);
    assert MatchPassword(added, body.password, env);
  }

  /** The validation chain of `/login`: the messages of its failing
      checks, in order. */
  function LoginErrors(b: LoginBody, env: Env): (errs: seq<string>)
    ensures "Please include a valid email" in errs <==> !env.acceptsEmail(b.email)
    ensures "Password is required" in errs <==> b.password.None?
    ensures errs == [] <==> env.acceptsEmail(b.email) && b.password.Some?
  {
    (if env.acceptsEmail(b.email) then [] else ["Please include a valid email"])
    + (if b.password.Some? then [] else ["Password is required"])
  }

  /** `POST /login`. An unknown email and a wrong password give the same
      reply. */
  function Login(users: seq<User>, b: LoginBody, env: Env): (r: Reply<string>)
    ensures r.Invalid? <==> LoginErrors(b, env) != []
    ensures r.Error? ==> r == Error(400, "Invalid credentials")
    ensures r.Ok? ==> exists u :: u in users && u.profile.email == b.email && b.password.Some?
                                 && MatchPassword(u, b.password.value, env)
                                 && r.value == env.sign(TokenPayload(u.profile))
  {
    if LoginErrors(b, env) != [] then Invalid(LoginErrors(b, env))
    else match FindByEmail(users, b.email)
      case None => Error(400, "Invalid credentials")
      case Some(u) =>
        if !MatchPassword(u, b.password.value, env) then Error(400, "Invalid credentials")
        else Ok(env.sign(TokenPayload(u.profile)))
  }

  /** With unique emails, login issues a token exactly when a user with that
      email exists and the password matches it. */
  lemma LoginSucceedsIff(users: seq<User>, b: LoginBody, env: Env)
    requires StoreInvariant(users) && LoginErrors(b, env) == []
    ensures Login(users, b, env).Ok? <==>
      exists i :: 0 <= i < |users| && users[i].profile.email == b.email && MatchPassword(users[i], b.password.value, env)
  {
    if i :| 0 <= i < |users| && users[i].profile.email == b.email && MatchPassword(users[i], b.password.value, env) {
      FindByEmailUnique(users, i);
    }
  }

  /** An unknown email and a known email with a wrong password cannot be
      told apart, and neither gets a token. */
  lemma LoginFailuresAlike(users: seq<User>, unknown: LoginBody, wrong: LoginBody, env: Env)
    requires LoginErrors(unknown, env) == [] && LoginErrors(wrong, env) == []
    requires forall i :: 0 <= i < |users| ==> users[i].profile.email != unknown.email
    requires FindByEmail(users, wrong.email).Some?
    requires !MatchPassword(FindByEmail(users, wrong.email).value, wrong.password.value, env)
    ensures Login(users, unknown, env) == Login(users, wrong, env) == Error(400, "Invalid credentials")
  {
  }

  /** `GET /user`: the authenticated user again, without the password. An
      id that cannot be cast to a document id makes the lookup throw, which
      the handler answers with 500. */
  function CurrentUser(users: seq<User>, id: Id): (r: Reply<Profile>)
    ensures r.Ok? ==> r.value.id == id && exists u :: u in users && u.profile == r.value
    ensures r == Error(500, "Server Error") <==> !IsObjectId(id)
    ensures r == Error(404, "User not found") <==>
      IsObjectId(id) && forall i :: 0 <= i < |users| ==> users[i].profile.id != id
    ensures r.Ok? || r == Error(500, "Server Error") || r == Error(404, "User not found")
  {
    if !IsObjectId(id) then Error(500, "Server Error")
    else match FindById(users, id)
      case None => Error(404, "User not found")
      case Some(u) => Ok(u.profile)
  }

  /** A token issued at registration or login, sent to `GET /user`, passes
      the gate and returns the same user without the password. */
  lemma IssuedTokenFetchesSelf(users: seq<User>, i: nat, env: Env, token: string)
    requires StoreInvariant(users) && i < |users|
    requires Truthy(token) && ' ' !in token
    requires env.verify(token) == Some(TokenPayload(users[i].profile))
    ensures Gate.Authenticate("Bearer " + token, env, users) == Gate.Forward(users[i].profile)
    ensures CurrentUser(users, users[i].profile.id) == Ok(users[i].profile)
  {
    Gate.IssuedTokenAccepted(users, i, env, token);
    FindByIdUnique(users, i);
  }
}
