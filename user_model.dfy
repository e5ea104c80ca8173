/** The user schema (backend/models/User.js): the stored record, the
    uniqueness and required-field rules, the pre-save password hook, the
    token payload and the password check. Hashing and token signing are
    third-party calls; they enter the model as the function values of an
    `Env`. */
module UserModel {
  import opened Common
  import opened Seqs
  import opened Text
  import Email

  type Id = string

  /** A string a query can cast to a document id: 24 hexadecimal digits. */
  predicate IsObjectId(s: string) {
    |s| == 24 && forall i :: 0 <= i < |s| ==> IsHexDigit(s[i])
  }

  datatype SocialLinks = SocialLinks(facebook: string, instagram: string, whatsapp: string)

  const NoSocialLinks := SocialLinks("", "", "")

  /** A user record as queries return it by default: every field but the
      password, which the schema marks `select: false`. `batch` is kept as
      the numeric text it was submitted as. */
  datatype Profile = Profile(
    id: Id,
    firstName: string,
    lastName: string,
    registrationNumber: string,
    email: string,
    faculty: string,
    degreeProgram: string,
    batch: string,
    createdAt: int,
    bio: string,
    avatar: string,
    coverImage: string,
    socialLinks: SocialLinks)

  /** The stored document: the profile and the password hash. Selecting
      `-password` is the projection `.profile`. */
  datatype User = User(profile: Profile, password: string)

  /** A claim that is absent from a token payload is "". */
  datatype NestedUser = NestedUser(id: string)
  datatype Payload = Payload(id: string, underscoreId: string, user: Option<NestedUser>)

  /** The outside code the schema and routes call: the password hash of
      bcrypt (salting left out: a password always hashes to the same text),
      the JWT signer and verifier (the secret and the expiry are inside
      them), and express-validator's `isEmail`. */
  datatype Env = Env(
    hash: string -> string,
    sign: Payload -> string,
    verify: string -> Option<Payload>,
    acceptsEmail: string -> bool)

  /** The schema's per-document rules: required fields are non-empty, the
      email matches the schema pattern, and the id is a document id. */
  predicate WellFormed(p: Profile) {
    && IsObjectId(p.id)
    && Truthy(p.firstName) && Truthy(p.lastName) && Truthy(p.registrationNumber)
    && Truthy(p.faculty) && Truthy(p.degreeProgram) && Truthy(p.batch)
    && Email.EmailPattern(p.email)
  }

  /** The unique indexes: two stored users differ in id, email and
      registration number. */
  predicate DistinctKeys(p: Profile, q: Profile) {
    p.id != q.id && p.email != q.email && p.registrationNumber != q.registrationNumber
  }

  predicate StoreInvariant(users: seq<User>) {
    && (forall i :: 0 <= i < |users| ==> WellFormed(users[i].profile))
    && (forall i, j :: 0 <= i < j < |users| ==> DistinctKeys(users[i].profile, users[j].profile))
  }

  /** Appending a well-formed user whose keys clash with no stored user
      keeps the unique indexes. */
  lemma AppendKeepsInvariant(users: seq<User>, u: User)
    requires StoreInvariant(users) && WellFormed(u.profile)
    requires forall i :: 0 <= i < |users| ==> DistinctKeys(users[i].profile, u.profile)
    ensures StoreInvariant(users + [u])
  {
    var all := users + [u];
    assert forall i :: 0 <= i < |users| ==> all[i] == users[i];
    assert all[|users|] == u;
  }

  /** `findOne(filter)`: the first stored user the filter accepts. */
  function Find(users: seq<User>, filter: User -> bool): (r: Option<User>)
    ensures r.Some? ==> r.value in users && filter(r.value)
    ensures r.None? <==> forall i :: 0 <= i < |users| ==> !filter(users[i])
  {
    match FirstIndex(users, filter)
    case None => None
    case Some(i) => Some(users[i])
  }

  function FindById(users: seq<User>, id: Id): (r: Option<User>)
    ensures r.Some? ==> r.value in users && r.value.profile.id == id
    ensures r.None? <==> forall i :: 0 <= i < |users| ==> users[i].profile.id != id
  {
    Find(users, (u: User) => u.profile.id == id)
  }

  function FindByEmail(users: seq<User>, email: string): (r: Option<User>)
    ensures r.Some? ==> r.value in users && r.value.profile.email == email
    ensures r.None? <==> forall i :: 0 <= i < |users| ==> users[i].profile.email != email
  {
    Find(users, (u: User) => u.profile.email == email)
  }

  /** Under the unique indexes a lookup by id finds the one user with it. */
  lemma {:induction false} FindByIdUnique(users: seq<User>, i: nat)
    requires StoreInvariant(users) && i < |users|
    ensures FindById(users, users[i].profile.id) == Some(users[i])
  {
    var id := users[i].profile.id;
    var k := FirstIndex(users, (u: User) => u.profile.id == id);
    assert k.Some? && k.value <= i;
  }

  /** Under the unique indexes a lookup by email finds the one user with it. */
  lemma {:induction false} FindByEmailUnique(users: seq<User>, i: nat)
    requires StoreInvariant(users) && i < |users|
    ensures FindByEmail(users, users[i].profile.email) == Some(users[i])
  {
    var email := users[i].profile.email;
    var k := FirstIndex(users, (u: User) => u.profile.email == email);
    assert k.Some? && k.value <= i;
  }

  /** `getSignedJwtToken`'s payload: `{ id: this._id }`. */
  function TokenPayload(p: Profile): Payload {
    Payload(p.id, "", None)
  }

  /** `matchPassword`: the entered password hashes to the stored hash. */
  predicate MatchPassword(u: User, entered: string, env: Env) {
    env.hash(entered) == u.password
  }

  /** A document being saved, with Mongoose's record of whether its
      password path was modified since it was loaded. */
  class UserDoc {
    var user: User
    const passwordModified: bool

    constructor (user: User, passwordModified: bool)
      ensures this.user == user && this.passwordModified == passwordModified
    {
      this.user := user;
      this.passwordModified := passwordModified;
    }

    /** The pre-save hook: the password is replaced by its hash only when it
        was modified; otherwise the stored hash is left as it is. */
    method PreSave(hash: string -> string)
      modifies this
      ensures passwordModified ==> user == old(user).(password := hash(old(user).password))
      ensures !passwordModified ==> user == old(user)
    {
      if passwordModified {
        user := user.(password := hash(user.password));
      }
    }
  }

  /** The users collection. */
  class UserCollection {
    var users: seq<User>

    predicate Valid()
      reads this
    {
      StoreInvariant(users)
    }

    constructor ()
      ensures Valid() && users == []
    {
      users := [];
    }
  }
}
