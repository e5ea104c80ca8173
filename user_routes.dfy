/** The user routes (backend/routes/userRoutes.js), each behind `protect`:
    `PUT /profile` merges the submitted fields into the requester's record,
    `GET /` lists the other users that match optional filters, and
    `GET /:id` loads one user. */
module UserRoutes {
  import opened Common
  import opened Seqs
  import opened UserModel

  /** The fields `PUT /profile` reads from the body; an absent one is "". */
  datatype ProfileEdit = ProfileEdit(
    firstName: string,
    lastName: string,
    bio: string,
    degreeProgram: string,
    faculty: string,
    batch: string,
    avatar: string,
    coverImage: string)

  const EmptyEdit := ProfileEdit("", "", "", "", "", "", "", "")

  /** Each editable field takes the submitted value when it is truthy and
      keeps the stored one otherwise. */
  function Merged(p: Profile, e: ProfileEdit): (r: Profile)
    ensures r.id == p.id && r.email == p.email && r.registrationNumber == p.registrationNumber
    ensures r.createdAt == p.createdAt && r.socialLinks == p.socialLinks
    ensures Truthy(e.firstName) ==> r.firstName == e.firstName
    ensures !Truthy(e.firstName) ==> r.firstName == p.firstName
    ensures Truthy(e.lastName) ==> r.lastName == e.lastName
    ensures !Truthy(e.lastName) ==> r.lastName == p.lastName
    ensures Truthy(e.bio) ==> r.bio == e.bio
    ensures !Truthy(e.bio) ==> r.bio == p.bio
    ensures Truthy(e.degreeProgram) ==> r.degreeProgram == e.degreeProgram
    ensures !Truthy(e.degreeProgram) ==> r.degreeProgram == p.degreeProgram
    ensures Truthy(e.faculty) ==> r.faculty == e.faculty
    ensures !Truthy(e.faculty) ==> r.faculty == p.faculty
    ensures Truthy(e.batch) ==> r.batch == e.batch
    ensures !Truthy(e.batch) ==> r.batch == p.batch
    ensures Truthy(e.avatar) ==> r.avatar == e.avatar
    ensures !Truthy(e.avatar) ==> r.avatar == p.avatar
    ensures Truthy(e.coverImage) ==> r.coverImage == e.coverImage
    ensures !Truthy(e.coverImage) ==> r.coverImage == p.coverImage
  {
    p.(firstName := OrElse(e.firstName, p.firstName),
       lastName := OrElse(e.lastName, p.lastName),
       bio := OrElse(e.bio, p.bio),
       degreeProgram := OrElse(e.degreeProgram, p.degreeProgram),
       faculty := OrElse(e.faculty, p.faculty),
       batch := OrElse(e.batch, p.batch),
       avatar := if Truthy(e.avatar) then e.avatar else p.avatar,
       coverImage := if Truthy(e.coverImage) then e.coverImage else p.coverImage)
  }

  /** A body with no truthy field changes nothing. */
  lemma EmptyEditKeepsProfile(p: Profile)
    ensures Merged(p, EmptyEdit) == p
  {
  }

  /** Submitting the same edit twice has the effect of submitting it once. */
  lemma MergeIdempotent(p: Profile, e: ProfileEdit)
    ensures Merged(Merged(p, e), e) == Merged(p, e)
  {
  }

  /** A merged record keeps the schema's rules and every key of the record. */
  lemma MergedWellFormed(p: Profile, e: ProfileEdit)
    requires WellFormed(p)
    ensures WellFormed(Merged(p, e))
  {
  }

  /** Replacing a stored user by one with the same keys and password, and
      well formed, keeps the store invariant. */
  lemma ReplaceKeepsInvariant(users: seq<User>, i: nat, u: User)
    requires StoreInvariant(users) && i < |users| && WellFormed(u.profile)
    requires u.profile.id == users[i].profile.id && u.profile.email == users[i].profile.email
    requires u.profile.registrationNumber == users[i].profile.registrationNumber
    ensures StoreInvariant(users[i := u])
  {
    var all := users[i := u];
    forall j, k | 0 <= j < k < |all| ensures DistinctKeys(all[j].profile, all[k].profile) {
      assert DistinctKeys(users[j].profile, users[k].profile);
    }
  }

  /** `PUT /profile` for the user `requesterId` that `protect` resolved.
      The document is loaded without its password, so saving it leaves the
      stored hash as it is. Saving casts `batch` to a number; a value
      `castsToNumber` refuses fails the save with 500. */
  method UpdateProfile(db: UserCollection, requesterId: Id, e: ProfileEdit, castsToNumber: string -> bool)
    returns (r: Reply<Profile>)
    requires db.Valid()
    modifies db
    ensures db.Valid()
    ensures (forall i :: 0 <= i < |old(db.users)| ==> old(db.users)[i].profile.id != requesterId) ==>
      r == Error(404, "User not found") && db.users == old(db.users)
    ensures forall i :: 0 <= i < |old(db.users)| && old(db.users)[i].profile.id == requesterId ==>
      var updated := Merged(old(db.users)[i].profile, e);
      if castsToNumber(updated.batch) then
        r == Ok(updated) && db.users == old(db.users)[i := User(updated, old(db.users)[i].password)]
      else
        r == Error(500, "Server Error") && db.users == old(db.users)
  {
    var k := FirstIndex(db.users, (u: User) => u.profile.id == requesterId);
    if k.None? {
      return Error(404, "User not found");
    }
    var i := k.value;
    var doc := new UserDoc(db.users[i], false);
    doc.user := doc.user.(profile := Merged(doc.user.profile, e));
    if !castsToNumber(doc.user.profile.batch) {
      return Error(500, "Server Error");
    }
    doc.PreSave(hash := (s: string) => s);
    MergedWellFormed(db.users[i].profile, e);
    ReplaceKeepsInvariant(db.users, i, doc.user);
    db.users := db.users[i := doc.user];
    r := Ok(doc.user.profile);
  }

  /** The filters of `GET /`; an absent one is "". */
  datatype UserQuery = UserQuery(faculty: string, batch: string, degreeProgram: string)

  const NoFilters := UserQuery("", "", "")

  /** A profile the listing returns to `requesterId`: every supplied filter
      matches, and it is not the requester. */
  predicate Listed(p: Profile, q: UserQuery, requesterId: Id) {
    && (Truthy(q.faculty) ==> p.faculty == q.faculty)
    && (Truthy(q.batch) ==> p.batch == q.batch)
    && (Truthy(q.degreeProgram) ==> p.degreeProgram == q.degreeProgram)
    && p.id != requesterId
  }

  /** The stored users as queries return them: without the password. */
  function Profiles(users: seq<User>): (r: seq<Profile>)
    ensures |r| == |users| && forall i :: 0 <= i < |users| ==> r[i] == users[i].profile
  {
    seq(|users|, i requires 0 <= i < |users| => users[i].profile)
  }

  /** `GET /`: the matching users in store order. A batch filter is cast to
      a number for the query; a value `castsToNumber` refuses makes the
      query throw, which the handler answers with 500. */
  function ListUsers(users: seq<User>, q: UserQuery, requesterId: Id, castsToNumber: string -> bool): (r: Reply<seq<Profile>>)
    ensures r.Error? <==> Truthy(q.batch) && !castsToNumber(q.batch)
    ensures r.Error? ==> r == Error(500, "Server Error")
    ensures r.Ok? ==> forall p :: p in r.value <==> p in Profiles(users) && Listed(p, q, requesterId)
    ensures r.Ok? ==> forall k :: 0 <= k < |r.value| ==> r.value[k].id != requesterId
    ensures r.Ok? ==> IsSubsequence(r.value, Profiles(users))
    ensures !r.Invalid?
  {
    if Truthy(q.batch) && !castsToNumber(q.batch) then Error(500, "Server Error")
    else
      FilterIsSubsequence(Profiles(users), (p: Profile) => Listed(p, q, requesterId));
      Ok(Filter(Profiles(users), (p: Profile) => Listed(p, q, requesterId)))
  }

  /** With no filters the listing is every stored user but the requester,
      in store order. */
  lemma NoFiltersListsAllOthers(users: seq<User>, i: nat, castsToNumber: string -> bool)
    requires StoreInvariant(users) && i < |users|
    ensures ListUsers(users, NoFilters, users[i].profile.id, castsToNumber) == Ok(Profiles(users)[..i] + Profiles(users)[i + 1..])
  {
    var ps := Profiles(users);
    var keep := (p: Profile) => Listed(p, NoFilters, users[i].profile.id);
    forall j | 0 <= j < |ps| && j != i ensures keep(ps[j]) {
      assert DistinctKeys(users[if i < j then i else j].profile, users[if i < j then j else i].profile);
    }
    FilterDropsOne(ps, keep, i);
  }

  /** `q2` asks at least what `q` asks: every filter `q` supplies, `q2`
      supplies with the same value. */
  predicate Refines(q2: UserQuery, q: UserQuery) {
    && (Truthy(q.faculty) ==> q2.faculty == q.faculty)
    && (Truthy(q.batch) ==> q2.batch == q.batch)
    && (Truthy(q.degreeProgram) ==> q2.degreeProgram == q.degreeProgram)
  }

  /** Supplying further filters narrows the listing: whenever the narrower
      query is answered, the wider one is too, and it lists everything the
      narrower one lists. */
  lemma FiltersNarrow(users: seq<User>, q: UserQuery, q2: UserQuery, requesterId: Id, castsToNumber: string -> bool)
    requires Refines(q2, q)
    ensures ListUsers(users, q2, requesterId, castsToNumber).Ok? ==>
      && ListUsers(users, q, requesterId, castsToNumber).Ok?
      && forall p :: p in ListUsers(users, q2, requesterId, castsToNumber).value ==>
           p in ListUsers(users, q, requesterId, castsToNumber).value
  {
    if ListUsers(users, q2, requesterId, castsToNumber).Ok? {
      forall p | p in ListUsers(users, q2, requesterId, castsToNumber).value
        ensures p in ListUsers(users, q, requesterId, castsToNumber).value
      {
        assert Listed(p, q2, requesterId);
      }
    }
  }

  /** `GET /:id`. An id that cannot be cast to a document id is answered
      like an unknown one. */
  function GetUser(users: seq<User>, id: Id): (r: Reply<Profile>)
    ensures r.Ok? ==> r.value.id == id && exists u :: u in users && u.profile == r.value
    ensures !r.Ok? ==> r == Error(404, "User not found")
    ensures !r.Ok? <==> !IsObjectId(id) || forall i :: 0 <= i < |users| ==> users[i].profile.id != id
  {
    if !IsObjectId(id) then Error(404, "User not found")
    else match FindById(users, id)
      case None => Error(404, "User not found")
      case Some(u) => Ok(u.profile)
  }

  /** Under the store invariant the malformed-id branch changes nothing: a
      stored user finds itself, and a malformed id finds no one. */
  lemma GetUserFindsStored(users: seq<User>, i: nat)
    requires StoreInvariant(users) && i < |users|
    ensures GetUser(users, users[i].profile.id) == Ok(users[i].profile)
  {
    FindByIdUnique(users, i);
  }
}
