/**
 * The user records the service keeps in its repository, the conditions it looks
 * them up by, the partial updates it merges into them and the field projections
 * it applies to what it returns.
 */
module Users {
  import opened Wrappers
  import opened Bcrypt

  type UserId = nat

  /** The `{public_id, url}` pair the asset store returns for an uploaded image. */
  datatype Avatar = Avatar(publicId: string, url: string)

  /** A stored user. `refreshToken` is None until a token is first written (or
      after it is written as null); `avatar` is None until the first upload. */
  datatype User = User(
    id: UserId,
    email: string,
    firstname: string,
    lastname: string,
    password: Stored,
    refreshToken: Option<Stored>,
    avatar: Option<Avatar>)

  /** The two conditions the service passes to the repository: `{ _id }` and `{ email }`. */
  datatype Filter = ById(id: UserId) | ByEmail(email: string)

  predicate Selects(f: Filter, u: User)
  {
    match f
    case ById(id) => u.id == id
    case ByEmail(e) => u.email == e
  }

  /** Position of the record a single-document query returns: the first one, in
      storage order, that the condition selects. */
  function FirstMatch(users: seq<User>, f: Filter): (r: Option<nat>)
    ensures r.Some? ==> r.value < |users| && Selects(f, users[r.value])
    ensures r.Some? ==> forall j :: 0 <= j < r.value ==> !Selects(f, users[j])
    ensures r.None? <==> forall j :: 0 <= j < |users| ==> !Selects(f, users[j])
  {
    if |users| == 0 then None
    else if Selects(f, users[0]) then Some(0)
    else match FirstMatch(users[1..], f)
      case None => None
      case Some(i) => Some(i + 1)
  }

  /** findByCondition(filter): the first selected record, or null. */
  function FindByCondition(users: seq<User>, f: Filter): (r: Option<User>)
    ensures r.Some? ==> r.value in users && Selects(f, r.value)
    ensures r.None? <==> forall u :: u in users ==> !Selects(f, u)
  {
    match FirstMatch(users, f)
    case None => None
    case Some(i) => Some(users[i])
  }

  /** A single-document query over a store that gained one record at its end
      finds that record exactly when no earlier record was selected. */
  lemma {:induction false} FirstMatchAppend(users: seq<User>, u: User, f: Filter)
    requires FirstMatch(users, f).None?
    ensures FirstMatch(users + [u], f) == if Selects(f, u) then Some(|users|) else None
  {
    var all := users + [u];
    assert forall j :: 0 <= j < |users| ==> all[j] == users[j];
    assert all[|users|] == u;
  }

  /**
   * A partial update as the service forwards it to the repository: a field left
   * None is not part of the update object. `refreshToken` is Some(None) when the
   * update sets it to null. No field is screened: the password and the refresh
   * token can be written through any update path.
   */
  datatype Patch = Patch(
    email: Option<string>,
    firstname: Option<string>,
    lastname: Option<string>,
    password: Option<string>,
    refreshToken: Option<Option<string>>,
    avatar: Option<Avatar>)

  /** The update object `{ refreshToken: token }`. */
  function TokenPatch(token: string): Patch
  {
    Patch(None, None, None, None, Some(Some(token)), None)
  }

  /** The update object `{ avatar }`. */
  function AvatarPatch(avatar: Avatar): Patch
  {
    Patch(None, None, None, None, None, Some(avatar))
  }

  function Pick<T>(update: Option<T>, current: T): T
  {
    match update
    case Some(v) => v
    case None => current
  }

  /** How a refresh token in an update object reaches the store. With a salt (the
      path that hashes tokens), a truthy token, that is a non-empty string, is
      replaced by its digest; an empty one is written as it is. Without a salt
      (the generic path) the token is written as it is. */
  function StoreToken(token: string, salt: Option<Salt>): (r: Stored)
    ensures r.Hashed? <==> salt.Some? && token != ""
    ensures r.Hashed? ==> CompareSync(token, Some(r)) == Success(true) && r.digest.salt == salt.value
    ensures r.Plain? ==> r.text == token
  {
    if salt.Some? && token != "" then Hashed(Hash(token, salt.value)) else Plain(token)
  }

  /** The record after an update object is merged into it; the id never changes. */
  function Merge(u: User, p: Patch, tokenSalt: Option<Salt>): (m: User)
    ensures m.id == u.id
  {
    User(
      u.id,
      Pick(p.email, u.email),
      Pick(p.firstname, u.firstname),
      Pick(p.lastname, u.lastname),
      if p.password.Some? then Plain(p.password.value) else u.password,
      match p.refreshToken
        case None => u.refreshToken
        case Some(None) => None
        case Some(Some(t)) => Some(StoreToken(t, tokenSalt)),
      if p.avatar.Some? then p.avatar else u.avatar)
  }

  /** The hashing path and the generic path store the same record except for the
      refresh token, and they store different tokens exactly when the update
      carries a truthy one. */
  lemma HashingTouchesOnlyToken(u: User, p: Patch, salt: Salt)
    ensures Merge(u, p, Some(salt)).(refreshToken := None) == Merge(u, p, None).(refreshToken := None)
    ensures Merge(u, p, Some(salt)).refreshToken != Merge(u, p, None).refreshToken
      <==> p.refreshToken.Some? && p.refreshToken.value.Some? && p.refreshToken.value.value != ""
  {
  }

  /** The store after findByConditionAndUpdate / findByIdAndUpdate: the update is
      merged into the first selected record; when none is selected nothing changes. */
  function UpdateFirst(users: seq<User>, f: Filter, p: Patch, tokenSalt: Option<Salt>): (r: seq<User>)
    ensures |r| == |users|
    ensures FirstMatch(users, f).Some? ==>
      var i := FirstMatch(users, f).value; r[i] == Merge(users[i], p, tokenSalt)
    ensures forall j :: 0 <= j < |users| && FirstMatch(users, f) != Some(j) ==> r[j] == users[j]
  {
    match FirstMatch(users, f)
    case None => users
    case Some(i) => users[i := Merge(users[i], p, tokenSalt)]
  }

  /** A field of a returned record: left out by the projection, or present. */
  datatype Field<T> = Excluded | Included(value: T)

  /** A user record as a query with a projection returns it. */
  datatype View = View(
    id: UserId,
    email: string,
    firstname: string,
    lastname: string,
    avatar: Option<Avatar>,
    password: Field<Stored>,
    refreshToken: Field<Option<Stored>>)

  /** The projection `-password -refreshToken`: both secret fields left out. */
  const SECRET_FIELDS: seq<string> := ["password", "refreshToken"]

  /** The projection `-a -b ...`, given by the excluded paths. A path that names
      no field of the record excludes nothing. */
  function Project(u: User, excluded: seq<string>): (v: View)
    ensures v.id == u.id && v.email == u.email && v.avatar == u.avatar
    ensures v.firstname == u.firstname && v.lastname == u.lastname
    ensures v.password.Excluded? <==> "password" in excluded
    ensures v.password.Included? ==> v.password.value == u.password
    ensures v.refreshToken.Excluded? <==> "refreshToken" in excluded
    ensures v.refreshToken.Included? ==> v.refreshToken.value == u.refreshToken
  {
    View(u.id, u.email, u.firstname, u.lastname, u.avatar,
      if "password" in excluded then Excluded else Included(u.password),
      if "refreshToken" in excluded then Excluded else Included(u.refreshToken))
  }
}
