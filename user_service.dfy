/**
 * The user service of the chat backend: signup and login, refresh-token
 * rotation and verification, profile and avatar updates, profile reads and the
 * user search. The repository it talks to is the `UserService` object's store
 * of records; the read-only operations are functions of that store.
 */
module Service {
  import opened Wrappers
  import opened Bcrypt
  import opened Users
  import opened Search
  import opened Cloudinary

  /** What an operation throws: an HttpException (its message; the status code
      is dropped), bcrypt's own exception, or an asset-store rejection that the
      service lets through. */
  datatype Error = HttpError(message: string) | HashError(message: string) | AssetError(cause: string)

  const USER_EXISTS := "User already exists!"
  const PASSWORD_MISMATCH := "Password and confirm password not match!"
  const USER_NOT_EXIST := "User not exist"
  const PASSWORD_INCORRECT := "Password is incorrect"
  const INVALID_TOKEN := "Invalid token!"
  const INVALID_FILE_TYPE := "Invalid file type."

  /** The acknowledgement `{status, msg}` profile updates answer with. */
  datatype Ack = Ack(status: string, msg: string)

  const PROFILE_UPDATED := Ack("Successfully", "Updated profile")

  /** The signup request body. */
  datatype SignupForm = SignupForm(
    email: string,
    password: string,
    confirmPassword: string,
    firstname: string,
    lastname: string)

  /** No two stored records share an email. */
  ghost predicate EmailsUnique(users: seq<User>)
  {
    forall i, j :: 0 <= i < j < |users| ==> users[i].email != users[j].email
  }

  /** `findByEmail(email)`: the record stored under that email, or null. */
  function FindByEmail(users: seq<User>, email: string): (r: Option<User>)
    ensures r.Some? ==> r.value in users && r.value.email == email
    ensures r.None? <==> forall u :: u in users ==> u.email != email
  {
    FindByCondition(users, ByEmail(email))
  }

  /** `findByLogin({email, password})`: the stored record, when one has the email
      and its password digest accepts the password. */
  function FindByLogin(users: seq<User>, email: string, password: string): (r: Result<User, Error>)
    ensures r == Failure(HttpError(USER_NOT_EXIST)) <==> forall u :: u in users ==> u.email != email
    ensures r.Success? ==> r.value in users && r.value.email == email
    ensures r.Success? ==> r.value.password.Hashed? && r.value.password.digest.key == Significant(password)
    ensures r.Failure? ==> r.error in {HttpError(USER_NOT_EXIST), HttpError(PASSWORD_INCORRECT)}
    ensures var found := FindByEmail(users, email);
      found.Some? ==>
        && (r.Success? <==> CompareSync(password, Some(found.value.password)) == Success(true))
        && (r.Success? ==> r.value == found.value)
        && (r.Failure? ==> r.error == HttpError(PASSWORD_INCORRECT))
  {
    match FindByEmail(users, email)
    case None => Failure(HttpError(USER_NOT_EXIST))
    case Some(u) =>
      if CompareSync(password, Some(u.password)).value then Success(u)
      else Failure(HttpError(PASSWORD_INCORRECT))
  }

  /** `getUserByRefesh(refresh_token, email)`: the stored record, when one has
      the email and its refresh-token digest accepts the token. A record whose
      refresh token is null makes bcrypt throw. */
  function GetUserByRefresh(users: seq<User>, token: string, email: string): (r: Result<User, Error>)
    ensures (forall u :: u in users ==> u.email != email) ==> r == Failure(HttpError(INVALID_TOKEN))
    ensures r.Success? ==> r.value in users && r.value.email == email
    ensures r.Success? ==> r.value.refreshToken.Some? && r.value.refreshToken.value.Hashed?
    ensures r.Success? ==> r.value.refreshToken.value.digest.key == Significant(token)
    ensures r.Failure? ==> r.error == HttpError(INVALID_TOKEN) || r.error.HashError?
    ensures var found := FindByEmail(users, email);
      found.Some? ==>
        && ((r.Failure? && r.error.HashError?) <==> found.value.refreshToken.None?)
        && (CompareSync(token, found.value.refreshToken) == Success(false) ==> r == Failure(HttpError(INVALID_TOKEN)))
        && (CompareSync(token, found.value.refreshToken) == Success(true) ==> r == Success(found.value))
  {
    match FindByEmail(users, email)
    case None => Failure(HttpError(INVALID_TOKEN))
    case Some(u) =>
      match CompareSync(token, u.refreshToken)
      case Failure(msg) => Failure(HashError(msg))
      case Success(isEqual) => if isEqual then Success(u) else Failure(HttpError(INVALID_TOKEN))
  }

  /** The projection `getProfileUserById` passes: `-password -refeshToken`. The
      second path misspells the field, so it excludes nothing. */
  const PROFILE_EXCLUDES: seq<string> := ["password", "refeshToken"]

  /** `getProfileUserById(user_id)` as written: the record with that id under the
      misspelt projection, or null. The password is stripped; the refresh-token
      digest is returned. */
  function GetProfileUserById(users: seq<User>, id: UserId): (r: Option<View>)
    ensures r.None? <==> forall u :: u in users ==> u.id != id
    ensures r.Some? ==> r.value.id == id && r.value.password.Excluded?
    ensures r.Some? ==> r.value.refreshToken.Included?
    ensures r.Some? ==> exists u :: u in users && u.id == id && r.value == Project(u, PROFILE_EXCLUDES)
  {
    match FindByCondition(users, ById(id))
    case None => None
    case Some(u) => Some(Project(u, PROFILE_EXCLUDES))
  }

  /** The profile read with the projection spelt as intended, `-password
      -refreshToken`: neither secret is returned. */
  function GetProfileUserByIdIntended(users: seq<User>, id: UserId): (r: Option<View>)
    ensures r.None? <==> forall u :: u in users ==> u.id != id
    ensures r.Some? ==> r.value.id == id
    ensures r.Some? ==> r.value.password.Excluded? && r.value.refreshToken.Excluded?
    ensures r.Some? ==> exists u :: u in users && u.id == id && r.value == Project(u, SECRET_FIELDS)
  {
    match FindByCondition(users, ById(id))
    case None => None
    case Some(u) => Some(Project(u, SECRET_FIELDS))
  }

  /** `uploadImageToCloudinary(file)`: the uploaded asset, or "Invalid file type."
      whatever the cause of the rejection was. */
  function UploadImageToCloudinary(outcome: UploadOutcome): (r: Result<Avatar, Error>)
    ensures r.Success? <==> outcome.Uploaded?
    ensures r.Success? ==> r.value.publicId == outcome.publicId && r.value.url == outcome.url
    ensures r.Failure? ==> r.error == HttpError(INVALID_FILE_TYPE)
  {
    match outcome
    case Uploaded(id, url) => Success(Avatar(id, url))
    case UploadRejected(_) => Failure(HttpError(INVALID_FILE_TYPE))
  }

  /** `destroyImageInCloudinary(public_id)`: a rejection passes through unchanged. */
  function DestroyImageInCloudinary(outcome: DestroyOutcome): (r: Result<(), Error>)
    ensures r.Success? <==> outcome.Destroyed?
    ensures r.Failure? ==> r.error == AssetError(outcome.cause)
  {
    match outcome
    case Destroyed => Success(())
    case DestroyRejected(cause) => Failure(AssetError(cause))
  }

  /** The public id of the user's current avatar, `user.avatar?.public_id`. */
  function AvatarId(user: User): Option<string>
  {
    if user.avatar.Some? then Some(user.avatar.value.publicId) else None
  }

  class UserService {
    /** The repository's records in storage order. */
    var users: seq<User>
    /** The id the repository gives the next record it creates. */
    var nextId: UserId

    /** Ids are distinct and below the next one handed out. */
    ghost predicate Valid()
      reads this
    {
      && (forall i :: 0 <= i < |users| ==> users[i].id < nextId)
      && (forall i, j :: 0 <= i < j < |users| ==> users[i].id != users[j].id)
    }

    constructor ()
      ensures Valid() && users == []
    {
      users := [];
      nextId := 0;
    }

    /** `create(user)`: rejects a taken email first, then a confirmation that
        differs from the password; only then stores one new record whose
        password is the bcrypt digest of the plaintext. */
    method Create(form: SignupForm, salt: Salt) returns (r: Result<User, Error>)
      requires Valid()
      modifies this
      ensures Valid()
      ensures FindByEmail(old(users), form.email).Some? ==>
        r == Failure(HttpError(USER_EXISTS)) && users == old(users) && nextId == old(nextId)
      ensures FindByEmail(old(users), form.email).None? && form.password != form.confirmPassword ==>
        r == Failure(HttpError(PASSWORD_MISMATCH)) && users == old(users) && nextId == old(nextId)
      ensures FindByEmail(old(users), form.email).None? && form.password == form.confirmPassword ==>
        && r.Success?
        && users == old(users) + [r.value]
        && (forall u :: u in old(users) ==> u.id != r.value.id)
        && r.value.email == form.email
        && r.value.firstname == form.firstname && r.value.lastname == form.lastname
        && r.value.password == Hashed(Hash(form.password, salt))
        && r.value.refreshToken.None? && r.value.avatar.None?
    {
      var existing := FindByEmail(users, form.email);
      if existing.Some? {
        return Failure(HttpError(USER_EXISTS));
      }
      if form.password != form.confirmPassword {
        return Failure(HttpError(PASSWORD_MISMATCH));
      }
      var digest := Hash(form.password, salt);
      var created := User(nextId, form.email, form.firstname, form.lastname, Hashed(digest), None, None);
      users := users + [created];
      nextId := nextId + 1;
      r := Success(created);
    }

    /** `update(filter, update)`: a truthy refresh token in the update is first
        replaced by its digest; the update is then merged into the first record
        the filter selects, which is returned (null when there is none). */
    method Update(filter: Filter, patch: Patch, salt: Salt) returns (r: Option<User>)
      requires Valid()
      modifies this
      ensures Valid() && nextId == old(nextId)
      ensures users == UpdateFirst(old(users), filter, patch, Some(salt))
      ensures FirstMatch(old(users), filter).None? ==> r.None?
      ensures FirstMatch(old(users), filter).Some? ==>
        r == Some(users[FirstMatch(old(users), filter).value])
    {
      var i := FirstMatch(users, filter);
      if i.None? {
        return None;
      }
      var merged := Merge(users[i.value], patch, Some(salt));
      users := users[i.value := merged];
      r := Some(merged);
    }

    /** `updateProfile(user_id, update)`: merges the update, unscreened and with
        nothing hashed, into the record with that id; answers the same
        acknowledgement whether or not such a record exists. */
    method UpdateProfile(id: UserId, patch: Patch) returns (ack: Ack)
      requires Valid()
      modifies this
      ensures Valid() && nextId == old(nextId)
      ensures users == UpdateFirst(old(users), ById(id), patch, None)
      ensures ack == PROFILE_UPDATED
    {
      var i := FirstMatch(users, ById(id));
      if i.Some? {
        users := users[i.value := Merge(users[i.value], patch, None)];
      }
      ack := PROFILE_UPDATED;
    }

    /** `updateAvatar(user, file)`: uploads the file; on success destroys the
        user's previous asset and then stores the new `{public_id, url}` on the
        record. `calls` lists the asset-store calls made, in order. */
    method UpdateAvatar(user: User, file: Bytes, upload: UploadOutcome, destroy: DestroyOutcome)
      returns (r: Result<Ack, Error>, calls: seq<AssetCall>)
      requires Valid()
      modifies this
      ensures Valid() && nextId == old(nextId)
      ensures upload.UploadRejected? ==>
        r == Failure(HttpError(INVALID_FILE_TYPE)) && calls == [UploadCall(file)] && users == old(users)
      ensures upload.Uploaded? ==> calls == [UploadCall(file), DestroyCall(AvatarId(user))]
      ensures upload.Uploaded? && destroy.DestroyRejected? ==>
        r == Failure(AssetError(destroy.cause)) && users == old(users)
      ensures upload.Uploaded? && destroy.Destroyed? ==>
        && r == Success(PROFILE_UPDATED)
        && users == UpdateFirst(old(users), ById(user.id), AvatarPatch(Avatar(upload.publicId, upload.url)), None)
    {
      calls := [UploadCall(file)];
      var uploaded := UploadImageToCloudinary(upload);
      if uploaded.Failure? {
        return Failure(uploaded.error), calls;
      }
      var avatar := Avatar(uploaded.value.publicId, uploaded.value.url);
      calls := calls + [DestroyCall(AvatarId(user))];
      var destroyed := DestroyImageInCloudinary(destroy);
      if destroyed.Failure? {
        return Failure(destroyed.error), calls;
      }
      var ack := UpdateProfile(user.id, AvatarPatch(avatar));
      r := Success(ack);
    }
  }
}
