/**
 * What the user service promises across several operations: login after
 * signup, email uniqueness, refresh-token rotation, where avatar and profile
 * updates land, and what profile reads and searches expose.
 */
module Properties {
  import opened Wrappers
  import opened Bcrypt
  import opened Users
  import opened Search
  import opened Service

  /** A record that a filter selects keeps being selected after an update that
      does not change what the filter reads, so it stays the first match. */
  lemma UpdateKeepsFirstMatch(users: seq<User>, f: Filter, p: Patch, salt: Option<Salt>, i: nat)
    requires FirstMatch(users, f) == Some(i)
    requires Selects(f, Merge(users[i], p, salt))
    ensures FirstMatch(UpdateFirst(users, f, p, salt), f) == Some(i)
  {
    var after := UpdateFirst(users, f, p, salt);
    assert after == users[i := Merge(users[i], p, salt)];
    assert forall j :: 0 <= j < i ==> after[j] == users[j];
    assert Selects(f, after[i]);
  }

  /** After a successful signup (the store gains one record for a fresh email,
      holding the digest of the password), login with that password returns the
      new record, and login with any other password is refused. */
  lemma SignupThenLogin(users: seq<User>, form: SignupForm, salt: Salt, created: User, other: string)
    requires FindByEmail(users, form.email).None?
    requires created.email == form.email && created.password == Hashed(Hash(form.password, salt))
    requires Significant(other) != Significant(form.password)
    ensures FindByLogin(users + [created], form.email, form.password) == Success(created)
    ensures FindByLogin(users + [created], form.email, other) == Failure(HttpError(PASSWORD_INCORRECT))
  {
    FirstMatchAppend(users, created, ByEmail(form.email));
  }

  /** Signup keeps emails unique: its duplicate check admits a record only for
      an email no stored record has. */
  lemma SignupKeepsEmailsUnique(users: seq<User>, created: User)
    requires EmailsUnique(users)
    requires FindByEmail(users, created.email).None?
    ensures EmailsUnique(users + [created])
  {
    var all := users + [created];
    forall i, j | 0 <= i < j < |all| ensures all[i].email != all[j].email {
      if j == |users| {
        assert all[i] in users;
      }
    }
  }

  /** Once an account exists, a lookup by its email finds it, so every later
      signup with that email takes the "User already exists!" branch. */
  lemma SignupBlocksSameEmail(users: seq<User>, created: User)
    requires FindByEmail(users, created.email).None?
    ensures FindByEmail(users + [created], created.email) == Some(created)
  {
    FirstMatchAppend(users, created, ByEmail(created.email));
  }

  /** Rotating the refresh token of the account with a given email twice, with
      two non-empty tokens that differ in their first 72 characters, leaves
      only the second one valid. */
  lemma RotationSupersedes(users: seq<User>, email: string, t1: string, s1: Salt, t2: string, s2: Salt)
    requires FindByEmail(users, email).Some?
    requires t1 != "" && t2 != "" && Significant(t1) != Significant(t2)
    ensures var once := UpdateFirst(users, ByEmail(email), TokenPatch(t1), Some(s1));
            var twice := UpdateFirst(once, ByEmail(email), TokenPatch(t2), Some(s2));
            && GetUserByRefresh(twice, t2, email).Success?
            && GetUserByRefresh(twice, t1, email) == Failure(HttpError(INVALID_TOKEN))
  {
    var i := FirstMatch(users, ByEmail(email)).value;
    var once := UpdateFirst(users, ByEmail(email), TokenPatch(t1), Some(s1));
    UpdateKeepsFirstMatch(users, ByEmail(email), TokenPatch(t1), Some(s1), i);
    var twice := UpdateFirst(once, ByEmail(email), TokenPatch(t2), Some(s2));
    UpdateKeepsFirstMatch(once, ByEmail(email), TokenPatch(t2), Some(s2), i);
    assert twice[i].refreshToken == Some(Hashed(Hash(t2, s2)));
  }

  /** Rotation does not retire a token that shares its first 72 characters with
      the newer one (as tokens signed for the same account with the same header
      typically do): after the second rotation the older token still verifies. */
  lemma StaleTokenSharingPrefixVerifies(users: seq<User>, email: string, t1: string, s1: Salt, t2: string, s2: Salt)
    requires FindByEmail(users, email).Some?
    requires |t1| >= MAX_INPUT && |t2| >= MAX_INPUT && t1[..MAX_INPUT] == t2[..MAX_INPUT]
    ensures var once := UpdateFirst(users, ByEmail(email), TokenPatch(t1), Some(s1));
            var twice := UpdateFirst(once, ByEmail(email), TokenPatch(t2), Some(s2));
            && GetUserByRefresh(twice, t1, email).Success?
            && GetUserByRefresh(twice, t2, email).Success?
  {
    var i := FirstMatch(users, ByEmail(email)).value;
    var once := UpdateFirst(users, ByEmail(email), TokenPatch(t1), Some(s1));
    UpdateKeepsFirstMatch(users, ByEmail(email), TokenPatch(t1), Some(s1), i);
    var twice := UpdateFirst(once, ByEmail(email), TokenPatch(t2), Some(s2));
    UpdateKeepsFirstMatch(once, ByEmail(email), TokenPatch(t2), Some(s2), i);
    assert t1 != "" && t2 != "";
    assert twice[i].refreshToken == Some(Hashed(Hash(t2, s2)));
    CompareAcceptsSharedPrefix(t2, t1, s2);
  }

  /** An empty refresh token is falsy, so it is stored without hashing, and no
      token verifies against it afterwards. */
  lemma EmptyTokenNeverVerifies(users: seq<User>, email: string, salt: Salt, token: string)
    requires FindByEmail(users, email).Some?
    ensures var after := UpdateFirst(users, ByEmail(email), TokenPatch(""), Some(salt));
            GetUserByRefresh(after, token, email) == Failure(HttpError(INVALID_TOKEN))
  {
    var i := FirstMatch(users, ByEmail(email)).value;
    UpdateKeepsFirstMatch(users, ByEmail(email), TokenPatch(""), Some(salt), i);
  }

  /** Writing a null refresh token (as a logout would) makes verification end in
      bcrypt's own exception, not in "Invalid token!". */
  lemma NullTokenVerifyThrows(users: seq<User>, email: string, salt: Salt, token: string)
    requires FindByEmail(users, email).Some?
    ensures var p := Patch(None, None, None, None, Some(None), None);
            var after := UpdateFirst(users, ByEmail(email), p, Some(salt));
            GetUserByRefresh(after, token, email) == Failure(HashError("data and hash arguments required"))
  {
    var p := Patch(None, None, None, None, Some(None), None);
    var i := FirstMatch(users, ByEmail(email)).value;
    UpdateKeepsFirstMatch(users, ByEmail(email), p, Some(salt), i);
  }

  /** A password written through the generic profile update is stored as plain
      text, which no login accepts, the same password included. */
  lemma ProfilePasswordLocksLogin(users: seq<User>, id: UserId, email: string, password: string)
    requires FindByCondition(users, ById(id)).Some?
    requires FindByEmail(users, email) == FindByCondition(users, ById(id))
    ensures var p := Patch(None, None, None, Some(password), None, None);
            FindByLogin(UpdateFirst(users, ById(id), p, None), email, password) == Failure(HttpError(PASSWORD_INCORRECT))
  {
    var p := Patch(None, None, None, Some(password), None, None);
    var i := FirstMatch(users, ById(id)).value;
    UpdateKeepsFirstMatch(users, ByEmail(email), p, None, i);
  }

  /** After an avatar update on an existing record, the record carries the new
      avatar and every other field as before. */
  lemma AvatarPersisted(users: seq<User>, id: UserId, avatar: Avatar)
    requires FindByCondition(users, ById(id)).Some?
    ensures var before := FindByCondition(users, ById(id)).value;
            FindByCondition(UpdateFirst(users, ById(id), AvatarPatch(avatar), None), ById(id))
              == Some(before.(avatar := Some(avatar)))
  {
    var i := FirstMatch(users, ById(id)).value;
    UpdateKeepsFirstMatch(users, ById(id), AvatarPatch(avatar), None, i);
  }

  /** The profile read as written hands out the stored refresh-token digest. */
  lemma ProfileExposesRefreshToken(users: seq<User>, id: UserId)
    requires FindByCondition(users, ById(id)).Some?
    ensures GetProfileUserById(users, id).Some?
    ensures GetProfileUserById(users, id).value.refreshToken
      == Included(FindByCondition(users, ById(id)).value.refreshToken)
  {
  }

  /** The profile read with the intended projection gives the same public fields
      and neither secret. */
  lemma ProfileIntendedHidesSecrets(users: seq<User>, id: UserId)
    requires FindByCondition(users, ById(id)).Some?
    ensures var v := GetProfileUserById(users, id).value;
            var w := GetProfileUserByIdIntended(users, id).value;
            && w == v.(refreshToken := Excluded)
            && w.password.Excluded? && w.refreshToken.Excluded?
  {
  }

  lemma AliceLeeContainsLee()
    ensures Contains(Lower("Alice" + " " + "Lee"), Lower("lee"))
  {
    assert "Alice" + " " + "Lee" == "Alice Lee";
    assert Lower("Alice Lee") == "alice lee" && Lower("lee") == "lee";
    assert OccursAt("alice lee", "lee", 6);
    ContainsIffOccurs("alice lee", "lee");
  }

  lemma BobLeeContainsBob()
    ensures Contains(Lower("Bob" + " " + "Lee"), Lower("BOB"))
  {
    assert "Bob" + " " + "Lee" == "Bob Lee";
    assert Lower("Bob Lee") == "bob lee" && Lower("BOB") == "bob";
  }

  /** Two accounts that share a last name: each finds the other by a query in
      any case, and never itself. */
  lemma SearchExample()
    ensures var bob := User(1, "Bob@x.com", "Bob", "Lee", Plain(""), None, None);
            var alice := User(2, "alice@x.com", "Alice", "Lee", Plain(""), None, None);
            && FindUserWithSearch([bob, alice], 1, "lee") == [Project(alice, SECRET_FIELDS)]
            && FindUserWithSearch([bob, alice], 2, "BOB") == [Project(bob, SECRET_FIELDS)]
  {
    var bob := User(1, "Bob@x.com", "Bob", "Lee", Plain(""), None, None);
    var alice := User(2, "alice@x.com", "Alice", "Lee", Plain(""), None, None);
    assert [bob, alice][1..] == [alice] && [alice][1..] == [];
    AliceLeeContainsLee();
    BobLeeContainsBob();
  }
}

/** Client scenarios on a fresh service, proved from the operations' contracts alone. */
module Scenarios {
  import opened Wrappers
  import opened Bcrypt
  import opened Users
  import opened Service
  import opened Properties

  /** Sign up "a@x.com" with a matching confirmation, log in with the right and a
      wrong password, sign up the same email again, then rotate the refresh
      token twice. */
  method SignupLoginRotate(salt: Salt, s1: Salt, s2: Salt)
    returns (created: Result<User, Error>, login: Result<User, Error>, wrong: Result<User, Error>,
             again: Result<User, Error>, stale: Result<User, Error>, current: Result<User, Error>)
    ensures created.Success? && created.value.password != Plain("pw123456")
    ensures login == created && wrong == Failure(HttpError(PASSWORD_INCORRECT))
    ensures again == Failure(HttpError(USER_EXISTS))
    ensures stale == Failure(HttpError(INVALID_TOKEN))
    ensures current.Success? && current.value.id == created.value.id
  {
    var svc := new UserService();
    var form := SignupForm("a@x.com", "pw123456", "pw123456", "Ann", "Lee");
    created := svc.Create(form, salt);
    SignupThenLogin([], form, salt, created.value, "wrong");
    login := FindByLogin(svc.users, "a@x.com", "pw123456");
    wrong := FindByLogin(svc.users, "a@x.com", "wrong");
    again := svc.Create(SignupForm("a@x.com", "other", "different", "Al", "Lee"), salt);
    var first := svc.users;
    assert FindByEmail(first, "a@x.com").Some?;
    RotationSupersedes(first, "a@x.com", "token-1", s1, "token-2", s2);
    var r1 := svc.Update(ByEmail("a@x.com"), TokenPatch("token-1"), s1);
    var r2 := svc.Update(ByEmail("a@x.com"), TokenPatch("token-2"), s2);
    stale := GetUserByRefresh(svc.users, "token-1", "a@x.com");
    current := GetUserByRefresh(svc.users, "token-2", "a@x.com");
  }

  /** An avatar update whose upload succeeds but whose destroy of the old asset
      is rejected ends in that rejection, and the new avatar is not stored. */
  method AvatarDestroyRejected(file: Cloudinary.Bytes, salt: Salt)
    returns (r: Result<Ack, Error>, calls: seq<Cloudinary.AssetCall>, stored: Option<Avatar>)
    ensures r == Failure(AssetError("timeout"))
    ensures calls == [Cloudinary.UploadCall(file), Cloudinary.DestroyCall(None)]
    ensures stored.None?
  {
    var svc := new UserService();
    var created := svc.Create(SignupForm("a@x.com", "pw", "pw", "Ann", "Lee"), salt);
    var user := created.value;
    r, calls := svc.UpdateAvatar(user, file, Cloudinary.Uploaded("new-id", "https://img/new"),
                                 Cloudinary.DestroyRejected("timeout"));
    assert svc.users == [user];
    stored := svc.users[0].avatar;
  }
}
