# User service of the chat backend, in Dafny

This project models the account and session rules of the chat application's
backend user service (`backend/src/user/service/user.service.ts`):

- signup (`create`): a taken email is refused first, a confirmation that differs
  from the password second, and only then is one record stored, with the
  password replaced by its bcrypt digest;
- login (`findByLogin`, `findByEmail`): lookup by email, then a bcrypt comparison;
- refresh-token rotation (`update`) and verification (`getUserByRefesh`): a truthy
  token is hashed before it is merged into the first record the filter selects;
- profile updates (`updateProfile`) and avatar replacement (`updateAvatar`:
  upload, destroy the old asset, store the new `{public_id, url}`), with the
  asset store's calls (`uploadImageToCloudinary`, `destroyImageInCloudinary`);
- the profile read (`getProfileUserById`) and the user search
  (`findUserWithSearch`) with their projections.

Layout: `wrappers.dfy` (Option, Result), `bcrypt.dfy` (the hash/compare pair),
`cloudinary.dfy` (asset-store outcomes and calls), `users.dfy` (records,
single-document queries, merges, projections), `search.dfy` (the search
predicate), `user_service.dfy` (the service: read operations as functions of the
store, state-changing operations as methods of the `UserService` class, whose
`users` field is the repository's records in storage order), `properties.dfy`
(properties across operations, and two client scenarios).

Abstractions:
- bcrypt: a digest records its cost (10), its salt and a derived key. bcrypt
  reads only the first 72 bytes of its input, so the key is identified with that
  prefix of the hashed text: a digest accepts exactly the texts that share it,
  which assumes no two different prefixes derive the same key. Salts, random in
  bcrypt, are inputs.
- The asset store: each call's outcome (resolved or rejected) is an input, and
  `UpdateAvatar` reports the calls it made, in order.
- The repository: a single-document query returns the first selected record in
  storage order; a new record gets the next unused id.
- The search query is literal text, matched as a substring after folding ASCII
  letters to lower case.

Behaviour of the code worth knowing:
- `create` checks for a taken email before it compares the password with its
  confirmation, so a duplicate with mismatched passwords reports "User already
  exists!" (`Service.UserService.Create`).
- `getProfileUserById` returns null for an unknown id rather than failing, and
  its projection `-refeshToken` does not strip the refresh token (see Findings).
- `getUserByRefesh` on a record whose refresh token is null ends in bcrypt's own
  exception, not in "Invalid token!" (`Properties.NullTokenVerifyThrows`).
- When the destroy of the old avatar is rejected, the rejection propagates and
  the new avatar is not stored (`Scenarios.AvatarDestroyRejected`).
- An upload rejection of any cause is reported as "Invalid file type.".
- Because bcrypt reads only 72 bytes, rotating to a refresh token that shares
  its first 72 characters with the previous one leaves the previous one valid
  (`Properties.StaleTokenSharingPrefixVerifies`).
- The generic merge of `update` and `updateProfile` screens no field: a password
  written through it is stored unhashed (`Properties.ProfilePasswordLocksLogin`).

## Model

| member | source | states |
|---|---|---|
| Bcrypt.CompareSync | backend/src/user/service/user.service.ts:43 | compareSync throws exactly when the stored hash is null; it answers true only for a digest of the given text |
| Bcrypt.CompareAcceptsHash | backend/src/user/service/user.service.ts:29 | a digest made with any salt accepts the text it was made from |
| Bcrypt.CompareRejectsOther | backend/src/user/service/user.service.ts:43-47 | a digest rejects every text whose first 72 characters differ from those of the text it was made from |
| Bcrypt.CompareAcceptsSharedPrefix | backend/src/user/service/user.service.ts:43-47 | a digest also accepts a different text that shares the first 72 characters of the text it was made from |
| Users.FirstMatch | backend/src/user/service/user.service.ts:53 | the index a single-document query picks is selected by the filter and no earlier record is; None exactly when no record is selected |
| Users.FindByCondition | backend/src/user/service/user.service.ts:53 | findByCondition returns a stored, selected record, and null exactly when none is selected |
| Users.FirstMatchAppend | backend/src/user/service/user.service.ts:30 | after a record is appended to a store with no selected record, a query finds exactly the new record when it is selected |
| Users.Merge | backend/src/user/service/user.service.ts:64 | merging an update object never changes the record's id |
| Users.HashingTouchesOnlyToken | backend/src/user/service/user.service.ts:60-64 | the hashing path stores the same record as the unhashed merge except the refresh token, which differs exactly when the update's token is truthy |
| Users.StoreToken | backend/src/user/service/user.service.ts:60-61 | on the hashing path a truthy (non-empty) token is replaced by a digest that accepts it; otherwise the token is stored as the same plain text |
| Users.UpdateFirst | backend/src/user/service/user.service.ts:64 | findByConditionAndUpdate / findByIdAndUpdate change only the first selected record, into the merge of the update, and keep the store's length; with no selected record nothing changes |
| Users.Project | backend/src/user/service/user.service.ts:103 | a projection keeps id, email, names and avatar, and drops password or refresh token exactly when its path list names them |
| Search.LowerUpper | backend/src/user/service/user.service.ts:93 | upper-casing a text does not change its case-folded form |
| Search.ContainsIffOccurs | backend/src/user/service/user.service.ts:90-98 | the substring test holds exactly when the query occurs at some offset of the text |
| Search.FindUserWithSearch | backend/src/user/service/user.service.ts:84-107 | every result is a projected stored record other than the requester's that matches by full name or email, without password or refresh token; every other matching record is in the result |
| Search.SearchIgnoresQueryCase | backend/src/user/service/user.service.ts:92-98 | an upper-cased query gives the same result as the original |
| Service.FindByEmail | backend/src/user/service/user.service.ts:52-56 | the record found has the email, and null is returned exactly when no record has it |
| Service.FindByLogin | backend/src/user/service/user.service.ts:33-50 | "User not exist" exactly when no record has the email; otherwise success exactly when the digest of the record findByEmail finds accepts the password, returning that record, and "Password is incorrect" when it does not |
| Service.GetUserByRefresh | backend/src/user/service/user.service.ts:67-81 | "Invalid token!" when no record has the email; for the record findByEmail finds, bcrypt's exception exactly when its refresh token is null, "Invalid token!" when the comparison is false, and that record when it is true |
| Service.GetProfileUserById | backend/src/user/service/user.service.ts:144-149 | null exactly when no record has the id; otherwise a stored record with that id under the misspelt projection: its email, names, avatar and refresh token, without its password |
| Service.GetProfileUserByIdIntended | backend/src/user/service/user.service.ts:144-149 | the profile read with the projection spelt as intended returns a stored record with that id, its email, names and avatar, and neither the password nor the refresh token |
| Service.UploadImageToCloudinary | backend/src/user/service/user.service.ts:109-113 | success exactly when the upload resolves, carrying its public id and URL; any rejection becomes "Invalid file type." |
| Service.DestroyImageInCloudinary | backend/src/user/service/user.service.ts:115-117 | success exactly when the destroy resolves; a rejection passes through with its cause |
| Service.UserService.Create | backend/src/user/service/user.service.ts:15-31 | a taken email fails "User already exists!" whatever the passwords; otherwise a mismatch fails "Password and confirm password not match!"; both leave the store unchanged; otherwise exactly one record with a fresh id and the password's digest is appended |
| Service.UserService.Update | backend/src/user/service/user.service.ts:59-65 | the store becomes the merge of the update, truthy refresh token hashed, into the first selected record; returns that record, or null |
| Service.UserService.UpdateProfile | backend/src/user/service/user.service.ts:120-127 | the update is merged unhashed into the record with the id, if any, and the answer is always Successfully / Updated profile |
| Service.UserService.UpdateAvatar | backend/src/user/service/user.service.ts:130-141 | a failed upload makes no destroy call and changes nothing; a successful one destroys the old asset id, then stores the new avatar and answers Successfully, unless the destroy is rejected, which leaves the store unchanged |
| Properties.UpdateKeepsFirstMatch | backend/src/user/service/user.service.ts:59-65 | an update that keeps its target selected leaves it the first match |
| Properties.SignupThenLogin | backend/src/user/service/user.service.ts:29-49 | after a signup, login with the password returns the new record and login with a password differing in its first 72 characters fails "Password is incorrect" |
| Properties.SignupKeepsEmailsUnique | backend/src/user/service/user.service.ts:16-30 | a record admitted by the duplicate check keeps emails unique |
| Properties.SignupBlocksSameEmail | backend/src/user/service/user.service.ts:16-20 | after a signup, a lookup by its email finds the new record, so a later signup with it is refused |
| Properties.RotationSupersedes | backend/src/user/service/user.service.ts:59-81 | after two rotations with non-empty tokens differing in their first 72 characters, the second verifies and the first fails "Invalid token!" |
| Properties.StaleTokenSharingPrefixVerifies | backend/src/user/service/user.service.ts:59-81 | after two rotations with tokens sharing their first 72 characters, the older token still verifies |
| Properties.EmptyTokenNeverVerifies | backend/src/user/service/user.service.ts:60-78 | an empty refresh token is stored unhashed and then no token verifies |
| Properties.NullTokenVerifyThrows | backend/src/user/service/user.service.ts:60-74 | after a null refresh token is written, verification ends in bcrypt's exception |
| Properties.ProfilePasswordLocksLogin | backend/src/user/service/user.service.ts:120-121 | a password written through the profile update is stored unhashed, and login with it fails "Password is incorrect" |
| Properties.AvatarPersisted | backend/src/user/service/user.service.ts:130-141 | the avatar update leaves the record with the new avatar and all other fields as they were |
| Properties.ProfileExposesRefreshToken | backend/src/user/service/user.service.ts:147 | the profile read as written returns the stored refresh token |
| Properties.ProfileIntendedHidesSecrets | backend/src/user/service/user.service.ts:147 | the corrected profile read equals the one as written minus the refresh token, and hides both secrets |
| Properties.SearchExample | backend/src/user/service/user.service.ts:84-107 | Bob and Alice Lee: "lee" by Bob finds only Alice, "BOB" by Alice finds only Bob |
| Scenarios.SignupLoginRotate | backend/src/user/service/user.service.ts:15-81 | signup stores a digest, login succeeds with the password and fails otherwise, a second signup is refused, and after two rotations only the newer token verifies |
| Scenarios.AvatarDestroyRejected | backend/src/user/service/user.service.ts:130-141 | a rejected destroy after a good upload fails with its cause, after exactly an upload and a destroy call, and stores no avatar |

## Left out

- Asynchrony and concurrency: the check-then-insert race on signup and concurrent rotations are not modelled; every operation runs to completion alone.
- HTTP status codes of the exceptions: only the message is kept.
- bcrypt's algorithm, salting and cost: a digest is an abstract value; its 72-byte limit is counted in characters, which equals bytes only for ASCII text (UTF-8 encoding of other characters is not modelled); a plain stored string that happens to be a well-formed digest, and hashing a token that is itself a digest, are not modelled.
- The asset store's network calls: outcomes are inputs; retries and orphaned assets are not modelled, and only `public_id` and `url` of the upload response are kept.
- MongoDB query semantics: the search value is literal text rather than a regular expression, the case-insensitive option folds ASCII letters only, and names and emails are always strings (no missing fields in `$concat`).
- findByEmail's optional `select` projection: no caller in the service passes one, so lookups return whole records.
- The storage layer's unique index on email is not modelled; the merge paths can give two records the same email.
- The repository's schema: `create` hands the whole request body to the repository; the model stores the user record's fields only (email, names, password digest), so which other body fields persist, `confirmPassword` among them, is not modelled.
- Service.UserService.Update: whether the repository returns the record before or after the update is not visible; the model returns it after.
- In-place rewriting of the caller's argument objects (`user.password` in create, `update.refreshToken` in update) is not modelled: operations take values, so the caller does not see the digest.
- Update objects can set the refresh token to null but not the avatar, password, email or names (a null password written through `updateProfile` would make login end in bcrypt's exception, which the model cannot show); filters are `{ _id }` and `{ email }` only; record deletion is not part of this service.

## Findings

| source | as written | input that shows it | evidently intended | confidence | as-written member | corrected member |
|---|---|---|---|---|---|---|
| backend/src/user/service/user.service.ts:147 | projection `-password -refeshToken` | any stored user whose refresh token has been set, read by id | `-password -refreshToken`, so the refresh-token digest is not returned | high, not executed | Properties.ProfileExposesRefreshToken | Properties.ProfileIntendedHidesSecrets |
