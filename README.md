# Identity-resolution pipeline of authapp-devchallenge, in Dafny

This project models the core of a Node.js user-identity service: the
pipeline in `src/services/index.js` that turns an inbound credential (an
email/password pair, a Google or Facebook profile, or a GitHub OAuth
reply) into a user record of the `users` collection and a session token,
plus profile update and profile read, over the record shape, defaults and
constraints of `src/models/Users.js`.

Every operation returns one outcome: the object `{code, message,
success, data?}` the service builds, or (`Raised`) an error thrown by a
collaborator that the operation's `catch (error) { return error }` hands
back unchanged.

Modules:

- `Wrappers` (`wrappers.dfy`): `Option`, `None` standing for `undefined`.
- `JsString` (`js_string.dfy`): `indexOf`, `lastIndexOf`, `substring`
  (clamping and swapping), `replace` with a string pattern, `repeat`, and
  `.length`, which counts UTF-16 code units (a Dafny `char` is a Unicode
  scalar value, so a character above U+FFFF counts twice). Password
  lengths, the 8-character minimum and the stored `passwordLength` all
  use it.
- `Collaborators` (`collaborators.dfy`): bcrypt (`Encrypt`/`CheckMatch`),
  the JWT (`Token` over the claims `{email, sub, accType}`), the image
  store's picture object, and `Env`, the results the outside world
  supplies to one call (`uuid()`, the salt, `Uploader`, `DeleteImage`,
  `validURL`).
- `UsersModel` (`users.dfy`): the `User` record, the `NewUser` document
  with the schema defaults applied by `Materialize`, the table invariant
  `ValidTable` (required, unique `userId`), `findOne` as `FindFirst`, and
  the class `UserCollection` with `Create` and `UpdateOne`.
- `Responses` (`responses.dfy`): status codes, `Outcome`, the profile view.
- `InputValidation` (`validation.dfy`): the presence, exclusion and
  minimum-length validators of validate.js, `registerRule`, `loginRule`
  and `validation`.
- `Pipeline` (`pipeline.dfy`): one pure function per operation, from the
  records before to the outcome and the records after.
- `PipelineProperties` (`properties.dfy`): lemmas across operations.
- `Services` (`services.dfy`): the class `AuthService`, whose methods run
  the source's steps against a `UserCollection` and are proved equal to
  the `Pipeline` functions while keeping the collection valid.

Where the service's documented design and its code differ, the model
follows the code:

- Email uniqueness is not an invariant of the collection. The schema does
  not declare it, and `updateProfile` writes any email
  (`PipelineProperties.UpdateCanDuplicateEmail`). Registration and the
  find-or-create paths do keep it (`RegisterPreserves`,
  `FindOrCreatePreserves`).
- Third-party accounts do not keep `passwordLength = 0` for good: a
  profile update with a password, whose new email no other record
  holds, gives them a local credential that then logs in
  (`PipelineProperties.UpdateThenLogin`).
- A profile update whose body has no `password` field fails with the
  `TypeError` of `data.password.length` (line 478). This happens after the
  picture step, so the old image may already be deleted and a new one
  uploaded. The collection is unchanged.
- A failed `Users.create` (empty `email`, empty or taken `userId`) throws a
  Mongoose error that is returned as is (`Raised(StoreRejected)`). The
  `if (user.userId)` checks that follow a successful create can never fail,
  because the schema requires a non-empty `userId`. `updateOne` runs no
  validators and always acknowledges, so the 500 branch after it cannot
  be reached either. These branches have no counterpart in the model.
- The GitHub reply parse does not reject every malformed reply. A reply
  that contains `&scope` at a positive index but no `access_token=` yields
  the text before `&scope` as the token
  (`PipelineProperties.GithubTokenWithoutAccessToken`). A reply whose last
  `access_token=` is at a positive index and which has no `&scope` yields
  as the token the text before the last `access_token=`, with its first
  `access_token=` removed (`PipelineProperties.GithubTokenWithoutScope`).
- The "already used" message can name another account. validate.js shows
  `within[value]` when that entry is a string. `within` is the array of
  stored emails, so an email such as `1` that reads as an array index is
  reported with the email stored at that index
  (`PipelineProperties.IndexEmailNamesAnother`). Emails that contain `@`
  are shown as they are.
- Registering `a@x.com` / `password1` gives a profile mask of nine `*`.
  `password1` has nine characters (`PipelineProperties.EndToEnd`).

## Model

| member | source | states |
|---|---|---|
| `JsString.IndexOf` | src/services/index.js:370 | the result is -1 exactly when the pattern never occurs, else its first occurrence |
| `JsString.LastIndexOf` | src/services/index.js:364-367 | the result is -1 exactly when the pattern never occurs, else its last occurrence |
| `JsString.Substring` | src/services/index.js:364-367 | the length is the distance between the clamped indices; the slice between them for in-range indices in either order, and the prefix up to the other index when one index is negative |
| `JsString.ReplaceFirst` | src/services/index.js:370 | a string without the pattern is returned unchanged; otherwise the first occurrence, wherever it is, is replaced and the rest kept |
| `JsString.Utf16Length` | src/services/index.js:478 | `.length` counts UTF-16 code units: exactly `|s|` plus the number of characters above U+FFFF, so between `|s|` and `2|s|` |
| `JsString.Decimal` | src/services/index.js:79 | `String(k)`: non-empty decimal digits that spell `k` (their value is `k`, no leading zero unless `k` is 0), one digit exactly for `k < 10`, ending in the digit `k % 10` |
| `JsString.DecimalInjective` | src/services/index.js:79 | different indices have different decimal forms, so a value names at most one array index |
| `JsString.Repeat` | src/services/index.js:523 | `n` copies of the character: length `n`, every character `c` |
| `Collaborators.EncryptCheck` | src/services/index.js:51-59 | a password matches its own hash, and no other password does |
| `UsersModel.Materialize` | src/models/Users.js:4-41 | given fields are stored as given; a missing `passwordLength` is 0, `picture` is `{}`, `accountType`, `phoneNumber` and `bio` are `''` |
| `UsersModel.CreateAccepts` | src/models/Users.js:5-16 | on a valid collection, `create` accepts a document exactly when its `email` is non-empty and the collection with the new record still has every `userId` present and unique |
| `UsersModel.CreatePreservesValid` | src/models/Users.js:5-9 | a create the schema accepts keeps every `userId` present and unique |
| `UsersModel.FindFirst` | src/services/index.js:184 | `findOne` returns the first matching record, and none only when no record matches |
| `UsersModel.FindByUserIdExact` | src/models/Users.js:5-9 | with unique ids, `findOne({ userId })` finds exactly the record carrying that id |
| `UsersModel.Apply` | src/services/index.js:473-485 | `$set` writes name, email, picture, password, `passwordLength`, bio and phone number from the changes and never writes `userId` or `accountType` |
| `UsersModel.UpdateFirst` | src/services/index.js:485 | `updateOne` replaces the first record with the `userId` by the changed record and keeps everything else; with no such record the collection is unchanged |
| `UsersModel.UserCollection.Create` | src/models/Users.js:4-41 | `create` stores exactly `Materialize(doc)` at the end when `userId` and `email` are non-empty and the `userId` is free, and changes nothing otherwise |
| `UsersModel.UserCollection.UpdateOne` | src/services/index.js:485 | `updateOne` changes the collection exactly as `UpdateFirst` and keeps it valid |
| `InputValidation.RegisterRule` | src/services/index.js:73-94 | `registerRule()`: the email is required and must not be in the snapshot; the password is required and at least 8 UTF-16 code units long |
| `InputValidation.LoginRule` | src/services/index.js:96-103 | `loginRule`: email and password are required and nothing else is checked |
| `InputValidation.Displayed` | src/services/index.js:78-81 | the exclusion message shows `within[k]` when the value is the decimal form of an index `k` of the list, and the value itself otherwise |
| `InputValidation.DisplayedNonIndex` | src/services/index.js:78-81 | a value with a non-digit character, such as any email with `@`, is shown as it is |
| `InputValidation.Check` | src/services/index.js:76-89 | a validator fails exactly when validate.js's does: `presence` on a missing value, `exclusion` on a listed value, `length.minimum` on a value shorter in UTF-16 code units; its message, with the exclusion value as `Displayed` shows it |
| `InputValidation.FieldErrors` | src/services/index.js:106 | an attribute has no messages exactly when all its validators pass, and each message is a failing validator's message after the display name |
| `InputValidation.Validate` | src/services/index.js:106 | validate.js reports `undefined` exactly when no attribute has a message, else an entry for each attribute that has messages |
| `InputValidation.Validation` | src/services/index.js:105-116 | no message without errors; the first email message wins; the first password message is used only when `email` has no entry; other entries never decide |
| `InputValidation.FirstMessage` | src/services/index.js:105-116 | `validation` yields the first email message, else the first password message, else nothing |
| `InputValidation.ValidationIgnoresOtherFields` | src/services/index.js:105-116 | error objects that agree on `email` and `password` give the same verdict |
| `InputValidation.RegisterEmailErrors` | src/services/index.js:76-82 | a missing email gives "Email can't be blank", an email in the snapshot "Email '<shown>' is already used" with the value `Displayed` shows, otherwise nothing |
| `InputValidation.RegisterPasswordErrors` | src/services/index.js:83-89 | a missing password gives "Password can't be blank", one shorter than 8 UTF-16 code units "Password must be at least 8 characters", otherwise nothing |
| `InputValidation.RegisterValidation` | src/services/index.js:73-116 | registration validation equals the written-out precedence `RegisterMessage` (missing email, used email, missing password, short password), and passes exactly for a present, unused email and a present password of at least 8 UTF-16 code units |
| `InputValidation.LoginValidation` | src/services/index.js:96-116 | login validation rejects a missing email, then a missing password, and passes every present pair |
| `Pipeline.Emails` | src/services/index.js:61-71 | the snapshot holds one email per record, in order |
| `Pipeline.EmailsFind` | src/services/index.js:61-71 | an email is in the snapshot exactly when `findOne({ email })` finds a record |
| `Pipeline.Register` | src/services/index.js:118-171 | each validation failure gives BAD_REQUEST with its message and no change; a valid request succeeds exactly when the store accepts its document and otherwise returns the store's error; a failure never changes the collection; a success appends one record with a fresh `userId`, name `''`, `api-auth`, the hash of the password, its UTF-16 length, the uploaded default picture, and returns CREATED with the token of that record |
| `Pipeline.Login` | src/services/index.js:173-228 | missing field is BAD_REQUEST; unknown email NOT_FOUND 'User not exist'; `passwordLength` 0 is BAD_REQUEST 'Password not match' without a compare; a mismatch is BAD_REQUEST 'Password not match'; a match is OK with the stored record's token |
| `Pipeline.FindOrCreate` | src/services/index.js:230-287 | a stored email yields OK with that record's token and no change, whatever its account type; otherwise one record is appended with no password, `passwordLength` 0, the given account type and uploaded picture, or the collection is unchanged and the create error returned |
| `Pipeline.Google` | src/services/index.js:230-287 | Google sign-in is find-or-create with `google-auth` and no bio |
| `Pipeline.Facebook` | src/services/index.js:289-346 | Facebook sign-in is find-or-create with `facebook-auth` and no bio |
| `Pipeline.GithubToken` | src/services/index.js:362-370 | the token is the `substring` between the last `access_token=` and the last `&scope` with its first `access_token=` removed, and there is none exactly when that substring is empty; for a well-placed pair it is the text between the keys, and with neither key there is none |
| `Pipeline.Github` | src/services/index.js:348-440 | an empty token segment is INTERNAL_SERVER_ERROR with no lookup and no change; otherwise find-or-create with the profile fetched for the parsed token, `github-auth`, its bio, and 'Authenticate success' on creation |
| `Pipeline.NewPassword` | src/services/index.js:452-460 | a truthy new password is re-hashed, otherwise the stored hash is kept |
| `Pipeline.NewPicture` | src/services/index.js:462-471 | a URL keeps the stored picture; otherwise a successful delete leads to an upload and a failed delete keeps the old picture |
| `Pipeline.Update` | src/services/index.js:442-504 | unknown `userId` is NOT_FOUND with no change; a missing password is the thrown TypeError with no change; a found `userId` with a password always succeeds; a success rewrites only that record: name, email, bio and phone from the patch, password and picture as above, the UTF-16 length from a non-empty password else the stored one, `userId` and `accountType` kept |
| `Pipeline.Mask` | src/services/index.js:523 | the mask has exactly `passwordLength` characters, all `*` |
| `Pipeline.View` | src/services/index.js:517-525 | the view copies the public fields, the picture's `secure_url`, and shows the password only as a mask of its length |
| `Pipeline.Profile` | src/services/index.js:506-537 | unknown `userId` is NOT_FOUND 'User not found'; otherwise OK with the record's view |
| `PipelineProperties.GithubTokenWellFormed` | src/services/index.js:362-370 | a reply `access_token=T&scope...` in which each key occurs once yields exactly `T` |
| `PipelineProperties.GithubTokenMissing` | src/services/index.js:362-369 | a reply with neither key yields no token |
| `PipelineProperties.GithubTokenWithoutAccessToken` | src/services/index.js:364-370 | a reply with `&scope` at a positive index but no `access_token=` yields the whole prefix before `&scope` as the token |
| `PipelineProperties.GithubTokenWithoutScope` | src/services/index.js:364-370 | a reply with `access_token=` but no `&scope` yields no token when the last `access_token=` starts the reply, and otherwise the text before the last `access_token=`, with its first `access_token=` removed, as the token |
| `PipelineProperties.AppendPreserves` | src/models/Users.js:5-23 | appending a record with a fresh id, a fresh email and a hash whenever it has a length keeps all table invariants |
| `PipelineProperties.RegisterPreserves` | src/services/index.js:118-159 | registration keeps ids present and unique, emails unique, and credentials consistent |
| `PipelineProperties.FindOrCreatePreserves` | src/services/index.js:230-287 | the sign-in paths keep ids present and unique, emails unique, and credentials consistent |
| `PipelineProperties.UpdatePreserves` | src/services/index.js:442-504 | a profile update keeps ids present and unique and credentials consistent |
| `PipelineProperties.UpdateCanDuplicateEmail` | src/models/Users.js:13-16 | a successful update can leave two records with the same email |
| `PipelineProperties.LoginNeverRaises` | src/services/index.js:192-199 | with consistent credentials, login always answers with a reply object, never a thrown error |
| `PipelineProperties.RegisterTwice` | src/services/index.js:73-89 | after a successful registration, any request with the registered email, whatever its password, is BAD_REQUEST "Email '<shown>' is already used" and creates nothing |
| `PipelineProperties.IndexEmailNamesAnother` | src/services/index.js:76-82 | with `1` and `b@y.com` stored, registering `1` is refused with "Email 'b@y.com' is already used" |
| `PipelineProperties.AstralPasswordLongEnough` | src/services/index.js:83-89 | four characters above U+FFFF have length 8 and pass the minimum |
| `PipelineProperties.RegisteredFound` | src/services/index.js:133-143 | the record just registered is the one `findOne` finds by its email and by its `userId` |
| `PipelineProperties.LoginAfterRegister` | src/services/index.js:184-221 | login with the registered credentials returns a token with the claims registration returned; any other password is 'Password not match' |
| `PipelineProperties.ProfileAfterRegister` | src/services/index.js:517-525 | the new account's profile mask has one `*` per UTF-16 code unit of the password, so at least 8 |
| `PipelineProperties.EndToEnd` | src/services/index.js:118-228 | register, login, wrong login and profile for `a@x.com`/`password1` give 201, a token with the same claims, 400 and `*********` |
| `PipelineProperties.FindOrCreateIdempotent` | src/services/index.js:230-287 | after a successful find-or-create, a second call with the same email through any provider creates nothing and returns a token with the same claims |
| `PipelineProperties.GoogleIdempotent` | src/services/index.js:230-287 | two Google sign-ins with one email give one account and tokens with the same claims |
| `PipelineProperties.FacebookAfterGoogle` | src/services/index.js:289-346 | a Facebook sign-in with the email of a Google account reuses that account |
| `PipelineProperties.GithubIdempotent` | src/services/index.js:377-429 | two GitHub sign-ins whose profiles carry one email give one account and tokens with the same claims |
| `PipelineProperties.OAuthAccountCannotLogin` | src/services/index.js:192-197 | an account created by a sign-in refuses every password login with 'Password not match' |
| `PipelineProperties.UpdateThenLogin` | src/services/index.js:455-480 | after an update with a non-empty password, when no other record holds the new email, logging in with it succeeds, third-party accounts included |
| `PipelineProperties.ViewHidesHash` | src/services/index.js:517-525 | the profile view does not depend on the stored hash |
| `Services.AuthService.GetEmails` | src/services/index.js:61-71 | the loop collects one email per record, in order |
| `Services.AuthService.RegisterUser` | src/services/index.js:118-171 | the outcome and the new collection are those of `Register`; the collection stays valid |
| `Services.AuthService.LoginUser` | src/services/index.js:173-228 | the outcome is that of `Login`, and nothing is written |
| `Services.AuthService.FindOrCreateUser` | src/services/index.js:230-287 | the outcome and the new collection are those of `FindOrCreate`; the collection stays valid |
| `Services.AuthService.AuthenticateGoogle` | src/services/index.js:230-287 | the outcome and the new collection are those of `Google` |
| `Services.AuthService.AuthenticateFacebook` | src/services/index.js:289-346 | the outcome and the new collection are those of `Facebook` |
| `Services.AuthService.AuthenticateGithub` | src/services/index.js:348-440 | the outcome and the new collection are those of `Github` |
| `Services.AuthService.UpdateProfile` | src/services/index.js:442-504 | the outcome and the new collection are those of `Update`; the collection stays valid |
| `Services.AuthService.GetProfile` | src/services/index.js:506-537 | the outcome is that of `Profile`, and nothing is written |

## Left out

- HTTP dispatch, the Basic-auth and JWT middleware and the static-file
  fallback (`src/controllers/index.js`, `src/routes/*.js`): they only
  forward `success` and `code`.
- bcrypt internals: `Encrypt`/`CheckMatch` keep only "a password matches
  its own hash and no other". One-wayness, the cost factor 10 of
  `generateSalt(10)` and bcrypt's 72-byte truncation are not modelled.
- JWT signing, the secret and expiry: a token is its claims.
- The two GitHub requests (code exchange and `GET /user`): their results
  are the inputs `reply` and `fetchUser`. Errors those requests throw are
  not modelled.
- `Uploader` and `DeleteImage`: their results come from `Env`. Errors they
  throw, and what the image store holds, are not modelled.
- The `validURL` regular expression (lines 26-37): an `Env` predicate.
- `uuid()`: an `Env` value. A collision is rejected by the unique index.
- FieldErrors: a full message is the display name, a space and the
  validator's message. validate.js then makes a second pass over the full
  message. That pass turns `\^` into `^` and fills any `%{...}`
  placeholder left in the text. An email that itself contains `\^` or a
  `%{...}` placeholder would be rewritten by that pass, and the model does
  not do this.
- RegisterEmailErrors: the same second pass is left out of its "already
  used" message.
- RegisterValidation: the same second pass is left out of its "already
  used" message.
- Register: the same second pass is left out of its "already used" reply.
- RegisterTwice: the same second pass is left out of the message it states.
- The model assumes validate.js 0.12 or later. There, `presence: true`
  allows empty strings and fails only on a missing (`undefined` or `null`)
  value. Older versions also reject `""` and whitespace-only strings.
- JavaScript `null` versus `undefined`, and non-string values: profile
  bodies (`name`, `email`, `imageUrl`, GitHub `bio`) and the update
  fields other than `password` are strings. Only `email` and `password`
  of login and registration, and `password` of an update, may be missing.
- Timestamps (the `mongoose-timestamp` plugin), persistence, and the race
  between concurrent registrations on the email snapshot.
