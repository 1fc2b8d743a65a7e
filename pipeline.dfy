/** The identity-resolution pipeline of `src/services/index.js`, one pure
    function per operation over the collection's records: each returns
    the operation's outcome and, where the operation can write, the
    collection afterwards. The methods of `Services.AuthService` run the
    same steps against a `UserCollection` and are proved equal to these. */
module Pipeline {
  import opened Wrappers
  import opened JsString
  import opened Collaborators
  import opened UsersModel
  import opened Responses
  import opened InputValidation

  /** The `accType` values written at creation. */
  const ApiAuth: string := "api-auth"
  const GoogleAuth: string := "google-auth"
  const FacebookAuth: string := "facebook-auth"
  const GithubAuth: string := "github-auth"

  /** `getEmails()`: the email of every stored record, in order. */
  function Emails(users: seq<User>): (es: seq<string>)
    ensures |es| == |users|
    ensures forall i :: 0 <= i < |users| ==> es[i] == users[i].email
  {
    seq(|users|, i requires 0 <= i < |users| => users[i].email)
  }

  /** An email is in the snapshot exactly when `findOne({ email })` finds it. */
  lemma EmailsFind(users: seq<User>, email: string)
    ensures email in Emails(users) <==> FindByEmail(users, email).Some?
  {
    if FindByEmail(users, email).Some? {
      assert Emails(users)[FindByEmail(users, email).value] == email;
    }
  }

  /** The session token of a stored user: `{email, sub: userId, accType}`. */
  function TokenFor(u: User): Token {
    Issue(u.email, u.userId, u.accountType)
  }

  /** A success reply that carries `{ accessToken }` for `u`. */
  function Granted(code: int, message: string, u: User): Outcome {
    Reply(code, message, true, AccessToken(TokenFor(u)))
  }

  // ---------------------------------------------------------------- register

  /** The document `registerUser` hands to `Users.create`. */
  function RegisterDoc(email: string, pass: string, env: Env): NewUser {
    NewUser(env.uuid, "", email, Some(Encrypt(pass, env.salt)), Some(Utf16Length(pass)),
            Some(env.upload(DefaultImg)), Some(ApiAuth), None, None)
  }

  /** `registerUser(data)`. */
  function Register(users: seq<User>, data: Credentials, env: Env): (r: (Outcome, seq<User>))
    ensures data.email.None? ==>
      r == (Failed(BAD_REQUEST, "Email can't be blank"), users)
    ensures data.email.Some? && data.email.value in Emails(users) ==>
      r == (Failed(BAD_REQUEST, "Email '" + Displayed(Emails(users), data.email.value) + "' is already used"), users)
    ensures data.email.Some? && data.email.value !in Emails(users) && data.password.None? ==>
      r == (Failed(BAD_REQUEST, "Password can't be blank"), users)
    ensures data.email.Some? && data.email.value !in Emails(users) && data.password.Some? &&
            Utf16Length(data.password.value) < 8 ==>
      r == (Failed(BAD_REQUEST, "Password must be at least 8 characters"), users)
    ensures data.email.Some? && data.email.value !in Emails(users) && data.password.Some? &&
            Utf16Length(data.password.value) >= 8 ==>
      (r.0.Succeeded() <==> CreateAccepts(users, RegisterDoc(data.email.value, data.password.value, env))) &&
      (!r.0.Succeeded() ==> r.0 == Raised(StoreRejected))
    ensures !r.0.Succeeded() ==> r.1 == users
    ensures r.0.Raised? ==> r.0.error == StoreRejected
    ensures r.0.Succeeded() ==>
      data.email.Some? && data.email.value !in Emails(users) &&
      data.password.Some? && Utf16Length(data.password.value) >= 8 &&
      |r.1| == |users| + 1 && r.1[..|users|] == users &&
      var u := r.1[|users|];
      u.userId == env.uuid && u.userId !in UserIds(users) &&
      u.name == "" && u.email == data.email.value && u.accountType == ApiAuth &&
      u.password == Some(Encrypt(data.password.value, env.salt)) &&
      u.passwordLength == Utf16Length(data.password.value) &&
      u.picture == env.upload(DefaultImg) && u.phoneNumber == "" && u.bio == "" &&
      r.0 == Reply(CREATED, "Register success", true, AccessToken(Issue(u.email, u.userId, ApiAuth)))
  {
    // validation(data, registerRule()), as `RegisterValidation` proves
    var check := RegisterMessage(data, Emails(users));
    if check.Some? then
      (Failed(BAD_REQUEST, check.value), users)
    else
      var doc := RegisterDoc(data.email.value, data.password.value, env);
      if CreateAccepts(users, doc) then
        var u := Materialize(doc);
        (Granted(CREATED, "Register success", u), users + [u])
      else
        (Raised(StoreRejected), users)
  }

  /** The `userId`s in use. */
  function UserIds(users: seq<User>): (ids: set<string>)
    ensures forall i :: 0 <= i < |users| ==> users[i].userId in ids
    ensures forall id :: id in ids ==> exists i :: 0 <= i < |users| && users[i].userId == id
  {
    set i | 0 <= i < |users| :: users[i].userId
  }

  // ------------------------------------------------------------------- login

  /** `loginUser(data)`: reads the collection and never writes it. */
  function Login(users: seq<User>, data: Credentials): (r: Outcome)
    ensures data.email.None? ==> r == Failed(BAD_REQUEST, "Email can't be blank")
    ensures data.email.Some? && data.password.None? ==> r == Failed(BAD_REQUEST, "Password can't be blank")
    ensures data.email.Some? && data.password.Some? && FindByEmail(users, data.email.value).None? ==>
      r == Failed(NOT_FOUND, "User not exist")
    ensures data.email.Some? && data.password.Some? && FindByEmail(users, data.email.value).Some? ==>
      var u := users[FindByEmail(users, data.email.value).value];
      (u.passwordLength == 0 ==> r == Failed(BAD_REQUEST, "Password not match")) &&
      (u.passwordLength != 0 && u.password.None? ==> r == Raised(IllegalArguments)) &&
      (u.passwordLength != 0 && u.password.Some? && !CheckMatch(data.password.value, u.password.value) ==>
         r == Failed(BAD_REQUEST, "Password not match")) &&
      (u.passwordLength != 0 && u.password.Some? && CheckMatch(data.password.value, u.password.value) ==>
         r == Reply(OK, "Login success", true, AccessToken(Issue(u.email, u.userId, u.accountType))))
  {
    var check := Validation(Validate(data, LoginRule()));
    LoginValidation(data);
    if Rejects(check) then
      Failed(BAD_REQUEST, check.value)
    else
      match FindByEmail(users, data.email.value)
      case None => Failed(NOT_FOUND, "User not exist")
      case Some(i) =>
        var u := users[i];
        if u.passwordLength == 0 then Failed(BAD_REQUEST, "Password not match")
        else if u.password.None? then Raised(IllegalArguments)
        else if CheckMatch(data.password.value, u.password.value) then Granted(OK, "Login success", u)
        else Failed(BAD_REQUEST, "Password not match")
  }

  // ----------------------------------------------------- third-party sign-in

  /** The body Google and Facebook sign-in receive. */
  datatype OAuthProfile = OAuthProfile(email: string, name: string, imageUrl: string)

  /** The document the OAuth paths hand to `Users.create`: no password,
      `passwordLength: 0`. */
  function OAuthDoc(email: string, name: string, bio: Option<string>, imageUrl: string,
                    accountType: string, env: Env): NewUser
  {
    NewUser(env.uuid, name, email, None, Some(0), Some(env.upload(imageUrl)), Some(accountType), None, bio)
  }

  /** The find-or-create step shared by `authenticateGoogle`,
      `authenticateFacebook` and `authenticateGithub`: a stored record
      with the email is reused whatever its account type; otherwise one
      record is created. */
  function FindOrCreate(users: seq<User>, email: string, name: string, bio: Option<string>,
                        imageUrl: string, accountType: string, createdMessage: string, env: Env)
    : (r: (Outcome, seq<User>))
    ensures FindByEmail(users, email).Some? ==>
      r == (Granted(OK, "Authenticate Success", users[FindByEmail(users, email).value]), users)
    ensures !r.0.Succeeded() ==> r == (Raised(StoreRejected), users)
    ensures FindByEmail(users, email).None? && r.0.Succeeded() ==>
      |r.1| == |users| + 1 && r.1[..|users|] == users &&
      var u := r.1[|users|];
      u.userId == env.uuid && u.userId !in UserIds(users) &&
      u.email == email && u.name == name && u.accountType == accountType &&
      u.password.None? && u.passwordLength == 0 && u.picture == env.upload(imageUrl) &&
      u.bio == bio.GetOr("") && u.phoneNumber == "" &&
      r.0 == Reply(OK, createdMessage, true, AccessToken(Issue(email, env.uuid, accountType)))
    ensures r.0.Succeeded() <==>
      FindByEmail(users, email).Some? || CreateAccepts(users, OAuthDoc(email, name, bio, imageUrl, accountType, env))
  {
    match FindByEmail(users, email)
    case Some(i) =>
      (Granted(OK, "Authenticate Success", users[i]), users)
    case None =>
      var doc := OAuthDoc(email, name, bio, imageUrl, accountType, env);
      if CreateAccepts(users, doc) then
        var u := Materialize(doc);
        (Granted(OK, createdMessage, u), users + [u])
      else
        (Raised(StoreRejected), users)
  }

  /** `authenticateGoogle(data)`. */
  function Google(users: seq<User>, data: OAuthProfile, env: Env): (r: (Outcome, seq<User>))
    ensures r == FindOrCreate(users, data.email, data.name, None, data.imageUrl, GoogleAuth,
                              "Authenticate Success", env)
  {
    FindOrCreate(users, data.email, data.name, None, data.imageUrl, GoogleAuth, "Authenticate Success", env)
  }

  /** `authenticateFacebook(data)`. */
  function Facebook(users: seq<User>, data: OAuthProfile, env: Env): (r: (Outcome, seq<User>))
    ensures r == FindOrCreate(users, data.email, data.name, None, data.imageUrl, FacebookAuth,
                              "Authenticate Success", env)
  {
    FindOrCreate(users, data.email, data.name, None, data.imageUrl, FacebookAuth, "Authenticate Success", env)
  }

  const AccessTokenKey: string := "access_token="
  const ScopeKey: string := "&scope"

  /** The access token in GitHub's URL-encoded token reply: the text from
      the last `access_token=` to the last `&scope` (under `substring`'s
      clamping and swapping), with its first `access_token=` removed;
      `None` when that text is empty. */
  function GithubToken(reply: string): (r: Option<string>)
    ensures var a, b := LastIndexOf(reply, AccessTokenKey), LastIndexOf(reply, ScopeKey);
      0 <= a && a + |AccessTokenKey| <= b ==> r == Some(reply[a + |AccessTokenKey|..b])
    ensures var a, b := LastIndexOf(reply, AccessTokenKey), LastIndexOf(reply, ScopeKey);
      a == b ==> r.None?
    ensures var segment := Substring(reply, LastIndexOf(reply, AccessTokenKey), LastIndexOf(reply, ScopeKey));
      (r.None? <==> segment == []) && (r.Some? ==> r.value == ReplaceFirst(segment, AccessTokenKey, ""))
  {
    var a, b := LastIndexOf(reply, AccessTokenKey), LastIndexOf(reply, ScopeKey);
    var segment := Substring(reply, a, b);
    if 0 <= a && a + |AccessTokenKey| <= b then
      LeadingKeyRemoved(reply, a, b);
      Some(ReplaceFirst(segment, AccessTokenKey, ""))
    else if |segment| > 0 then Some(ReplaceFirst(segment, AccessTokenKey, ""))
    else None
  }

  /** When the last `access_token=` starts at `a` and ends by `b`, the
      segment `substring(a, b)` loses exactly that leading key. */
  lemma LeadingKeyRemoved(reply: string, a: int, b: int)
    requires 0 <= a && a + |AccessTokenKey| <= b && b <= |reply|
    requires OccursAt(reply, AccessTokenKey, a)
    ensures Substring(reply, a, b) == reply[a..b]
    ensures ReplaceFirst(reply[a..b], AccessTokenKey, "") == reply[a + |AccessTokenKey|..b]
  {
    var segment := reply[a..b];
    assert segment[0..|AccessTokenKey|] == reply[a..a + |AccessTokenKey|];
    assert OccursAt(segment, AccessTokenKey, 0);
    assert segment[|AccessTokenKey|..] == reply[a + |AccessTokenKey|..b];
  }

  /** `authenticateGithub({ code })`: `reply` is the body GitHub returns
      for the code, `fetchUser` what `GET /user` returns for a token. */
  function Github(users: seq<User>, reply: string, fetchUser: string -> GithubUser, env: Env)
    : (r: (Outcome, seq<User>))
    ensures GithubToken(reply).None? ==> r == (Failed(INTERNAL_SERVER_ERROR, "Internal server error"), users)
    ensures GithubToken(reply).Some? ==>
      var gh := fetchUser(GithubToken(reply).value);
      r == FindOrCreate(users, gh.email, gh.name, Some(gh.bio), gh.avatarUrl, GithubAuth,
                        "Authenticate success", env)
  {
    match GithubToken(reply)
    case None => (Failed(INTERNAL_SERVER_ERROR, "Internal server error"), users)
    case Some(token) =>
      var gh := fetchUser(token);
      FindOrCreate(users, gh.email, gh.name, Some(gh.bio), gh.avatarUrl, GithubAuth, "Authenticate success", env)
  }

  // ---------------------------------------------------------- update profile

  /** The body of a profile update; `password` may be missing. */
  datatype Patch = Patch(
    name: string,
    email: string,
    password: Option<string>,
    picture: string,
    bio: string,
    phoneNumber: string)

  /** JavaScript truthiness of an optional string. */
  predicate Truthy(s: Option<string>) {
    s.Some? && s.value != ""
  }

  /** The stored hash after an update: a truthy new password is hashed,
      otherwise the stored hash stays. */
  function NewPassword(u: User, patch: Patch, env: Env): (h: Option<PasswordHash>)
    ensures Truthy(patch.password) ==> h == Some(Encrypt(patch.password.value, env.salt))
    ensures !Truthy(patch.password) ==> h == u.password
  {
    var pass := if Truthy(patch.password) then Some(Encrypt(patch.password.value, env.salt)) else u.password;
    if pass.Some? then pass else u.password
  }

  /** The stored picture after an update: kept when the patch's picture
      is a URL; otherwise the old image is deleted and, only if that
      succeeds, the patch's picture is uploaded in its place. */
  function NewPicture(u: User, patch: Patch, env: Env): (p: Picture)
    ensures env.validUrl(patch.picture) ==> p == u.picture
    ensures !env.validUrl(patch.picture) && env.deleteImage(u.picture.publicId) ==> p == env.upload(patch.picture)
    ensures !env.validUrl(patch.picture) && !env.deleteImage(u.picture.publicId) ==> p == u.picture
  {
    if env.validUrl(patch.picture) then u.picture
    else if env.deleteImage(u.picture.publicId) then env.upload(patch.picture)
    else u.picture
  }

  /** `updateProfile(userId, data)`. */
  function Update(users: seq<User>, userId: string, patch: Patch, env: Env): (r: (Outcome, seq<User>))
    ensures FindByUserId(users, userId).None? ==> r == (Failed(NOT_FOUND, "Users not found"), users)
    ensures FindByUserId(users, userId).Some? && patch.password.None? ==> r == (Raised(LengthOfUndefined), users)
    ensures FindByUserId(users, userId).Some? && patch.password.Some? ==> r.0.Succeeded()
    ensures !r.0.Succeeded() ==> r.1 == users
    ensures r.0.Succeeded() ==>
      r.0 == Reply(OK, "Update success", true, NoData) &&
      FindByUserId(users, userId).Some? && patch.password.Some? && |r.1| == |users| &&
      var i := FindByUserId(users, userId).value;
      var u, v := users[i], r.1[i];
      r.1 == users[i := v] &&
      v.userId == u.userId && v.accountType == u.accountType &&
      v.name == patch.name && v.email == patch.email && v.bio == patch.bio &&
      v.phoneNumber == patch.phoneNumber &&
      v.password == NewPassword(u, patch, env) && v.picture == NewPicture(u, patch, env) &&
      v.passwordLength == (if Utf16Length(patch.password.value) != 0 then Utf16Length(patch.password.value) else u.passwordLength)
  {
    match FindByUserId(users, userId)
    case None => (Failed(NOT_FOUND, "Users not found"), users)
    case Some(i) =>
      var u := users[i];
      var pass := NewPassword(u, patch, env);
      var img := NewPicture(u, patch, env);
      if patch.password.None? then
        (Raised(LengthOfUndefined), users)
      else
        var len := if Utf16Length(patch.password.value) != 0 then Utf16Length(patch.password.value) else u.passwordLength;
        var ch := Changes(patch.name, patch.email, img, pass, len, patch.bio, patch.phoneNumber);
        (Reply(OK, "Update success", true, NoData), UpdateFirst(users, userId, ch))
  }

  // ------------------------------------------------------------- get profile

  /** `'*'.repeat(n)`. */
  function Mask(n: nat): (m: string)
    ensures |m| == n
    ensures forall k :: 0 <= k < n ==> m[k] == '*'
  {
    Repeat('*', n)
  }

  /** The public view of a record: the hash is not part of it; the
      password appears as a mask as long as the original plaintext. */
  function View(u: User): (p: ProfileView)
    ensures p.userId == u.userId && p.name == u.name && p.email == u.email && p.bio == u.bio
    ensures p.picture == u.picture.secureUrl && p.phoneNumber == u.phoneNumber
    ensures |p.password| == u.passwordLength
    ensures forall k :: 0 <= k < |p.password| ==> p.password[k] == '*'
  {
    ProfileView(u.userId, u.name, u.email, u.bio, u.picture.secureUrl, Mask(u.passwordLength), u.phoneNumber)
  }

  /** `getProfile(userId)`: reads the collection and never writes it. */
  function Profile(users: seq<User>, userId: string): (r: Outcome)
    ensures FindByUserId(users, userId).None? ==> r == Failed(NOT_FOUND, "User not found")
    ensures FindByUserId(users, userId).Some? ==>
      r == Reply(OK, "Get profile success", true, ProfileData(View(users[FindByUserId(users, userId).value])))
  {
    match FindByUserId(users, userId)
    case None => Failed(NOT_FOUND, "User not found")
    case Some(i) => Reply(OK, "Get profile success", true, ProfileData(View(users[i])))
  }
}
