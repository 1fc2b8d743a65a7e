/** Properties of the identity-resolution pipeline that relate several
    operations, or one operation and an invariant of the collection. */
module PipelineProperties {
  import opened Wrappers
  import opened JsString
  import opened Collaborators
  import opened UsersModel
  import opened Responses
  import opened InputValidation
  import opened Pipeline

  // ------------------------------------------------------ GitHub token parse

  /** A reply of the documented form `access_token=T&scope...`, in which
      each key occurs only once, yields exactly `T`. */
  lemma {:induction false} GithubTokenWellFormed(reply: string, t: string, rest: string)
    requires reply == AccessTokenKey + t + ScopeKey + rest
    requires forall i :: OccursAt(reply, AccessTokenKey, i) ==> i == 0
    requires forall i :: OccursAt(reply, ScopeKey, i) ==> i == |AccessTokenKey| + |t|
    ensures GithubToken(reply) == Some(t)
  {
    var k := |AccessTokenKey| + |t|;
    assert reply[0..|AccessTokenKey|] == AccessTokenKey;
    assert OccursAt(reply, AccessTokenKey, 0);
    assert reply[k..k + |ScopeKey|] == ScopeKey;
    assert OccursAt(reply, ScopeKey, k);
    assert LastIndexOf(reply, AccessTokenKey) == 0;
    assert LastIndexOf(reply, ScopeKey) == k;
    var segment := Substring(reply, 0, k);
    assert segment == AccessTokenKey + t;
    assert segment[0..|AccessTokenKey|] == AccessTokenKey;
    assert OccursAt(segment, AccessTokenKey, 0);
    assert segment[|AccessTokenKey|..] == t;
    assert ReplaceFirst(segment, AccessTokenKey, "") == "" + t == t;
  }

  /** A reply with neither key (GitHub's error replies) yields no token,
      so the pipeline answers 500 without looking anything up. */
  lemma GithubTokenMissing(reply: string)
    requires forall i :: !OccursAt(reply, AccessTokenKey, i)
    requires forall i :: !OccursAt(reply, ScopeKey, i)
    ensures GithubToken(reply).None?
  {
  }

  /** As written, a reply that has `&scope` at a positive index but no
      `access_token=` is not rejected: `substring(-1, k)` is the whole
      prefix before `&scope`, and that prefix is used as the token. */
  lemma {:induction false} GithubTokenWithoutAccessToken(reply: string)
    requires forall i :: !OccursAt(reply, AccessTokenKey, i)
    requires LastIndexOf(reply, ScopeKey) > 0
    ensures GithubToken(reply) == Some(reply[..LastIndexOf(reply, ScopeKey)])
  {
    var k := LastIndexOf(reply, ScopeKey);
    var segment := Substring(reply, -1, k);
    assert segment == reply[..k];
    forall i | OccursAt(segment, AccessTokenKey, i)
      ensures false
    {
      assert segment[i..i + |AccessTokenKey|] == reply[i..i + |AccessTokenKey|];
      assert OccursAt(reply, AccessTokenKey, i);
    }
  }

  /** As written, a reply with `access_token=` but no `&scope` is not
      rejected either: `substring(a, -1)` is the text before the last
      `access_token=`, which is empty (no token) only when that key starts
      the reply, and otherwise becomes the token after its own first
      `access_token=` is removed. */
  lemma {:induction false} GithubTokenWithoutScope(reply: string)
    requires forall i :: !OccursAt(reply, ScopeKey, i)
    requires LastIndexOf(reply, AccessTokenKey) != -1
    ensures var a := LastIndexOf(reply, AccessTokenKey);
      (a == 0 ==> GithubToken(reply).None?) &&
      (a > 0 ==> GithubToken(reply) == Some(ReplaceFirst(reply[..a], AccessTokenKey, "")))
  {
    var a := LastIndexOf(reply, AccessTokenKey);
    assert LastIndexOf(reply, ScopeKey) == -1;
    assert Substring(reply, a, -1) == reply[..a];
  }

  // ------------------------------------------------- invariants of the table

  /** No two records share an email. */
  ghost predicate UniqueEmails(users: seq<User>) {
    forall i, j :: 0 <= i < j < |users| ==> users[i].email != users[j].email
  }

  /** A record that claims a password length has a stored hash. */
  ghost predicate CredentialsConsistent(users: seq<User>) {
    forall i :: 0 <= i < |users| ==> users[i].passwordLength != 0 ==> users[i].password.Some?
  }

  /** Appending a record with a fresh `userId`, a fresh email and a hash
      whenever it claims a password length keeps all three invariants. */
  lemma AppendPreserves(users: seq<User>, u: User)
    requires u.userId != "" && u.userId !in UserIds(users)
    requires forall i :: 0 <= i < |users| ==> users[i].email != u.email
    requires u.passwordLength != 0 ==> u.password.Some?
    ensures ValidTable(users) ==> ValidTable(users + [u])
    ensures UniqueEmails(users) ==> UniqueEmails(users + [u])
    ensures CredentialsConsistent(users) ==> CredentialsConsistent(users + [u])
  {
  }

  /** Registration keeps the schema constraints, unique emails and
      consistent credentials. */
  lemma RegisterPreserves(users: seq<User>, data: Credentials, env: Env)
    ensures var t := Register(users, data, env).1;
      (ValidTable(users) ==> ValidTable(t)) &&
      (UniqueEmails(users) ==> UniqueEmails(t)) &&
      (CredentialsConsistent(users) ==> CredentialsConsistent(t))
  {
    var r := Register(users, data, env);
    if r.0.Succeeded() {
      var u := r.1[|users|];
      assert r.1 == users + [u];
      assert u.userId != "" by {
        var doc := RegisterDoc(data.email.value, data.password.value, env);
        assert CreateAccepts(users, doc);
      }
      forall i | 0 <= i < |users| ensures users[i].email != u.email {
        assert Emails(users)[i] == users[i].email;
      }
      AppendPreserves(users, u);
    }
  }

  /** Find-or-create keeps the schema constraints, unique emails and
      consistent credentials. */
  lemma FindOrCreatePreserves(users: seq<User>, email: string, name: string, bio: Option<string>,
                              imageUrl: string, accountType: string, message: string, env: Env)
    ensures var t := FindOrCreate(users, email, name, bio, imageUrl, accountType, message, env).1;
      (ValidTable(users) ==> ValidTable(t)) &&
      (UniqueEmails(users) ==> UniqueEmails(t)) &&
      (CredentialsConsistent(users) ==> CredentialsConsistent(t))
  {
    var r := FindOrCreate(users, email, name, bio, imageUrl, accountType, message, env);
    if r.1 != users {
      var u := r.1[|users|];
      assert r.1 == users + [u];
      assert u.userId != "" by {
        assert CreateAccepts(users, OAuthDoc(email, name, bio, imageUrl, accountType, env));
      }
      AppendPreserves(users, u);
    }
  }

  /** A profile update keeps the schema constraints and consistent
      credentials. */
  lemma UpdatePreserves(users: seq<User>, userId: string, patch: Patch, env: Env)
    requires ValidTable(users) && CredentialsConsistent(users)
    ensures var t := Update(users, userId, patch, env).1;
      ValidTable(t) && CredentialsConsistent(t)
  {
  }

  /** Email uniqueness is not an invariant of the collection: an update
      writes the patch's email without checking it, so two records can
      end up with the same one. */
  lemma UpdateCanDuplicateEmail()
    ensures exists users: seq<User>, userId: string, patch: Patch, env: Env ::
      ValidTable(users) && UniqueEmails(users) &&
      Update(users, userId, patch, env).0.Succeeded() &&
      !UniqueEmails(Update(users, userId, patch, env).1)
  {
    var a := User("a", "", "a@x.com", None, 0, EmptyPicture, GoogleAuth, "", "");
    var b := User("b", "", "b@x.com", None, 0, EmptyPicture, GoogleAuth, "", "");
    var users := [a, b];
    var patch := Patch("", "a@x.com", Some(""), "https://x.com", "", "");
    var env := Env("", "", (s: string) => EmptyPicture, (id: Option<string>) => false, (s: string) => true);
    FindByUserIdExact(users, 1);
    var t := Update(users, "b", patch, env).1;
    assert t[0].email == t[1].email;
  }

  /** On a collection with consistent credentials, login never hands back
      a thrown error. */
  lemma LoginNeverRaises(users: seq<User>, data: Credentials)
    requires CredentialsConsistent(users)
    ensures Login(users, data).Reply?
  {
  }

  // ------------------------------------------------------------ registration

  /** Any later registration request carrying an email that registered
      successfully, whatever its password, is rejected with BAD_REQUEST and
      creates nothing. */
  lemma RegisterTwice(users: seq<User>, data: Credentials, env: Env, data': Credentials, env': Env)
    requires Register(users, data, env).0.Succeeded()
    requires data'.email == data.email
    ensures var t := Register(users, data, env).1;
      Register(t, data', env') ==
        (Failed(BAD_REQUEST, "Email '" + Displayed(Emails(t), data.email.value) + "' is already used"), t)
  {
    var t := Register(users, data, env).1;
    assert Emails(t)[|users|] == data.email.value;
  }

  /** The exclusion message can name another account: once `1` and
      `b@y.com` are registered, in that order, registering `1` again is
      refused with "Email 'b@y.com' is already used", because validate.js
      shows `emails["1"]`, the second stored email. */
  lemma IndexEmailNamesAnother()
    ensures RegisterMessage(Credentials(Some("1"), Some("password1")), ["1", "b@y.com"]) ==
            Some("Email 'b@y.com' is already used")
  {
    assert Decimal(1) == "1";
    assert "1" in ["1", "b@y.com"];
    assert Displayed(["1", "b@y.com"], "1") == "b@y.com";
    assert "Email '" + "b@y.com" + "' is already used" == "Email 'b@y.com' is already used";
  }

  /** The record just registered is the first with its email. */
  lemma RegisteredFound(users: seq<User>, data: Credentials, env: Env)
    requires Register(users, data, env).0.Succeeded()
    ensures FindByEmail(Register(users, data, env).1, data.email.value) == Some(|users|)
    ensures FindByUserId(Register(users, data, env).1, env.uuid) == Some(|users|)
  {
    var t := Register(users, data, env).1;
    EmailsFind(users, data.email.value);
    assert forall j :: 0 <= j < |users| ==> t[j] == users[j];
    assert forall j :: 0 <= j < |users| ==> users[j].userId in UserIds(users);
  }

  /** Logging in with the credentials just registered succeeds with the
      very token registration returned (same email, `sub`, `accType`);
      any other password is refused. */
  lemma {:induction false} LoginAfterRegister(users: seq<User>, data: Credentials, env: Env, other: string)
    requires Register(users, data, env).0.Succeeded()
    ensures var (r, t) := Register(users, data, env);
      Login(t, data) == Reply(OK, "Login success", true, r.data)
    ensures var t := Register(users, data, env).1;
      other != data.password.value ==>
        Login(t, Credentials(data.email, Some(other))) == Failed(BAD_REQUEST, "Password not match")
  {
    RegisteredFound(users, data, env);
    EncryptCheck(data.password.value, other, env.salt);
  }

  /** The profile of the record just registered shows a mask of one `*`
      per character of the password, so at least 8. */
  lemma {:induction false} ProfileAfterRegister(users: seq<User>, data: Credentials, env: Env)
    requires Register(users, data, env).0.Succeeded()
    ensures var p := Profile(Register(users, data, env).1, env.uuid);
      p.Succeeded() && p.data.ProfileData? &&
      p.data.profile.password == Mask(Utf16Length(data.password.value)) && |p.data.profile.password| >= 8
  {
    RegisteredFound(users, data, env);
  }

  /** Register `a@x.com` / `password1` on an empty collection, log in
      with the right and a wrong password, and read the profile: 201, the
      same token on login, 400 'Password not match', and a mask of nine
      `*` (one per character of `password1`). */
  lemma EndToEnd(env: Env)
    requires env.uuid != ""
    ensures var data := Credentials(Some("a@x.com"), Some("password1"));
      var (r, t) := Register([], data, env);
      r.Succeeded() && r.code == CREATED &&
      Login(t, data) == Reply(OK, "Login success", true, r.data) &&
      Login(t, Credentials(Some("a@x.com"), Some("wrong"))) == Failed(BAD_REQUEST, "Password not match") &&
      Profile(t, env.uuid).Succeeded() && Profile(t, env.uuid).data.profile.password == "*********"
  {
    var data := Credentials(Some("a@x.com"), Some("password1"));
    NineUnits();
    assert CreateAccepts([], RegisterDoc("a@x.com", "password1", env));
    assert Register([], data, env).0.Succeeded();
    LoginAfterRegister([], data, env, "wrong");
    ProfileAfterRegister([], data, env);
    var m := Profile(Register([], data, env).1, env.uuid).data.profile.password;
    assert m == Mask(9);
    NineStars();
  }

  // NineStars and NineUnits only evaluate literals for EndToEnd; they are
  // separate lemmas so that EndToEnd's own context stays small.

  /** The mask of a nine-unit password. */
  lemma NineStars()
    ensures Mask(9) == "*********"
  {
    var m := Mask(9);
    assert forall k :: 0 <= k < 9 ==> m[k] == "*********"[k];
  }

  /** `'password1'.length` is 9: every character is in the Basic
      Multilingual Plane. */
  lemma NineUnits()
    ensures Utf16Length("password1") == 9
  {
    var s := "password1";
    assert forall i :: 0 <= i < |s| ==> s[i] as int <= 0xFFFF;
  }

  /** Lengths are UTF-16 code units: four emoji (each above U+FFFF) make a
      password of length 8, which passes the minimum. */
  lemma AstralPasswordLongEnough(emails: seq<string>)
    ensures Utf16Length("\U{1F600}\U{1F600}\U{1F600}\U{1F600}") == 8
    ensures FieldErrors("Password", RegisterRule(emails).password, Some("\U{1F600}\U{1F600}\U{1F600}\U{1F600}")) == []
  {
    var s := "\U{1F600}\U{1F600}\U{1F600}\U{1F600}";
    assert Astral(s) == {0, 1, 2, 3};
    RegisterPasswordErrors(Some(s), emails);
  }

  // ------------------------------------------------------ third-party sign-in

  /** Find-or-create is idempotent: once it has succeeded for an email, a
      second call with that email (through any provider, with any other
      inputs) creates nothing and returns the same token. */
  lemma {:induction false} FindOrCreateIdempotent(
    users: seq<User>, email: string,
    name: string, bio: Option<string>, imageUrl: string, accountType: string, message: string, env: Env,
    name': string, bio': Option<string>, imageUrl': string, accountType': string, message': string, env': Env)
    requires FindOrCreate(users, email, name, bio, imageUrl, accountType, message, env).0.Succeeded()
    ensures var (r, t) := FindOrCreate(users, email, name, bio, imageUrl, accountType, message, env);
      var (r', t') := FindOrCreate(t, email, name', bio', imageUrl', accountType', message', env');
      t' == t && r'.Succeeded() && r'.message == "Authenticate Success" && r'.data == r.data
  {
    var t := FindOrCreate(users, email, name, bio, imageUrl, accountType, message, env).1;
    if FindByEmail(users, email).None? {
      assert forall j :: 0 <= j < |users| ==> t[j] == users[j];
      assert FindByEmail(t, email) == Some(|users|);
    }
  }

  /** Google sign-in twice with the same email: the same account. */
  lemma GoogleIdempotent(users: seq<User>, data: OAuthProfile, env: Env, data': OAuthProfile, env': Env)
    requires Google(users, data, env).0.Succeeded() && data'.email == data.email
    ensures var (r, t) := Google(users, data, env);
      var (r', t') := Google(t, data', env');
      t' == t && r'.data == r.data
  {
    FindOrCreateIdempotent(users, data.email, data.name, None, data.imageUrl, GoogleAuth, "Authenticate Success", env,
                           data'.name, None, data'.imageUrl, GoogleAuth, "Authenticate Success", env');
  }

  /** Facebook sign-in after Google sign-in with the same email reuses the
      Google account: identities merge by email across providers. */
  lemma FacebookAfterGoogle(users: seq<User>, data: OAuthProfile, env: Env, data': OAuthProfile, env': Env)
    requires Google(users, data, env).0.Succeeded() && data'.email == data.email
    ensures var (r, t) := Google(users, data, env);
      var (r', t') := Facebook(t, data', env');
      t' == t && r'.data == r.data
  {
    FindOrCreateIdempotent(users, data.email, data.name, None, data.imageUrl, GoogleAuth, "Authenticate Success", env,
                           data'.name, None, data'.imageUrl, FacebookAuth, "Authenticate Success", env');
  }

  /** GitHub sign-in twice whose profiles carry the same email: the same
      account, nothing created the second time. */
  lemma GithubIdempotent(users: seq<User>, reply: string, fetchUser: string -> GithubUser, env: Env,
                         reply': string, fetchUser': string -> GithubUser, env': Env)
    requires Github(users, reply, fetchUser, env).0.Succeeded()
    requires GithubToken(reply').Some?
    requires fetchUser'(GithubToken(reply').value).email == fetchUser(GithubToken(reply).value).email
    ensures var (r, t) := Github(users, reply, fetchUser, env);
      var (r', t') := Github(t, reply', fetchUser', env');
      t' == t && r'.data == r.data
  {
    var gh := fetchUser(GithubToken(reply).value);
    var gh' := fetchUser'(GithubToken(reply').value);
    FindOrCreateIdempotent(users, gh.email, gh.name, Some(gh.bio), gh.avatarUrl, GithubAuth, "Authenticate success", env,
                           gh'.name, Some(gh'.bio), gh'.avatarUrl, GithubAuth, "Authenticate success", env');
  }

  /** An account created by a third-party sign-in has no local password:
      logging in with its email is refused whatever the password. */
  lemma {:induction false} OAuthAccountCannotLogin(
    users: seq<User>, email: string, name: string, bio: Option<string>, imageUrl: string,
    accountType: string, message: string, env: Env, password: string)
    requires FindByEmail(users, email).None?
    requires FindOrCreate(users, email, name, bio, imageUrl, accountType, message, env).0.Succeeded()
    ensures var t := FindOrCreate(users, email, name, bio, imageUrl, accountType, message, env).1;
      Login(t, Credentials(Some(email), Some(password))) == Failed(BAD_REQUEST, "Password not match")
  {
    var t := FindOrCreate(users, email, name, bio, imageUrl, accountType, message, env).1;
    assert forall j :: 0 <= j < |users| ==> t[j] == users[j];
    assert FindByEmail(t, email) == Some(|users|);
  }

  /** A profile update with a non-empty password gives any account a
      local credential, third-party accounts included: logging in with
      that password then succeeds. */
  lemma {:induction false} UpdateThenLogin(users: seq<User>, userId: string, patch: Patch, env: Env)
    requires ValidTable(users)
    requires FindByUserId(users, userId).Some? && Truthy(patch.password)
    requires forall j :: 0 <= j < |users| && users[j].userId != userId ==> users[j].email != patch.email
    ensures var t := Update(users, userId, patch, env).1;
      var i := FindByUserId(users, userId).value;
      Login(t, Credentials(Some(patch.email), patch.password)) ==
        Reply(OK, "Login success", true, AccessToken(Issue(patch.email, userId, users[i].accountType)))
  {
    var t := Update(users, userId, patch, env).1;
    var i := FindByUserId(users, userId).value;
    assert FindByEmail(t, patch.email) == Some(i);
    EncryptCheck(patch.password.value, patch.password.value, env.salt);
  }

  // ------------------------------------------------------------------ profile

  /** The profile view does not depend on the stored hash. */
  lemma ViewHidesHash(u: User, h: Option<PasswordHash>)
    ensures View(u) == View(u.(password := h))
  {
  }
}
