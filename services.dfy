/** The service layer of `src/services/index.js` in its own, imperative
    form: each operation reads and writes the shared `users` collection
    step by step, and is proved to do exactly what the matching function
    of `Pipeline` specifies. */
module Services {
  import opened Wrappers
  import opened JsString
  import opened Collaborators
  import opened UsersModel
  import opened Responses
  import opened InputValidation
  import opened Pipeline
  import opened PipelineProperties

  class AuthService {
    /** The Mongoose model `Users` every operation works on. */
    const users: UserCollection

    /** The collection meets its schema, and every record that claims a
        password length has a hash. */
    ghost predicate Valid()
      reads this, users
    {
      users.Valid() && CredentialsConsistent(users.users)
    }

    constructor (users: UserCollection)
      requires users.Valid() && CredentialsConsistent(users.users)
      ensures this.users == users && Valid()
    {
      this.users := users;
    }

    /** `getEmails()`: `Users.find({})`, then each record's email pushed
        onto a new list in turn. */
    method GetEmails() returns (emails: seq<string>)
      ensures |emails| == |users.users|
      ensures forall i :: 0 <= i < |emails| ==> emails[i] == users.users[i].email
    {
      var u := users.users;
      emails := [];
      for k := 0 to |u|
        invariant |emails| == k
        invariant forall i :: 0 <= i < k ==> emails[i] == u[i].email
      {
        emails := emails + [u[k].email];
      }
    }

    /** `registerUser(data)`. */
    method RegisterUser(data: Credentials, env: Env) returns (r: Outcome)
      requires Valid()
      modifies users
      ensures Valid()
      ensures (r, users.users) == Register(old(users.users), data, env)
    {
      var emails := GetEmails();
      assert emails == Emails(users.users);
      var constraints := RegisterRule(emails);
      var checkValidation := Validation(Validate(data, constraints));
      RegisterValidation(data, emails);
      if Rejects(checkValidation) {
        r := Failed(BAD_REQUEST, checkValidation.value);
        return;
      }
      var picture := env.upload(DefaultImg);
      var encryptedPassword := Encrypt(data.password.value, env.salt);
      var doc := NewUser(env.uuid, "", data.email.value, Some(encryptedPassword),
                         Some(Utf16Length(data.password.value)), Some(picture), Some(ApiAuth), None, None);
      var user := users.Create(doc);
      if user.Some? {
        r := Granted(CREATED, "Register success", user.value);
      } else {
        r := Raised(StoreRejected);
      }
      RegisterPreserves(old(users.users), data, env);
    }

    /** `loginUser(data)`: reads the collection only. */
    method LoginUser(data: Credentials) returns (r: Outcome)
      ensures r == Login(users.users, data)
    {
      var constraints := LoginRule();
      var checkValidation := Validation(Validate(data, constraints));
      if Rejects(checkValidation) {
        r := Failed(BAD_REQUEST, checkValidation.value);
        return;
      }
      LoginValidation(data);
      var found := FindByEmail(users.users, data.email.value);
      if found.None? {
        r := Failed(NOT_FOUND, "User not exist");
        return;
      }
      var user := users.users[found.value];
      if user.passwordLength == 0 {
        r := Failed(BAD_REQUEST, "Password not match");
      } else if user.password.None? {
        r := Raised(IllegalArguments);
      } else {
        var checkPassword := CheckMatch(data.password.value, user.password.value);
        if checkPassword {
          r := Granted(OK, "Login success", user);
        } else {
          r := Failed(BAD_REQUEST, "Password not match");
        }
      }
    }

    /** The find-or-create steps the three sign-in operations share. */
    method FindOrCreateUser(email: string, name: string, bio: Option<string>, imageUrl: string,
                            accountType: string, createdMessage: string, env: Env)
      returns (r: Outcome)
      requires Valid()
      modifies users
      ensures Valid()
      ensures (r, users.users) ==
        FindOrCreate(old(users.users), email, name, bio, imageUrl, accountType, createdMessage, env)
    {
      FindOrCreatePreserves(users.users, email, name, bio, imageUrl, accountType, createdMessage, env);
      var user := FindByEmail(users.users, email);
      if user.Some? {
        r := Granted(OK, "Authenticate Success", users.users[user.value]);
        return;
      }
      var picture := env.upload(imageUrl);
      var doc := NewUser(env.uuid, name, email, None, Some(0), Some(picture), Some(accountType), None, bio);
      var newUser := users.Create(doc);
      if newUser.Some? {
        r := Granted(OK, createdMessage, newUser.value);
      } else {
        r := Raised(StoreRejected);
      }
    }

    /** `authenticateGoogle(data)`. */
    method AuthenticateGoogle(data: OAuthProfile, env: Env) returns (r: Outcome)
      requires Valid()
      modifies users
      ensures Valid()
      ensures (r, users.users) == Google(old(users.users), data, env)
    {
      r := FindOrCreateUser(data.email, data.name, None, data.imageUrl, GoogleAuth, "Authenticate Success", env);
    }

    /** `authenticateFacebook(data)`. */
    method AuthenticateFacebook(data: OAuthProfile, env: Env) returns (r: Outcome)
      requires Valid()
      modifies users
      ensures Valid()
      ensures (r, users.users) == Facebook(old(users.users), data, env)
    {
      r := FindOrCreateUser(data.email, data.name, None, data.imageUrl, FacebookAuth, "Authenticate Success", env);
    }

    /** `authenticateGithub({ code })`: `reply` is the body of GitHub's
        answer to the code exchange, `fetchUser` the `GET /user` call. */
    method AuthenticateGithub(reply: string, fetchUser: string -> GithubUser, env: Env) returns (r: Outcome)
      requires Valid()
      modifies users
      ensures Valid()
      ensures (r, users.users) == Github(old(users.users), reply, fetchUser, env)
    {
      var str := reply;
      var ghToken := Substring(str, LastIndexOf(str, AccessTokenKey), LastIndexOf(str, ScopeKey));
      if |ghToken| > 0 {
        var newToken := ReplaceFirst(ghToken, AccessTokenKey, "");
        var newData := fetchUser(newToken);
        r := FindOrCreateUser(newData.email, newData.name, Some(newData.bio), newData.avatarUrl,
                              GithubAuth, "Authenticate success", env);
      } else {
        r := Failed(INTERNAL_SERVER_ERROR, "Internal server error");
      }
    }

    /** `updateProfile(userId, data)`. */
    method UpdateProfile(userId: string, data: Patch, env: Env) returns (r: Outcome)
      requires Valid()
      modifies users
      ensures Valid()
      ensures (r, users.users) == Update(old(users.users), userId, data, env)
    {
      UpdatePreserves(users.users, userId, data, env);
      var found := FindByUserId(users.users, userId);
      if found.None? {
        r := Failed(NOT_FOUND, "Users not found");
        return;
      }
      var user := users.users[found.value];
      var pass: Option<PasswordHash>;
      if Truthy(data.password) {
        pass := Some(Encrypt(data.password.value, env.salt));
      } else {
        pass := user.password;
      }
      var img: Picture;
      if env.validUrl(data.picture) {
        img := user.picture;
      } else {
        var deleteImg := env.deleteImage(user.picture.publicId);
        if deleteImg {
          img := env.upload(data.picture);
        } else {
          img := user.picture;
        }
      }
      if data.password.None? {
        r := Raised(LengthOfUndefined);
        return;
      }
      var passwordLength := if Utf16Length(data.password.value) != 0 then Utf16Length(data.password.value) else user.passwordLength;
      var doc := Changes(data.name, data.email, img, if pass.Some? then pass else user.password,
                         passwordLength, data.bio, data.phoneNumber);
      users.UpdateOne(userId, doc);
      r := Reply(OK, "Update success", true, NoData);
    }

    /** `getProfile(userId)`: reads the collection only. */
    method GetProfile(userId: string) returns (r: Outcome)
      ensures r == Profile(users.users, userId)
    {
      var found := FindByUserId(users.users, userId);
      if found.None? {
        r := Failed(NOT_FOUND, "User not found");
        return;
      }
      var user := users.users[found.value];
      var data := ProfileView(user.userId, user.name, user.email, user.bio, user.picture.secureUrl,
                              Mask(user.passwordLength), user.phoneNumber);
      r := Reply(OK, "Get profile success", true, ProfileData(data));
    }
  }
}
