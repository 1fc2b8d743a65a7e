/** The `users` collection: the record shape of `userSchema`, the defaults
    Mongoose fills in on `create`, the schema's `required`/`unique`
    constraints, and the two ways the pipeline changes the collection
    (`Users.create` and `Users.updateOne`). */
module UsersModel {
  import opened Wrappers
  import opened Collaborators

  /** A stored user. `password` is the bcrypt hash (absent for accounts
      created through OAuth); `passwordLength` is the length of the
      plaintext it was made from. */
  datatype User = User(
    userId: string,
    name: string,
    email: string,
    password: Option<PasswordHash>,
    passwordLength: nat,
    picture: Picture,
    accountType: string,
    phoneNumber: string,
    bio: string)

  /** The document handed to `Users.create`: a field left out is `None`. */
  datatype NewUser = NewUser(
    userId: string,
    name: string,
    email: string,
    password: Option<PasswordHash>,
    passwordLength: Option<nat>,
    picture: Option<Picture>,
    accountType: Option<string>,
    phoneNumber: Option<string>,
    bio: Option<string>)

  /** The record Mongoose stores for `doc`: every field the document gives
      is kept, every field it leaves out takes the schema default. */
  function Materialize(doc: NewUser): (u: User)
    ensures u.userId == doc.userId && u.name == doc.name && u.email == doc.email
    ensures u.password == doc.password
    ensures u.passwordLength == (if doc.passwordLength.Some? then doc.passwordLength.value else 0)
    ensures u.picture == (if doc.picture.Some? then doc.picture.value else EmptyPicture)
    ensures u.accountType == (if doc.accountType.Some? then doc.accountType.value else "")
    ensures u.phoneNumber == (if doc.phoneNumber.Some? then doc.phoneNumber.value else "")
    ensures u.bio == (if doc.bio.Some? then doc.bio.value else "")
  {
    User(doc.userId, doc.name, doc.email, doc.password,
         doc.passwordLength.GetOr(0), doc.picture.GetOr(EmptyPicture),
         doc.accountType.GetOr(""), doc.phoneNumber.GetOr(""), doc.bio.GetOr(""))
  }

  /** The schema's constraints on the whole collection: every `userId` is
      present (non-empty) and no two records share one. */
  ghost predicate ValidTable(users: seq<User>) {
    (forall i :: 0 <= i < |users| ==> users[i].userId != "") &&
    (forall i, j :: 0 <= i < j < |users| ==> users[i].userId != users[j].userId)
  }

  /** `Users.create(doc)` succeeds: the required `userId` and `email` are
      non-empty and the unique `userId` is not taken. */
  predicate CreateAccepts(users: seq<User>, doc: NewUser): (b: bool)
    ensures ValidTable(users) ==> (b <==> doc.email != "" && ValidTable(users + [Materialize(doc)]))
  {
    var accepted := doc.userId != "" && doc.email != "" &&
                    forall i :: 0 <= i < |users| ==> users[i].userId != doc.userId;
    assert ValidTable(users) && doc.email != "" && ValidTable(users + [Materialize(doc)]) ==> accepted by {
      if ValidTable(users) && doc.email != "" && ValidTable(users + [Materialize(doc)]) {
        var t := users + [Materialize(doc)];
        assert t[|users|].userId == doc.userId;
        forall i | 0 <= i < |users| ensures users[i].userId != doc.userId {
          assert t[i] == users[i];
        }
      }
    }
    accepted
  }

  /** A create that the schema accepts keeps the collection valid. */
  lemma CreatePreservesValid(users: seq<User>, doc: NewUser)
    requires ValidTable(users) && CreateAccepts(users, doc)
    ensures ValidTable(users + [Materialize(doc)])
  {
  }

  /** `findOne(query)`: the index of the first record `matches` accepts. */
  function FindFirst(users: seq<User>, matches: User -> bool): (r: Option<nat>)
    ensures r.Some? ==> r.value < |users| && matches(users[r.value])
    ensures r.Some? ==> forall j :: 0 <= j < r.value ==> !matches(users[j])
    ensures r.None? ==> forall j :: 0 <= j < |users| ==> !matches(users[j])
  {
    if |users| == 0 then None
    else if matches(users[0]) then Some(0)
    else match FindFirst(users[1..], matches)
      case None => None
      case Some(k) => Some(k + 1)
  }

  /** `Users.findOne({ email })`. */
  function FindByEmail(users: seq<User>, email: string): Option<nat> {
    FindFirst(users, (u: User) => u.email == email)
  }

  /** `Users.findOne({ userId })`. */
  function FindByUserId(users: seq<User>, userId: string): Option<nat> {
    FindFirst(users, (u: User) => u.userId == userId)
  }

  /** In a valid collection a `userId` names at most one record, so
      `findOne({ userId })` finds exactly the record that has it. */
  lemma FindByUserIdExact(users: seq<User>, i: nat)
    requires ValidTable(users) && i < |users|
    ensures FindByUserId(users, users[i].userId) == Some(i)
  {
  }

  /** The fields `updateProfile` passes to `Users.updateOne`. */
  datatype Changes = Changes(
    name: string,
    email: string,
    picture: Picture,
    password: Option<PasswordHash>,
    passwordLength: nat,
    bio: string,
    phoneNumber: string)

  /** `$set` of `ch` on one record: the seven fields of `ch` are written,
      `userId` and `accountType` are kept. */
  function Apply(u: User, ch: Changes): (v: User)
    ensures v.userId == u.userId && v.accountType == u.accountType
    ensures v.name == ch.name && v.email == ch.email && v.picture == ch.picture
    ensures v.password == ch.password && v.passwordLength == ch.passwordLength
    ensures v.bio == ch.bio && v.phoneNumber == ch.phoneNumber
  {
    u.(name := ch.name, email := ch.email, picture := ch.picture,
       password := ch.password, passwordLength := ch.passwordLength,
       bio := ch.bio, phoneNumber := ch.phoneNumber)
  }

  /** `Users.updateOne({ userId }, ch)`: the first record with that
      `userId` is changed, every other record is left as it was. */
  function UpdateFirst(users: seq<User>, userId: string, ch: Changes): (r: seq<User>)
    ensures |r| == |users|
    ensures forall j :: 0 <= j < |users| && users[j].userId != userId ==> r[j] == users[j]
    ensures forall j :: 0 <= j < |users| ==> r[j].userId == users[j].userId
    ensures FindByUserId(users, userId).None? ==> r == users
    ensures FindByUserId(users, userId).Some? ==>
      var i := FindByUserId(users, userId).value;
      r == users[i := Apply(users[i], ch)]
  {
    match FindByUserId(users, userId)
    case None => users
    case Some(i) => users[i := Apply(users[i], ch)]
  }

  /** The collection itself, as the pipeline sees it through Mongoose. */
  class UserCollection {
    var users: seq<User>

    ghost predicate Valid()
      reads this
    {
      ValidTable(users)
    }

    constructor ()
      ensures Valid() && users == []
    {
      users := [];
    }

    /** `Users.create(doc)`: the stored record, or `None` when the schema
        rejects the document (and nothing is stored). */
    method Create(doc: NewUser) returns (created: Option<User>)
      requires Valid()
      modifies this
      ensures Valid()
      ensures created.Some? <==> CreateAccepts(old(users), doc)
      ensures created.Some? ==> created.value == Materialize(doc) && users == old(users) + [created.value]
      ensures created.None? ==> users == old(users)
    {
      if CreateAccepts(users, doc) {
        CreatePreservesValid(users, doc);
        created := Some(Materialize(doc));
        users := users + [created.value];
      } else {
        created := None;
      }
    }

    /** `Users.updateOne({ userId }, ch)`; updates run no schema validators. */
    method UpdateOne(userId: string, ch: Changes)
      requires Valid()
      modifies this
      ensures Valid()
      ensures users == UpdateFirst(old(users), userId, ch)
    {
      users := UpdateFirst(users, userId, ch);
    }
  }
}
