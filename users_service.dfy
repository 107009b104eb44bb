/** The users service (server/src/users/users.service.ts) over the users collection, held
    as a sequence of records in natural order. The unique indexes on `username` and
    `email` and the unique `_id` are the invariant the store keeps. */
module Users {
  import opened Common
  import opened UserSchema

  datatype UsersError =
    | ValidationFailed(paths: set<string>)
    | DuplicateKey(field: string)
    | NotFound(message: string)

  const UserNotFound: string := "User not found"

  /** `Date.now() + 3600000`: a reset token lives one hour. */
  const ResetTokenLifetime: int := 3600000

  predicate UniqueUsers(s: seq<User>) {
    forall j1, j2 :: 0 <= j1 < j2 < |s| ==>
      s[j1].id != s[j2].id && s[j1].username != s[j2].username && s[j1].email != s[j2].email
  }

  /** `findOne({ [field]: key })`: the first user in natural order whose field holds the key. */
  function IndexBy<K(==)>(s: seq<User>, field: User -> K, key: K): (r: Option<nat>)
    ensures r.Some? ==> r.value < |s| && field(s[r.value]) == key
    ensures r.None? <==> forall j :: 0 <= j < |s| ==> field(s[j]) != key
    ensures r.Some? ==> forall j :: 0 <= j < r.value ==> field(s[j]) != key
  {
    FirstIndex(s, (u: User) => field(u) == key)
  }

  function IndexById(s: seq<User>, id: ObjectId): Option<nat> {
    IndexBy(s, (u: User) => u.id, id)
  }

  function IndexByUsername(s: seq<User>, username: string): Option<nat> {
    IndexBy(s, (u: User) => u.username, username)
  }

  function IndexByEmail(s: seq<User>, email: string): Option<nat> {
    IndexBy(s, (u: User) => u.email, email)
  }

  /** A user whose token field is absent never matches a token string. */
  function IndexByVerificationToken(s: seq<User>, token: string): Option<nat> {
    IndexBy(s, (u: User) => u.verificationToken, Some(token))
  }

  function IndexByResetToken(s: seq<User>, token: string): Option<nat> {
    IndexBy(s, (u: User) => u.resetPasswordToken, Some(token))
  }

  /** With unique ids the user at `j` is the one its id finds. */
  lemma IdFindsItsUser(s: seq<User>, j: nat)
    requires UniqueUsers(s) && j < |s|
    ensures IndexById(s, s[j].id) == Some(j)
  {
  }

  /** With unique emails the user at `j` is the one its email finds. */
  lemma EmailFindsItsUser(s: seq<User>, j: nat)
    requires UniqueUsers(s) && j < |s|
    ensures IndexByEmail(s, s[j].email) == Some(j)
  {
  }

  class UsersService {
    var users: seq<User>

    /** The three unique indexes hold, and the required strings are non-empty (every
        stored user passed `save`'s validators). */
    ghost predicate Valid()
      reads this
    {
      && UniqueUsers(users)
      && forall j :: 0 <= j < |users| ==> UserViolations(users[j].username, users[j].email, users[j].password) == {}
    }

    constructor ()
      ensures Valid() && users == []
    {
      users := [];
    }

    /** `create`: validation first, then the unique indexes (the `username` index is
        declared first); `id` is the fresh ObjectId Mongoose assigns. */
    method Create(username: string, email: string, hashedPassword: string, verificationToken: string, id: ObjectId)
      returns (r: Result<User, UsersError>)
      requires Valid()
      requires forall j :: 0 <= j < |users| ==> users[j].id != id
      modifies this
      ensures Valid()
      ensures r.Ok? <==>
        && UserViolations(username, email, hashedPassword) == {}
        && IndexByUsername(old(users), username).None?
        && IndexByEmail(old(users), email).None?
      ensures r.Err? ==> users == old(users)
      ensures r.Err? && r.error.ValidationFailed? ==> r.error.paths == UserViolations(username, email, hashedPassword)
      ensures r.Err? && r.error.DuplicateKey? ==> r.error.field in {"username", "email"}
      ensures r.Ok? ==> r.value == NewUser(id, username, email, hashedPassword, verificationToken)
                        && users == old(users) + [r.value]
    {
      var bad := UserViolations(username, email, hashedPassword);
      if bad != {} {
        return Err(ValidationFailed(bad));
      }
      if IndexByUsername(users, username).Some? {
        return Err(DuplicateKey("username"));
      }
      if IndexByEmail(users, email).Some? {
        return Err(DuplicateKey("email"));
      }
      var user := NewUser(id, username, email, hashedPassword, verificationToken);
      users := users + [user];
      r := Ok(user);
    }

    function FindByUsername(username: string): (r: Option<User>)
      reads this
      ensures r.Some? ==> r.value in users && r.value.username == username
      ensures r.None? <==> forall j :: 0 <= j < |users| ==> users[j].username != username
    {
      match IndexByUsername(users, username)
      case None => None
      case Some(j) => Some(users[j])
    }

    function FindByEmail(email: string): (r: Option<User>)
      reads this
      ensures r.Some? ==> r.value in users && r.value.email == email
      ensures r.None? <==> forall j :: 0 <= j < |users| ==> users[j].email != email
    {
      match IndexByEmail(users, email)
      case None => None
      case Some(j) => Some(users[j])
    }

    function FindById(id: ObjectId): (r: Option<User>)
      reads this
      ensures r.Some? ==> r.value in users && r.value.id == id
      ensures r.None? <==> forall j :: 0 <= j < |users| ==> users[j].id != id
    {
      match IndexById(users, id)
      case None => None
      case Some(j) => Some(users[j])
    }

    function FindByVerificationToken(token: string): (r: Option<User>)
      reads this
      ensures r.Some? ==> r.value in users && r.value.verificationToken == Some(token)
      ensures r.None? <==> forall j :: 0 <= j < |users| ==> users[j].verificationToken != Some(token)
    {
      match IndexByVerificationToken(users, token)
      case None => None
      case Some(j) => Some(users[j])
    }

    function FindByResetToken(token: string): (r: Option<User>)
      reads this
      ensures r.Some? ==> r.value in users && r.value.resetPasswordToken == Some(token)
      ensures r.None? <==> forall j :: 0 <= j < |users| ==> users[j].resetPasswordToken != Some(token)
    {
      match IndexByResetToken(users, token)
      case None => None
      case Some(j) => Some(users[j])
    }

    /** `verifyUser`: the user becomes verified and loses the verification token; no other
        user changes. */
    method VerifyUser(id: ObjectId) returns (r: Result<User, UsersError>)
      requires Valid()
      modifies this
      ensures Valid()
      ensures r.Err? <==> IndexById(old(users), id).None?
      ensures r.Err? ==> users == old(users) && r.error == NotFound(UserNotFound)
      ensures r.Ok? ==> var i := IndexById(old(users), id).value;
        && r.value == old(users)[i].(isVerified := true, verificationToken := None)
        && users == old(users)[i := r.value]
    {
      var found := IndexById(users, id);
      if found.None? {
        return Err(NotFound(UserNotFound));
      }
      var i := found.value;
      var user := users[i];
      user := user.(isVerified := true);
      user := user.(verificationToken := None);
      users := users[i := user];
      r := Ok(user);
    }

    /** `setResetToken`: stores the token and an expiry one hour after `now`. */
    method SetResetToken(id: ObjectId, token: string, now: int) returns (r: Result<User, UsersError>)
      requires Valid()
      modifies this
      ensures Valid()
      ensures r.Err? <==> IndexById(old(users), id).None?
      ensures r.Err? ==> users == old(users) && r.error == NotFound(UserNotFound)
      ensures r.Ok? ==> var i := IndexById(old(users), id).value;
        && r.value == old(users)[i].(resetPasswordToken := Some(token), resetPasswordExpires := Some(now + ResetTokenLifetime))
        && users == old(users)[i := r.value]
    {
      var found := IndexById(users, id);
      if found.None? {
        return Err(NotFound(UserNotFound));
      }
      var i := found.value;
      var user := users[i];
      user := user.(resetPasswordToken := Some(token));
      user := user.(resetPasswordExpires := Some(now + ResetTokenLifetime));
      users := users[i := user];
      r := Ok(user);
    }

    /** `resetPassword`: the new hash replaces the old one and both reset fields are
        cleared; `save` revalidates, so an empty hash is refused. */
    method ResetPassword(id: ObjectId, hashedPassword: string) returns (r: Result<User, UsersError>)
      requires Valid()
      modifies this
      ensures Valid()
      ensures r.Ok? <==> IndexById(old(users), id).Some? && hashedPassword != ""
      ensures IndexById(old(users), id).None? ==> r == Err(NotFound(UserNotFound))
      ensures r.Err? ==> users == old(users)
      ensures r.Ok? ==> var i := IndexById(old(users), id).value;
        && r.value == old(users)[i].(password := hashedPassword, resetPasswordToken := None, resetPasswordExpires := None)
        && users == old(users)[i := r.value]
    {
      var found := IndexById(users, id);
      if found.None? {
        return Err(NotFound(UserNotFound));
      }
      var i := found.value;
      var user := users[i];
      user := user.(password := hashedPassword);
      user := user.(resetPasswordToken := None);
      user := user.(resetPasswordExpires := None);
      var bad := UserViolations(user.username, user.email, user.password);
      if bad != {} {
        return Err(ValidationFailed(bad));
      }
      users := users[i := user];
      r := Ok(user);
    }
  }
}
