/** The `User` record of the users collection (server/src/users/schemas/user.schema.ts):
    the default Mongoose fills in, the validators `save` runs and the `toJSON` transform,
    which also keeps the password hash out of every response. */
module UserSchema {
  import opened Common
  import opened Json

  const DefaultVerified: bool := false

  /** A stored user. `password` holds the hash; the three token fields are optional. */
  datatype User = User(
    id: ObjectId,
    username: string,
    email: string,
    password: string,
    isVerified: bool,
    verificationToken: Option<string>,
    resetPasswordToken: Option<string>,
    resetPasswordExpires: Option<int>)

  /** The paths whose `required` validator fails: Mongoose rejects an empty string. */
  function UserViolations(username: string, email: string, password: string): (bad: set<string>)
    ensures bad == {} <==> username != "" && email != "" && password != ""
    ensures bad <= {"username", "email", "password"}
  {
    (if username == "" then {"username"} else {})
    + (if email == "" then {"email"} else {})
    + (if password == "" then {"password"} else {})
  }

  /** The document a new user starts as: not verified, no reset token. */
  function NewUser(id: ObjectId, username: string, email: string, password: string, verificationToken: string): (u: User)
    ensures !u.isVerified && u.resetPasswordToken.None? && u.resetPasswordExpires.None?
    ensures u.verificationToken == Some(verificationToken)
    ensures u.id == id && u.username == username && u.email == email && u.password == password
  {
    User(id, username, email, password, DefaultVerified, Some(verificationToken), None, None)
  }

  /** The object the transform receives for `u`: stored fields, `__v` and the virtual `id`. */
  function UserDocument(u: User): (d: map<string, Value>)
    ensures "_id" in d && d["_id"] == Id(u.id) && "password" in d && "__v" in d
    ensures "id" in d && d["id"] == Str(u.id.hex)
  {
    var stored := map["_id" := Id(u.id), "username" := Str(u.username), "email" := Str(u.email),
        "password" := Str(u.password), "isVerified" := Bool(u.isVerified),
        "__v" := Num(0), "id" := Str(u.id.hex)];
    var withVerification :=
      if u.verificationToken.Some? then stored["verificationToken" := Str(u.verificationToken.value)] else stored;
    var withReset :=
      if u.resetPasswordToken.Some? then withVerification["resetPasswordToken" := Str(u.resetPasswordToken.value)]
      else withVerification;
    if u.resetPasswordExpires.Some? then withReset["resetPasswordExpires" := Date(u.resetPasswordExpires.value)]
    else withReset
  }

  /** The schema's `toJSON` transform: `id` becomes the text of `_id`, then `_id`, `__v`
      and `password` are deleted. */
  method Transform(ret: JsonObject)
    requires "_id" in ret.fields && ret.fields["_id"].Id?
    modifies ret
    ensures ret.fields.Keys == old(ret.fields.Keys) - {"_id", "__v", "password"} + {"id"}
    ensures ret.fields["id"] == Str(old(ret.fields["_id"]).oid.hex)
    ensures forall k :: k in old(ret.fields) && k !in {"_id", "__v", "password", "id"} ==>
      ret.fields[k] == old(ret.fields[k])
  {
    ret.fields := ret.fields["id" := Str(ret.fields["_id"].oid.hex)];
    ret.fields := ret.fields - {"_id"};
    ret.fields := ret.fields - {"__v"};
    ret.fields := ret.fields - {"password"};
  }

  /** The JSON form of a stored user: never the hash, never `_id` or `__v`. */
  method ToJson(u: User) returns (json: map<string, Value>)
    ensures "_id" !in json && "__v" !in json && "password" !in json
    ensures "id" in json && json["id"] == Str(u.id.hex)
    ensures forall k :: k in UserDocument(u) && k !in {"_id", "__v", "password"} ==>
      k in json && json[k] == UserDocument(u)[k]
    ensures forall k :: k in json ==> k in UserDocument(u)
  {
    var doc := UserDocument(u);
    var ret := new JsonObject(doc);
    Transform(ret);
    json := ret.fields;
  }
}
