/** The account lifecycle (server/src/auth/auth.service.ts): register, verify the email,
    log in, ask for a reset and reset the password, as guarded transitions over the users
    store. Hashing, comparing, signing and the random tokens are parameters; the emails
    the service sends are not modelled. */
module Auth {
  import opened Common
  import opened UserSchema
  import opened Users

  datatype AuthError =
    | Conflict(message: string)
    | BadRequest(message: string)
    | Unauthorized(message: string)
    | Store(cause: UsersError)

  /** The JWT payload `{ email, sub }`; `sub` is the text of the user's id. */
  datatype Claims = Claims(email: string, sub: string)

  datatype Tokens = Tokens(accessToken: string, refreshToken: string)

  const EmailExists: string := "Email already exists"
  const Registered: string := "User registered successfully. Please check your email to verify your account."
  const InvalidVerificationToken: string := "Invalid verification token"
  const EmailVerified: string := "Email verified successfully"
  const InvalidCredentials: string := "Invalid credentials"
  const VerifyFirst: string := "Please verify your email before logging in"
  const UnknownEmail: string := "User not found"
  const ResetSent: string := "Password reset instructions sent to your email"
  const InvalidResetToken: string := "Invalid reset token"
  const PasswordReset: string := "Password reset successfully"
  const AccessLifetime: string := "15m"
  const RefreshLifetime: string := "7d"

  /** The email names a user and `compare` accepts the password against that user's hash. */
  predicate CredentialsMatch(s: seq<User>, email: string, password: string, compare: (string, string) -> bool) {
    IndexByEmail(s, email).Some? && compare(password, s[IndexByEmail(s, email).value].password)
  }

  class AuthService {
    const users: UsersService

    constructor (users: UsersService)
      ensures this.users == users
    {
      this.users := users;
    }

    /** `register`: a taken email is a Conflict and nothing is created; otherwise the user
        is created with `hash(password)` and the fresh `verificationToken`, unless the
        store refuses it. */
    method Register(username: string, email: string, password: string, hash: string -> string,
                    verificationToken: string, id: ObjectId) returns (r: Result<string, AuthError>)
      requires users.Valid()
      requires forall j :: 0 <= j < |users.users| ==> users.users[j].id != id
      modifies users
      ensures users.Valid()
      ensures IndexByEmail(old(users.users), email).Some? ==> r == Err(Conflict(EmailExists))
      ensures r.Ok? <==>
        && IndexByEmail(old(users.users), email).None?
        && IndexByUsername(old(users.users), username).None?
        && UserViolations(username, email, hash(password)) == {}
      ensures r.Err? ==> users.users == old(users.users)
      ensures r.Ok? ==>
        && r.value == Registered
        && users.users == old(users.users) + [NewUser(id, username, email, hash(password), verificationToken)]
    {
      var existing := users.FindByEmail(email);
      if existing.Some? {
        return Err(Conflict(EmailExists));
      }
      var hashed := hash(password);
      var created := users.Create(username, email, hashed, verificationToken, id);
      if created.Err? {
        return Err(Store(created.error));
      }
      r := Ok(Registered);
    }

    /** `verifyEmail`: the first user holding the token becomes verified and loses it. */
    method VerifyEmail(token: string) returns (r: Result<string, AuthError>)
      requires users.Valid()
      modifies users
      ensures users.Valid()
      ensures r.Err? <==> IndexByVerificationToken(old(users.users), token).None?
      ensures r.Err? ==> r.error == BadRequest(InvalidVerificationToken) && users.users == old(users.users)
      ensures r.Ok? ==> var i := IndexByVerificationToken(old(users.users), token).value;
        && r.value == EmailVerified
        && users.users == old(users.users)[i := old(users.users)[i].(isVerified := true, verificationToken := None)]
    {
      var user := users.FindByVerificationToken(token);
      if user.None? {
        return Err(BadRequest(InvalidVerificationToken));
      }
      IdFindsItsUser(users.users, IndexByVerificationToken(users.users, token).value);
      var verified := users.VerifyUser(user.value.id);
      assert verified.Ok?;
      r := Ok(EmailVerified);
    }

    /** `login`: an unknown email and a wrong password give the same answer, and that
        check comes before the verification check; a verified user with matching
        credentials gets two tokens signed over the same claims. Nothing changes. */
    function Login(email: string, password: string, compare: (string, string) -> bool,
                   sign: (Claims, string) -> string): (r: Result<Tokens, AuthError>)
      reads users
      ensures r == Err(Unauthorized(InvalidCredentials)) <==> !CredentialsMatch(users.users, email, password, compare)
      ensures r == Err(Unauthorized(VerifyFirst)) <==>
        CredentialsMatch(users.users, email, password, compare)
        && !users.users[IndexByEmail(users.users, email).value].isVerified
      ensures r.Ok? <==>
        CredentialsMatch(users.users, email, password, compare)
        && users.users[IndexByEmail(users.users, email).value].isVerified
      ensures r.Ok? ==>
        var u := users.users[IndexByEmail(users.users, email).value];
        var claims := Claims(u.email, u.id.hex);
        r.value == Tokens(sign(claims, AccessLifetime), sign(claims, RefreshLifetime))
    {
      match users.FindByEmail(email)
      case None => Err(Unauthorized(InvalidCredentials))
      case Some(user) =>
        if !compare(password, user.password) then Err(Unauthorized(InvalidCredentials))
        else if !user.isVerified then Err(Unauthorized(VerifyFirst))
        else
          var claims := Claims(user.email, user.id.hex);
          Ok(Tokens(sign(claims, AccessLifetime), sign(claims, RefreshLifetime)))
    }

    /** `forgotPassword`: an unknown email is a BadRequest; otherwise that user gets the
        fresh reset token, valid for an hour from `now`. */
    method ForgotPassword(email: string, resetToken: string, now: int) returns (r: Result<string, AuthError>)
      requires users.Valid()
      modifies users
      ensures users.Valid()
      ensures r.Err? <==> IndexByEmail(old(users.users), email).None?
      ensures r.Err? ==> r.error == BadRequest(UnknownEmail) && users.users == old(users.users)
      ensures r.Ok? ==> var i := IndexByEmail(old(users.users), email).value;
        && r.value == ResetSent
        && users.users == old(users.users)[i := old(users.users)[i].(resetPasswordToken := Some(resetToken),
                                                                      resetPasswordExpires := Some(now + ResetTokenLifetime))]
    {
      var user := users.FindByEmail(email);
      if user.None? {
        return Err(BadRequest(UnknownEmail));
      }
      IdFindsItsUser(users.users, IndexByEmail(users.users, email).value);
      var updated := users.SetResetToken(user.value.id, resetToken, now);
      assert updated.Ok?;
      r := Ok(ResetSent);
    }

    /** `resetPassword`: an unknown token is a BadRequest; otherwise the token's user gets
        `hash(newPassword)` and loses both reset fields. The stored expiry plays no part:
        a token past its expiry is accepted. */
    method ResetPassword(token: string, newPassword: string, hash: string -> string) returns (r: Result<string, AuthError>)
      requires users.Valid()
      modifies users
      ensures users.Valid()
      ensures r.Ok? <==> IndexByResetToken(old(users.users), token).Some? && hash(newPassword) != ""
      ensures IndexByResetToken(old(users.users), token).None? ==> r == Err(BadRequest(InvalidResetToken))
      ensures r.Err? ==> users.users == old(users.users)
      ensures r.Ok? ==> var i := IndexByResetToken(old(users.users), token).value;
        && r.value == PasswordReset
        && users.users == old(users.users)[i := old(users.users)[i].(password := hash(newPassword),
                                                                      resetPasswordToken := None,
                                                                      resetPasswordExpires := None)]
    {
      var user := users.FindByResetToken(token);
      if user.None? {
        return Err(BadRequest(InvalidResetToken));
      }
      IdFindsItsUser(users.users, IndexByResetToken(users.users, token).value);
      var hashed := hash(newPassword);
      var updated := users.ResetPassword(user.value.id, hashed);
      if updated.Err? {
        return Err(Store(updated.error));
      }
      r := Ok(PasswordReset);
    }
  }
}
