/** The login form check (client/src/validators/loginValidator.ts): a missing field and a
    malformed one get different messages; the email pattern is the registration form's. */
module LoginValidator {
  import opened Common
  import opened RegisterValidator

  const EmailRequired: string := "Email is required"
  const PasswordRequired: string := "Password is required"
  const PasswordTooShort: string := "Password must be at least 8 characters long"

  datatype LoginForm = LoginForm(email: string, password: string)

  datatype LoginErrors = LoginErrors(email: Option<string>, password: Option<string>)

  /** `validateLoginForm`: an empty string is falsy, so it is "required"; the pattern and
      the length are checked only on a non-empty value. */
  function ValidateLoginForm(d: LoginForm): (e: LoginErrors)
    ensures e.email == Some(EmailRequired) <==> d.email == ""
    ensures e.email == Some(InvalidEmail) <==> d.email != "" && !EmailPattern(d.email)
    ensures e.password == Some(PasswordRequired) <==> d.password == ""
    ensures e.password == Some(PasswordTooShort) <==> 0 < |d.password| < 8
    ensures e.email.Some? ==> e.email.value in {EmailRequired, InvalidEmail}
    ensures e.password.Some? ==> e.password.value in {PasswordRequired, PasswordTooShort}
    ensures e.email.None? && e.password.None? <==> EmailPattern(d.email) && |d.password| >= 8
  {
    EmailTestMatchesPattern(d.email);
    LoginErrors(
      if d.email == "" then Some(EmailRequired)
      else if !IsValidEmail(d.email) then Some(InvalidEmail)
      else None,
      if d.password == "" then Some(PasswordRequired)
      else if |d.password| < 8 then Some(PasswordTooShort)
      else None)
  }

  /** An email accepted at registration is accepted at login, and so is a password. */
  lemma RegisteredFormPassesLogin(d: RegisterForm)
    requires NoErrors(ValidateRegisterForm(d))
    ensures var e := ValidateLoginForm(LoginForm(d.email, d.password));
      e.email.None? && e.password.None?
  {
  }
}
