/** The registration form check (client/src/validators/registerFormValidators.ts): four
    independent field checks, two of them regular expressions, restated here as predicates
    on characters and proved equal to a direct computation. */
module RegisterValidator {
  import opened Common

  /** The characters JavaScript's `\s` matches. */
  predicate IsJsSpace(c: char) {
    || c == ' ' || c == '\t' || c == '\n' || c == '\U{000B}' || c == '\U{000C}' || c == '\r'
    || c == '\U{00A0}' || c == '\U{1680}' || ('\U{2000}' <= c <= '\U{200A}')
    || c == '\U{2028}' || c == '\U{2029}' || c == '\U{202F}' || c == '\U{205F}'
    || c == '\U{3000}' || c == '\U{FEFF}'
  }

  /** `[^\s@]`. */
  predicate IsAddressChar(c: char) {
    !IsJsSpace(c) && c != '@'
  }

  /** The language of `/^[^\s@]+@[^\s@]+\.[^\s@]+$/`: a non-empty run, '@', a non-empty
      run, '.', a non-empty run, where no run holds whitespace or '@' (runs may hold '.'). */
  ghost predicate EmailPattern(s: string) {
    exists at, dot ::
      && 0 < at && at + 1 < dot && dot + 1 < |s|
      && s[at] == '@' && s[dot] == '.'
      && (forall j :: 0 <= j < |s| && j != at ==> IsAddressChar(s[j]))
  }

  function IndexOf(s: string, c: char): (r: int)
    ensures -1 <= r < |s|
    ensures r >= 0 ==> s[r] == c && forall j :: 0 <= j < r ==> s[j] != c
    ensures r < 0 <==> c !in s
  {
    if s == [] then -1
    else if s[0] == c then 0
    else
      var k := IndexOf(s[1..], c);
      if k < 0 then -1 else k + 1
  }

  /** A direct test: no whitespace, exactly one '@' with something before it, and a '.'
      after it that is neither the first nor the last character of the domain. */
  predicate IsValidEmail(s: string) {
    var at := IndexOf(s, '@');
    && (forall j :: 0 <= j < |s| ==> !IsJsSpace(s[j]))
    && at > 0
    && '@' !in s[at + 1..]
    && at + 3 <= |s| && '.' in s[at + 2..|s| - 1]
  }

  lemma {:induction false} EmailTestMatchesPattern(s: string)
    ensures IsValidEmail(s) <==> EmailPattern(s)
  {
    if IsValidEmail(s) {
      var at := IndexOf(s, '@');
      var mid := s[at + 2..|s| - 1];
      var k :| 0 <= k < |mid| && mid[k] == '.';
      var dot := at + 2 + k;
      assert s[dot] == '.';
      forall j | 0 <= j < |s| && j != at
        ensures IsAddressChar(s[j])
      {
        if j > at {
          assert s[j] == s[at + 1..][j - at - 1];
        }
      }
      assert EmailPattern(s);
    }
    if EmailPattern(s) {
      var at, dot :| && 0 < at && at + 1 < dot && dot + 1 < |s|
                     && s[at] == '@' && s[dot] == '.'
                     && (forall j :: 0 <= j < |s| && j != at ==> IsAddressChar(s[j]));
      var first := IndexOf(s, '@');
      assert first == at by {
        assert first >= 0 && first <= at;
        assert s[first] == '@';
      }
      var domain := s[at + 1..];
      assert '@' !in domain by {
        forall j | 0 <= j < |domain| ensures domain[j] != '@' {
          assert domain[j] == s[at + 1 + j];
        }
      }
      assert s[at + 2..|s| - 1][dot - at - 2] == '.';
      assert forall j :: 0 <= j < |s| ==> !IsJsSpace(s[j]) by {
        forall j | 0 <= j < |s| ensures !IsJsSpace(s[j]) {
          if j != at {
            assert IsAddressChar(s[j]);
          }
        }
      }
    }
  }

  predicate IsLower(c: char) { 'a' <= c <= 'z' }
  predicate IsUpper(c: char) { 'A' <= c <= 'Z' }
  /** JavaScript's `\d`: ASCII digits only. */
  predicate IsDigit(c: char) { '0' <= c <= '9' }
  predicate IsSpecial(c: char) {
    c == '@' || c == '$' || c == '!' || c == '%' || c == '*' || c == '?' || c == '&'
  }
  /** `[A-Za-z\d@$!%*?&]`. */
  predicate IsPasswordChar(c: char) { IsLower(c) || IsUpper(c) || IsDigit(c) || IsSpecial(c) }

  /** The characters `.` does not match. */
  predicate IsLineTerminator(c: char) {
    c == '\n' || c == '\r' || c == '\U{2028}' || c == '\U{2029}'
  }

  /** `(?=.*[class])` at the start: a character of the class occurs before any line
      terminator. */
  ghost predicate LookaheadFinds(s: string, cls: char -> bool) {
    exists j :: 0 <= j < |s| && cls(s[j]) && forall k :: 0 <= k < j ==> !IsLineTerminator(s[k])
  }

  /** The language of the password expression, lookaheads as written. */
  ghost predicate PasswordPattern(s: string) {
    && LookaheadFinds(s, IsLower) && LookaheadFinds(s, IsUpper)
    && LookaheadFinds(s, IsDigit) && LookaheadFinds(s, IsSpecial)
    && |s| >= 8 && forall j :: 0 <= j < |s| ==> IsPasswordChar(s[j])
  }

  predicate Contains(s: string, cls: char -> bool) {
    exists j :: 0 <= j < |s| && cls(s[j])
  }

  /** The direct test: at least 8 characters, all from the class, and one of each kind. */
  predicate IsStrongPassword(s: string) {
    && |s| >= 8
    && (forall j :: 0 <= j < |s| ==> IsPasswordChar(s[j]))
    && Contains(s, IsLower) && Contains(s, IsUpper)
    && Contains(s, IsDigit) && Contains(s, IsSpecial)
  }

  /** No password character is a line terminator, so each lookahead is plain existence. */
  lemma PasswordTestMatchesPattern(s: string)
    ensures IsStrongPassword(s) <==> PasswordPattern(s)
  {
    if forall j :: 0 <= j < |s| ==> IsPasswordChar(s[j]) {
      forall cls: char -> bool
        ensures LookaheadFinds(s, cls) <==> Contains(s, cls)
      {
        if Contains(s, cls) {
          var j :| 0 <= j < |s| && cls(s[j]);
          assert forall k :: 0 <= k < j ==> IsPasswordChar(s[k]);
        }
      }
    }
  }

  const UsernameTooShort: string := "Username must be at least 3 characters long"
  const InvalidEmail: string := "Please enter a valid email address"
  const WeakPassword: string :=
    "Password must be at least 8 characters long and include uppercase, lowercase, number, and special character"
  const PasswordsDiffer: string := "Passwords do not match"

  datatype RegisterForm = RegisterForm(username: string, email: string, password: string, confirmPassword: string)

  /** The `errors` object: a message per failing field, no key for a passing one. */
  datatype RegisterErrors = RegisterErrors(
    username: Option<string>,
    email: Option<string>,
    password: Option<string>,
    confirmPassword: Option<string>)

  predicate NoErrors(e: RegisterErrors) {
    e.username.None? && e.email.None? && e.password.None? && e.confirmPassword.None?
  }

  /** `validateRegisterForm`. */
  function ValidateRegisterForm(d: RegisterForm): (e: RegisterErrors)
    ensures e.username.Some? <==> |d.username| < 3
    ensures e.email.Some? <==> !EmailPattern(d.email)
    ensures e.password.Some? <==> !PasswordPattern(d.password)
    ensures e.confirmPassword.Some? <==> d.password != d.confirmPassword
    ensures e.username.Some? ==> e.username.value == UsernameTooShort
    ensures e.email.Some? ==> e.email.value == InvalidEmail
    ensures e.password.Some? ==> e.password.value == WeakPassword
    ensures e.confirmPassword.Some? ==> e.confirmPassword.value == PasswordsDiffer
    ensures NoErrors(e) <==>
      |d.username| >= 3 && EmailPattern(d.email) && PasswordPattern(d.password) && d.password == d.confirmPassword
  {
    EmailTestMatchesPattern(d.email);
    PasswordTestMatchesPattern(d.password);
    RegisterErrors(
      if |d.username| < 3 then Some(UsernameTooShort) else None,
      if !IsValidEmail(d.email) then Some(InvalidEmail) else None,
      if !IsStrongPassword(d.password) then Some(WeakPassword) else None,
      if d.password != d.confirmPassword then Some(PasswordsDiffer) else None)
  }
}
