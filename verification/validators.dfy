/**
 * The request validation rules: the password policy, the trimmed full-name
 * bounds, the optional role membership, the non-empty rules, the validation
 * chains built from them and the mapping of their errors to a 400 response.
 */
module Validators {
  import opened Wrappers
  import opened Roles

  // ---------------------------------------------------------------------------
  // Character classes of the password pattern /^(?=.*[a-z])(?=.*[A-Z])(?=.*\d)/
  // ---------------------------------------------------------------------------

  /** The characters a regular-expression `.` does not match: LF, CR, LS and PS. */
  predicate IsLineTerminator(c: char)
  {
    c == '\n' || c == '\r' || c == '\U{2028}' || c == '\U{2029}'
  }

  /** The three classes the lookaheads search for: `[a-z]`, `[A-Z]` and `\d`. */
  datatype CharClass = Lower | Upper | Digit

  predicate InClass(c: char, k: CharClass)
  {
    match k
    case Lower => 'a' <= c <= 'z'
    case Upper => 'A' <= c <= 'Z'
    case Digit => '0' <= c <= '9'
  }

  /** No line terminator occurs among the first `i` characters of `s`. */
  ghost predicate OnFirstLine(s: string, i: int)
    requires 0 <= i <= |s|
  {
    forall k :: 0 <= k < i ==> !IsLineTerminator(s[k])
  }

  /** Some character of class `k` occurs in `s` before any line terminator. */
  ghost predicate OccursOnFirstLine(s: string, k: CharClass)
  {
    exists i :: 0 <= i < |s| && InClass(s[i], k) && OnFirstLine(s, i)
  }

  /**
   * The lookahead `(?=.*[k])` tried at the start of `s`: `.*` can only run up
   * to the first line terminator, so the class must occur before it.
   */
  function Lookahead(s: string, k: CharClass): (r: bool)
    ensures r <==> OccursOnFirstLine(s, k)
  {
    if |s| == 0 || IsLineTerminator(s[0]) then false
    else if InClass(s[0], k) then true
    else
      var r := Lookahead(s[1..], k);
      assert r ==> OccursOnFirstLine(s, k) by {
        if r {
          var i :| 0 <= i < |s[1..]| && InClass(s[1..][i], k) && OnFirstLine(s[1..], i);
          assert InClass(s[i + 1], k);
          assert OnFirstLine(s, i + 1) by {
            forall j | 0 <= j < i + 1 ensures !IsLineTerminator(s[j]) {
              if j > 0 { assert s[j] == s[1..][j - 1]; }
            }
          }
        }
      }
      assert OccursOnFirstLine(s, k) ==> r by {
        if OccursOnFirstLine(s, k) {
          var i :| 0 <= i < |s| && InClass(s[i], k) && OnFirstLine(s, i);
          assert i != 0;
          assert InClass(s[1..][i - 1], k);
          assert OnFirstLine(s[1..], i - 1) by {
            forall j | 0 <= j < i - 1 ensures !IsLineTerminator(s[1..][j]) {
              assert s[1..][j] == s[j + 1];
            }
          }
        }
      }
      r
  }

  /** `/^(?=.*[a-z])(?=.*[A-Z])(?=.*\d)/.test(s)`. */
  function MatchesStrengthPattern(s: string): (r: bool)
    ensures r <==> OccursOnFirstLine(s, Lower) && OccursOnFirstLine(s, Upper) && OccursOnFirstLine(s, Digit)
  {
    Lookahead(s, Lower) && Lookahead(s, Upper) && Lookahead(s, Digit)
  }

  /**
   * The password policy: at least 8 characters, and a lower-case letter, an
   * upper-case letter and a digit, each before the first line terminator.
   */
  ghost predicate StrongPassword(s: string)
  {
    |s| >= 8 && OccursOnFirstLine(s, Lower) && OccursOnFirstLine(s, Upper) && OccursOnFirstLine(s, Digit)
  }

  /**
   * The lookaheads stop at the first line break: whatever follows it neither
   * helps nor hurts, so a password is judged by its first line alone.
   */
  lemma OnlyFirstLineCounts(pre: string, c: char, post: string, k: CharClass)
    requires forall i :: 0 <= i < |pre| ==> !IsLineTerminator(pre[i])
    requires IsLineTerminator(c)
    ensures OccursOnFirstLine(pre + [c] + post, k) <==> OccursOnFirstLine(pre, k)
  {
    var s := pre + [c] + post;
    if OccursOnFirstLine(pre, k) {
      var i :| 0 <= i < |pre| && InClass(pre[i], k) && OnFirstLine(pre, i);
      assert s[i] == pre[i];
      assert OnFirstLine(s, i) by {
        forall j | 0 <= j < i ensures !IsLineTerminator(s[j]) {
          assert s[j] == pre[j];
        }
      }
    }
    if OccursOnFirstLine(s, k) {
      var i :| 0 <= i < |s| && InClass(s[i], k) && OnFirstLine(s, i);
      assert s[|pre|] == c;
      assert i < |pre|;
      assert s[i] == pre[i];
      assert OnFirstLine(pre, i) by {
        forall j | 0 <= j < i ensures !IsLineTerminator(pre[j]) {
          assert s[j] == pre[j];
        }
      }
    }
  }

  // ---------------------------------------------------------------------------
  // Trimming
  // ---------------------------------------------------------------------------

  /** The white-space class `\s` that the trim sanitizer strips. */
  predicate IsSpace(c: char)
  {
    || c == '\t' || c == '\n' || c == '\U{000B}' || c == '\U{000C}' || c == '\r' || c == ' '
    || c == '\U{00A0}' || c == '\U{1680}' || ('\U{2000}' <= c <= '\U{200A}')
    || c == '\U{2028}' || c == '\U{2029}' || c == '\U{202F}' || c == '\U{205F}'
    || c == '\U{3000}' || c == '\U{FEFF}'
  }

  /** The number of leading white-space characters. */
  function LeadingSpaces(s: string): (n: nat)
    ensures n <= |s|
    ensures forall i :: 0 <= i < n ==> IsSpace(s[i])
    ensures n < |s| ==> !IsSpace(s[n])
  {
    if |s| > 0 && IsSpace(s[0]) then
      var n := LeadingSpaces(s[1..]);
      assert forall i :: 1 <= i < n + 1 ==> s[i] == s[1..][i - 1];
      n + 1
    else 0
  }

  /** The length of `s` without its trailing white space. */
  function WithoutTrailingSpaces(s: string): (n: nat)
    ensures n <= |s|
    ensures forall i :: n <= i < |s| ==> IsSpace(s[i])
    ensures n > 0 ==> !IsSpace(s[n - 1])
  {
    if |s| > 0 && IsSpace(s[|s| - 1]) then
      var n := WithoutTrailingSpaces(s[..|s| - 1]);
      assert forall i :: n <= i < |s| - 1 ==> s[i] == s[..|s| - 1][i];
      n
    else |s|
  }

  /**
   * `r` is the slice of `s` starting at `a`, and everything of `s` outside
   * that slice is white space.
   */
  ghost predicate CutAt(s: string, r: string, a: int)
  {
    && 0 <= a <= |s| - |r| && r == s[a..a + |r|]
    && (forall i :: 0 <= i < a ==> IsSpace(s[i]))
    && (forall i :: a + |r| <= i < |s| ==> IsSpace(s[i]))
  }

  /** Neither the first nor the last character is white space. */
  ghost predicate Unpadded(s: string)
  {
    |s| > 0 ==> !IsSpace(s[0]) && !IsSpace(s[|s| - 1])
  }

  /**
   * `trim()`: the slice of `s` that neither starts nor ends with white space,
   * everything cut off on either side being white space.
   */
  function Trim(s: string): (r: string)
    ensures exists a :: CutAt(s, r, a)
    ensures Unpadded(r)
  {
    var a := LeadingSpaces(s);
    var rest := s[a..];
    var n := WithoutTrailingSpaces(rest);
    var r := rest[..n];
    assert r == s[a..a + n];
    assert forall i :: a + n <= i < |s| ==> s[i] == rest[i - a];
    assert CutAt(s, r, a);
    r
  }

  /** Only one slice of a string is unpadded and has only white space around it. */
  lemma CutIsUnique(s: string, r1: string, a1: int, r2: string, a2: int)
    requires CutAt(s, r1, a1) && Unpadded(r1)
    requires CutAt(s, r2, a2) && Unpadded(r2)
    ensures r1 == r2
  {
    if |r1| > 0 && |r2| > 0 {
      assert s[a1] == r1[0] && s[a2] == r2[0];
      assert a1 == a2;
      assert s[a1 + |r1| - 1] == r1[|r1| - 1] && s[a2 + |r2| - 1] == r2[|r2| - 1];
      assert |r1| == |r2|;
    }
  }

  /** Any unpadded slice with only white space around it is the trim. */
  lemma TrimIsTheCut(s: string, r: string, a: int)
    requires CutAt(s, r, a) && Unpadded(r)
    ensures Trim(s) == r
  {
    var a' :| CutAt(s, Trim(s), a');
    CutIsUnique(s, Trim(s), a', r, a);
  }

  /** A string that begins and ends with a non-space character is its own trim. */
  lemma TrimOfTrimmed(s: string)
    requires Unpadded(s)
    ensures Trim(s) == s
  {
    assert CutAt(s, s, 0);
    TrimIsTheCut(s, s, 0);
  }

  /** Trimming is idempotent. */
  lemma TrimIdempotent(s: string)
    ensures Trim(Trim(s)) == Trim(s)
  {
    TrimOfTrimmed(Trim(s));
  }

  /** White space added around a string does not change its trim. */
  lemma TrimIgnoresPadding(s: string, pre: string, post: string)
    requires forall i :: 0 <= i < |pre| ==> IsSpace(pre[i])
    requires forall i :: 0 <= i < |post| ==> IsSpace(post[i])
    ensures Trim(pre + s + post) == Trim(s)
  {
    var r := Trim(s);
    var a :| CutAt(s, r, a);
    var w := pre + s + post;
    assert forall i :: 0 <= i < |s| ==> w[|pre| + i] == s[i];
    assert r == w[|pre| + a..|pre| + a + |r|];
    assert forall i :: 0 <= i < |pre| ==> w[i] == pre[i];
    assert forall i :: |pre| + |s| <= i < |w| ==> w[i] == post[i - |pre| - |s|];
    assert CutAt(w, r, |pre| + a);
    TrimIsTheCut(w, r, |pre| + a);
  }

  // ---------------------------------------------------------------------------
  // Field rules and chains
  // ---------------------------------------------------------------------------

  /** One entry of `validationResult(req)`: the field path and the message. */
  datatype ValidationError = ValidationError(path: string, msg: string)

  const EMAIL_MSG := "Please provide a valid email"
  const PASSWORD_LENGTH_MSG := "Password must be at least 8 characters long"
  const PASSWORD_PATTERN_MSG := "Password must contain at least one uppercase letter, one lowercase letter, and one number"
  const FULL_NAME_MSG := "Full name must be between 2 and 100 characters"
  const ROLE_MSG := "Role must be one of: admin, planner, vendor"
  const PHONE_MSG := "Please provide a valid phone number"
  const PICTURE_MSG := "Profile picture must be a valid URL"
  const PASSWORD_REQUIRED_MSG := "Password is required"
  const TOKEN_REQUIRED_MSG := "Reset token is required"
  const CURRENT_PASSWORD_REQUIRED_MSG := "Current password is required"
  const REFRESH_REQUIRED_MSG := "Refresh token is required"

  /**
   * The checks the validation library defines itself (e-mail syntax, the
   * phone-number pattern, URL syntax), taken as given predicates.
   */
  datatype Library = Library(isEmail: string -> bool, isPhone: string -> bool, isUrl: string -> bool)

  /** The text a rule sees: an absent field reads as the empty string. */
  function Text(f: Option<string>): string
  {
    f.GetOr("")
  }

  /** A field that is not optional and must satisfy `ok`, one message on failure. */
  function Required(path: string, f: Option<string>, ok: string -> bool, msg: string): (errs: seq<ValidationError>)
    ensures errs == [] <==> ok(Text(f))
    ensures errs != [] ==> errs == [ValidationError(path, msg)]
  {
    if ok(Text(f)) then [] else [ValidationError(path, msg)]
  }

  /** An `.optional()` field: skipped when absent, otherwise it must satisfy `ok`. */
  function Optional(path: string, f: Option<string>, ok: string -> bool, msg: string): (errs: seq<ValidationError>)
    ensures errs == [] <==> f.None? || ok(f.value)
    ensures errs != [] ==> errs == [ValidationError(path, msg)]
  {
    match f
    case None => []
    case Some(v) => if ok(v) then [] else [ValidationError(path, msg)]
  }

  /**
   * The messages of the password rule: the length check and the pattern check
   * run one after the other, each adding its own message when it fails.
   */
  function PasswordMessages(s: string): (ms: seq<string>)
    ensures ms == [] <==> StrongPassword(s)
    ensures PASSWORD_LENGTH_MSG in ms <==> |s| < 8
    ensures PASSWORD_PATTERN_MSG in ms <==>
              !(OccursOnFirstLine(s, Lower) && OccursOnFirstLine(s, Upper) && OccursOnFirstLine(s, Digit))
    ensures forall i :: 0 <= i < |ms| ==> ms[i] == PASSWORD_LENGTH_MSG || ms[i] == PASSWORD_PATTERN_MSG
    ensures forall i, j :: 0 <= i < j < |ms| ==> ms[i] != ms[j]
    ensures |s| < 8 ==> ms[0] == PASSWORD_LENGTH_MSG
  {
    assert PASSWORD_LENGTH_MSG != PASSWORD_PATTERN_MSG by {
      assert |PASSWORD_LENGTH_MSG| < |PASSWORD_PATTERN_MSG|;
    }
    (if |s| < 8 then [PASSWORD_LENGTH_MSG] else [])
    + (if MatchesStrengthPattern(s) then [] else [PASSWORD_PATTERN_MSG])
  }

  /** Messages reported against one field path, in order. */
  function AtPath(path: string, ms: seq<string>): (errs: seq<ValidationError>)
    ensures |errs| == |ms|
    ensures forall i :: 0 <= i < |ms| ==> errs[i] == ValidationError(path, ms[i])
  {
    seq(|ms|, i requires 0 <= i < |ms| => ValidationError(path, ms[i]))
  }

  /** The password rule applied to the field at `path`. */
  function PasswordRule(path: string, f: Option<string>): (errs: seq<ValidationError>)
    ensures errs == [] <==> StrongPassword(Text(f))
    ensures forall i :: 0 <= i < |errs| ==> errs[i].path == path
  {
    AtPath(path, PasswordMessages(Text(f)))
  }

  /** The full-name rule: trimmed length between 2 and 100 inclusive. */
  function FullNameRule(f: Option<string>): (errs: seq<ValidationError>)
    ensures errs == [] <==> 2 <= |Trim(Text(f))| <= 100
    ensures errs != [] ==> errs == [ValidationError("fullName", FULL_NAME_MSG)]
  {
    var n := |Trim(Text(f))|;
    if 2 <= n <= 100 then [] else [ValidationError("fullName", FULL_NAME_MSG)]
  }

  /** Surrounding white space never changes whether a full name is accepted. */
  lemma FullNameIgnoresPadding(name: string, pre: string, post: string)
    requires forall i :: 0 <= i < |pre| ==> IsSpace(pre[i])
    requires forall i :: 0 <= i < |post| ==> IsSpace(post[i])
    ensures FullNameRule(Some(pre + name + post)) == FullNameRule(Some(name))
  {
    TrimIgnoresPadding(name, pre, post);
  }

  /** The optional role rule: absent, or one of the role values. */
  function RoleRule(f: Option<string>): (errs: seq<ValidationError>)
    ensures errs == [] <==> f.None? || f.value in {ADMIN, PLANNER, VENDOR}
  {
    Optional("role", f, IsRole, ROLE_MSG)
  }

  /** A `notEmpty()` rule: present with at least one character, no other requirement. */
  function NonEmptyRule(path: string, f: Option<string>, msg: string): (errs: seq<ValidationError>)
    ensures errs == [] <==> f.Some? && |f.value| > 0
    ensures errs != [] ==> errs == [ValidationError(path, msg)]
  {
    Required(path, f, s => |s| > 0, msg)
  }

  /** The body fields the signup chain looks at. */
  datatype SignupBody = SignupBody(
    email: Option<string>, password: Option<string>, fullName: Option<string>,
    role: Option<string>, phoneNumber: Option<string>, profilePicture: Option<string>)

  /** `signupValidation`: every rule in order, all their errors collected. */
  function SignupErrors(b: SignupBody, lib: Library): (errs: seq<ValidationError>)
    ensures errs == [] <==>
              && lib.isEmail(Text(b.email))
              && StrongPassword(Text(b.password))
              && 2 <= |Trim(Text(b.fullName))| <= 100
              && (b.role.None? || IsRole(b.role.value))
              && (b.phoneNumber.None? || lib.isPhone(b.phoneNumber.value))
              && (b.profilePicture.None? || lib.isUrl(b.profilePicture.value))
  {
    Required("email", b.email, lib.isEmail, EMAIL_MSG)
    + PasswordRule("password", b.password)
    + FullNameRule(b.fullName)
    + RoleRule(b.role)
    + Optional("phoneNumber", b.phoneNumber, lib.isPhone, PHONE_MSG)
    + Optional("profilePicture", b.profilePicture, lib.isUrl, PICTURE_MSG)
  }

  /** `loginValidation`: a valid e-mail and a non-empty password, with no strength rule. */
  function LoginErrors(email: Option<string>, password: Option<string>, lib: Library): (errs: seq<ValidationError>)
    ensures errs == [] <==> lib.isEmail(Text(email)) && password.Some? && |password.value| > 0
  {
    Required("email", email, lib.isEmail, EMAIL_MSG) + NonEmptyRule("password", password, PASSWORD_REQUIRED_MSG)
  }

  /** `resetPasswordRequestValidation`: a valid e-mail. */
  function ResetRequestErrors(email: Option<string>, lib: Library): (errs: seq<ValidationError>)
    ensures errs == [] <==> lib.isEmail(Text(email))
  {
    Required("email", email, lib.isEmail, EMAIL_MSG)
  }

  /** `resetPasswordValidation`: a non-empty token and a strong new password. */
  function ResetPasswordErrors(token: Option<string>, newPassword: Option<string>): (errs: seq<ValidationError>)
    ensures errs == [] <==> token.Some? && |token.value| > 0 && StrongPassword(Text(newPassword))
  {
    NonEmptyRule("token", token, TOKEN_REQUIRED_MSG) + PasswordRule("newPassword", newPassword)
  }

  /** `changePasswordValidation`: a non-empty current password and a strong new password. */
  function ChangePasswordErrors(currentPassword: Option<string>, newPassword: Option<string>): (errs: seq<ValidationError>)
    ensures errs == [] <==> currentPassword.Some? && |currentPassword.value| > 0 && StrongPassword(Text(newPassword))
  {
    NonEmptyRule("currentPassword", currentPassword, CURRENT_PASSWORD_REQUIRED_MSG)
    + PasswordRule("newPassword", newPassword)
  }

  /** `refreshTokenValidation`: a non-empty refresh token. */
  function RefreshTokenErrors(refreshToken: Option<string>): (errs: seq<ValidationError>)
    ensures errs == [] <==> refreshToken.Some? && |refreshToken.value| > 0
  {
    NonEmptyRule("refreshToken", refreshToken, REFRESH_REQUIRED_MSG)
  }

  /** The messages reported for one field path, in order. */
  function MessagesAt(errs: seq<ValidationError>, path: string): (ms: seq<string>)
    ensures |ms| <= |errs|
  {
    if |errs| == 0 then []
    else (if errs[0].path == path then [errs[0].msg] else []) + MessagesAt(errs[1..], path)
  }

  lemma {:induction false} MessagesAtAppend(a: seq<ValidationError>, b: seq<ValidationError>, path: string)
    ensures MessagesAt(a + b, path) == MessagesAt(a, path) + MessagesAt(b, path)
    decreases |a|
  {
    if |a| == 0 {
      assert a + b == b;
    } else {
      assert (a + b)[1..] == a[1..] + b;
      MessagesAtAppend(a[1..], b, path);
    }
  }

  lemma {:induction false} MessagesAtOtherPath(errs: seq<ValidationError>, path: string)
    requires forall i :: 0 <= i < |errs| ==> errs[i].path != path
    ensures MessagesAt(errs, path) == []
    decreases |errs|
  {
    if |errs| > 0 {
      MessagesAtOtherPath(errs[1..], path);
    }
  }

  /** Only the second piece of a six-piece chain reports against `path`. */
  lemma MessagesAtChain(e: seq<ValidationError>, p: seq<ValidationError>, n: seq<ValidationError>,
                        r: seq<ValidationError>, ph: seq<ValidationError>, u: seq<ValidationError>, path: string)
    requires forall i :: 0 <= i < |e| ==> e[i].path != path
    requires forall i :: 0 <= i < |n| ==> n[i].path != path
    requires forall i :: 0 <= i < |r| ==> r[i].path != path
    requires forall i :: 0 <= i < |ph| ==> ph[i].path != path
    requires forall i :: 0 <= i < |u| ==> u[i].path != path
    ensures MessagesAt(e + p + n + r + ph + u, path) == MessagesAt(p, path)
  {
    MessagesAtOtherPath(e, path);
    MessagesAtOtherPath(n, path);
    MessagesAtOtherPath(r, path);
    MessagesAtOtherPath(ph, path);
    MessagesAtOtherPath(u, path);
    MessagesAtAppend(e, p, path);
    MessagesAtAppend(e + p, n, path);
    MessagesAtAppend(e + p + n, r, path);
    MessagesAtAppend(e + p + n + r, ph, path);
    MessagesAtAppend(e + p + n + r + ph, u, path);
  }

  lemma MessagesOfPasswordRule(path: string, f: Option<string>)
    ensures MessagesAt(PasswordRule(path, f), path) == PasswordMessages(Text(f))
  {

  }

  /** The reset chain reports, for `newPassword`, exactly the password-rule messages. */
  lemma ResetNewPasswordMessages(token: Option<string>, pw: Option<string>)
    ensures MessagesAt(ResetPasswordErrors(token, pw), "newPassword") == PasswordMessages(Text(pw))
  {
    var tokenPart := NonEmptyRule("token", token, TOKEN_REQUIRED_MSG);
    MessagesAtOtherPath(tokenPart, "newPassword");
    MessagesAtAppend(tokenPart, PasswordRule("newPassword", pw), "newPassword");
    MessagesOfPasswordRule("newPassword", pw);
  }

  /** The change chain reports, for `newPassword`, exactly the password-rule messages. */
  lemma ChangeNewPasswordMessages(current: Option<string>, pw: Option<string>)
    ensures MessagesAt(ChangePasswordErrors(current, pw), "newPassword") == PasswordMessages(Text(pw))
  {
    var currentPart := NonEmptyRule("currentPassword", current, CURRENT_PASSWORD_REQUIRED_MSG);
    MessagesAtOtherPath(currentPart, "newPassword");
    MessagesAtAppend(currentPart, PasswordRule("newPassword", pw), "newPassword");
    MessagesOfPasswordRule("newPassword", pw);
  }

  /** The signup chain reports, for `password`, exactly the password-rule messages. */
  lemma SignupPasswordMessages(b: SignupBody, lib: Library)
    ensures MessagesAt(SignupErrors(b, lib), "password") == PasswordMessages(Text(b.password))
  {
    var e := Required("email", b.email, lib.isEmail, EMAIL_MSG);
    var p := PasswordRule("password", b.password);
    var n := FullNameRule(b.fullName);
    var r := RoleRule(b.role);
    var ph := Optional("phoneNumber", b.phoneNumber, lib.isPhone, PHONE_MSG);
    var u := Optional("profilePicture", b.profilePicture, lib.isUrl, PICTURE_MSG);
    assert SignupErrors(b, lib) == e + p + n + r + ph + u;
    MessagesAtChain(e, p, n, r, ph, u, "password");
    MessagesOfPasswordRule("password", b.password);
  }

  /**
   * The new-password rules of the reset and change chains report exactly the
   * messages the signup chain reports for the same password.
   */
  lemma NewPasswordRuleIsSignupRule(pw: Option<string>, token: Option<string>, current: Option<string>,
                                    b: SignupBody, lib: Library)
    requires b.password == pw
    ensures MessagesAt(ResetPasswordErrors(token, pw), "newPassword") == MessagesAt(SignupErrors(b, lib), "password")
    ensures MessagesAt(ChangePasswordErrors(current, pw), "newPassword") == MessagesAt(SignupErrors(b, lib), "password")
  {
    ResetNewPasswordMessages(token, pw);
    ChangeNewPasswordMessages(current, pw);
    SignupPasswordMessages(b, lib);
  }

  // ---------------------------------------------------------------------------
  // The `validate` middleware
  // ---------------------------------------------------------------------------

  /** One entry of the 400 response body: `{ field, message }`. */
  datatype ErrorEntry = ErrorEntry(field: string, message: string)

  /** What `validate` does: call `next`, or answer with a status and error entries. */
  datatype Response = Next | Respond(status: int, errors: seq<ErrorEntry>)

  /**
   * `validate`: no errors means `next()`; otherwise a 400 whose entries are the
   * errors in order, `field` taken from the path and `message` from the msg.
   */
  function Validate(errs: seq<ValidationError>): (r: Response)
    ensures r.Next? <==> |errs| == 0
    ensures r.Respond? ==> r.status == 400 && |r.errors| == |errs|
    ensures r.Respond? ==> forall i :: 0 <= i < |errs| ==>
                             r.errors[i].field == errs[i].path && r.errors[i].message == errs[i].msg
  {
    if |errs| == 0 then Next
    else Respond(400, seq(|errs|, i requires 0 <= i < |errs| => ErrorEntry(errs[i].path, errs[i].msg)))
  }

  /** The validation errors a response reports, read back from its entries. */
  function ReportedErrors(r: Response): (errs: seq<ValidationError>)
    ensures r.Next? ==> errs == []
  {
    match r
    case Next => []
    case Respond(_, entries) =>
      seq(|entries|, i requires 0 <= i < |entries| => ValidationError(entries[i].field, entries[i].message))
  }

  /** The response loses nothing: the errors can be read back from it, in order. */
  lemma ValidateRoundTrip(errs: seq<ValidationError>)
    ensures ReportedErrors(Validate(errs)) == errs
  {
  }
}
