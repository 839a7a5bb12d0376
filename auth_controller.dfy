/** The account handlers. Each runs a fixed sequence of guards, each guard
    with its own status code, and only the last step touches the user table,
    the refresh-token cookie or the mail transport. */
module AuthController {

  import opened Common
  import opened Validation
  import opened Credentials
  import opened Users
  import opened Tasks
  import opened Sessions

  /** What an account handler sends: status and message, what it does to the
      `refreshToken` cookie, the access token in the body, and the mail it
      hands to the transport. */
  datatype AuthReply = AuthReply(status: int, text: string, cookie: Cookie, accessToken: Option<Token>, mail: Option<Mail>)

  /** A reply that only carries a status and a message. */
  function Plain(status: int, text: string): AuthReply {
    AuthReply(status, text, Untouched, None, None)
  }

  const ProvideCredentialsText: string := "Please provide an email and password"
  const WeakPasswordText: string :=
    "Password must be at least 10 characters, contain one uppercase letter, one lowercase letter, one number, and one special character"
  const EmailTakenText: string := "Email id already registerd"
  const SignedUpText: string := "New user created successfully, please verify your email to login"
  const ServerErrorText: string := "Server error"
  const BadCredentialsText: string := "Invalid email or password"
  const UnverifiedLoginText: string := "Please verify your email before logging in"
  const MissingEmailTokenText: string := "Missing email verification token"
  const NoUserText: string := "User doesn't exist"
  const VerifiedText: string := "Successful user verification"
  const BadRefreshTokenText: string := "Invalid or expired refresh token"
  const ForgotUnknownText: string := "If that email is registered, you'll receive a password reset link"
  const ForgotKnownText: string := "If that email is registerd, you'll receive an email"

  /** A registered user whose stored hash matches `password`. */
  predicate Matches(users: map<UserId, User>, crypto: Crypto, email: string, password: string) {
    exists k :: k in users && users[k].email == email && crypto.compare(password, users[k].password)
  }

  /** `POST /auth/signup`. The guards reject missing fields, a weak password
      and a registered email, in that order, without touching the table.
      Once they pass, the unverified user is created; the handler then reads
      `newUser.email`, a name it never declared, and the ReferenceError ends
      in the 500 reply: no verification mail is sent. */
  method Signup(users: UserTable, crypto: Crypto, email: Option<string>, password: Option<string>)
    returns (r: AuthReply)
    requires users.Valid()
    modifies users
    ensures users.Valid()
    ensures !Truthy(email) || !Truthy(password) ==>
      r == Plain(400, ProvideCredentialsText) && users.rows == old(users.rows)
    ensures Truthy(email) && Truthy(password) && !IsValidPassword(password.value) ==>
      r == Plain(400, WeakPasswordText) && users.rows == old(users.rows)
    ensures Truthy(email) && Truthy(password) && IsValidPassword(password.value)
            && old(users.FindByEmail(email.value)).Some? ==>
      r == Plain(400, EmailTakenText) && users.rows == old(users.rows)
    ensures Truthy(email) && Truthy(password) && IsValidPassword(password.value)
            && old(users.FindByEmail(email.value)).None? ==>
      && r == Plain(500, ServerErrorText)
      && var u := User(old(users.nextId), email.value, crypto.hash(password.value, BcryptCost), false, DefaultTimer);
      && u.id !in old(users.rows) && users.rows == old(users.rows)[u.id := u]
  {
    if !Truthy(email) || !Truthy(password) {
      return Plain(400, ProvideCredentialsText);
    }
    if !IsValidPassword(password.value) {
      return Plain(400, WeakPasswordText);
    }
    var userExists := users.FindByEmail(email.value);
    if userExists.Some? {
      return Plain(400, EmailTakenText);
    }
    var hashedPassword := crypto.hash(password.value, BcryptCost);
    var user := users.Create(email.value, hashedPassword);
    // The email token is signed here, but the mail is addressed to the
    // undeclared `newUser`: the handler throws before sending it.
    r := Plain(500, ServerErrorText);
  }

  /** `POST /auth/login`. An unknown email and a wrong password get the same
      reply; only a verified user with a matching password gets tokens. The
      table is only read. */
  method Login(users: UserTable, crypto: Crypto, email: Option<string>, password: Option<string>)
    returns (r: AuthReply)
    requires users.Valid()
    ensures !Truthy(email) || !Truthy(password) ==> r == Plain(400, ProvideCredentialsText)
    ensures Truthy(email) && Truthy(password) && !Matches(users.rows, crypto, email.value, password.value) ==>
      r == Plain(400, BadCredentialsText)
    ensures Truthy(email) && Truthy(password) && Matches(users.rows, crypto, email.value, password.value) ==>
      var u := users.FindByEmail(email.value).value;
      && (!u.verified ==> r == Plain(403, UnverifiedLoginText))
      && (u.verified ==>
            r == AuthReply(200, "Successful login", RefreshCookie(u.id), Some(Token(AccessKind, u.id, AccessLifetime)), None))
    ensures r.status == 200 <==>
      Truthy(email) && Truthy(password) && Matches(users.rows, crypto, email.value, password.value)
      && users.FindByEmail(email.value).value.verified
  {
    if !Truthy(email) || !Truthy(password) {
      return Plain(400, ProvideCredentialsText);
    }
    var user := users.FindByEmail(email.value);
    if user.None? {
      return Plain(400, BadCredentialsText);
    }
    var isMatch := crypto.compare(password.value, user.value.password);
    if !isMatch {
      return Plain(400, BadCredentialsText);
    }
    if !user.value.verified {
      return Plain(403, UnverifiedLoginText);
    }
    var accessToken := Token(AccessKind, user.value.id, AccessLifetime);
    r := AuthReply(200, "Successful login", RefreshCookie(user.value.id), Some(accessToken), None);
  }

  /** `GET /auth/verify-email?token=…`: marks the token's user as verified
      and changes nothing else. */
  method VerifyEmail(users: UserTable, crypto: Crypto, token: Option<string>) returns (r: AuthReply)
    requires users.Valid()
    modifies users
    ensures users.Valid()
    ensures !Truthy(token) ==> r == Plain(400, MissingEmailTokenText) && users.rows == old(users.rows)
    ensures Truthy(token) && crypto.verify(EmailKind, token.value).None? ==>
      r == Plain(401, "Invalid or expired email verification token") && users.rows == old(users.rows)
    ensures Truthy(token) && crypto.verify(EmailKind, token.value).Some? ==>
      var id := crypto.verify(EmailKind, token.value).value;
      && (id !in old(users.rows) ==> r == Plain(404, NoUserText) && users.rows == old(users.rows))
      && (id in old(users.rows) ==>
            r == Plain(200, VerifiedText) && users.rows == old(users.rows)[id := old(users.rows)[id].(verified := true)])
  {
    if !Truthy(token) {
      return Plain(400, MissingEmailTokenText);
    }
    var decoded := crypto.verify(EmailKind, token.value);
    if decoded.None? {
      return Plain(401, "Invalid or expired email verification token");
    }
    var user := users.SetVerified(decoded.value);
    if user.None? {
      return Plain(404, NoUserText);
    }
    r := Plain(200, VerifiedText);
  }

  /** Verifying twice with the same link: both succeed, and the second one
      leaves the table as the first one left it. */
  method VerifyTwice(users: UserTable, crypto: Crypto, token: string) returns (r1: AuthReply, r2: AuthReply)
    requires users.Valid() && token != ""
    requires crypto.verify(EmailKind, token).Some? && crypto.verify(EmailKind, token).value in users.rows
    modifies users
    ensures var id := crypto.verify(EmailKind, token).value;
      && r1 == r2 == Plain(200, VerifiedText)
      && users.rows == old(users.rows)[id := old(users.rows)[id].(verified := true)]
  {
    r1 := VerifyEmail(users, crypto, Some(token));
    r2 := VerifyEmail(users, crypto, Some(token));
  }

  /** `POST /auth/resend-verification`: a fresh 10-minute link for a
      registered, unverified user. The table is only read. */
  method ResendVerification(users: UserTable, email: Option<string>) returns (r: AuthReply)
    requires users.Valid()
    ensures !Truthy(email) ==> r == Plain(400, "Please provide an email to send the verification url")
    ensures Truthy(email) && users.FindByEmail(email.value).None? ==> r == Plain(404, NoUserText)
    ensures Truthy(email) && users.FindByEmail(email.value).Some? ==>
      var u := users.FindByEmail(email.value).value;
      && (u.verified ==> r == Plain(400, "Email is already verified"))
      && (!u.verified ==>
            r == AuthReply(200, "Verification email resent", Untouched, None,
                           Some(Mail(u.email, VerifyEmailLink, Token(EmailKind, u.id, EmailLifetime)))))
    ensures r.mail.Some? ==> r.mail.value.to == email.value && r.mail.value.token.kind == EmailKind
  {
    if !Truthy(email) {
      return Plain(400, "Please provide an email to send the verification url");
    }
    var user := users.FindByEmail(email.value);
    if user.None? {
      return Plain(404, NoUserText);
    }
    if user.value.verified {
      return Plain(400, "Email is already verified");
    }
    var emailToken := Token(EmailKind, user.value.id, EmailLifetime);
    r := AuthReply(200, "Verification email resent", Untouched, None, Some(Mail(user.value.email, VerifyEmailLink, emailToken)));
  }

  /** The token rotation both refresh handlers share, with the lifetime of
      the access token they issue: a valid refresh cookie of a verified user
      buys a new access token and a new 30-day refresh cookie; an unverified
      user loses the cookie. The table is only read. */
  method RotateTokens(users: UserTable, crypto: Crypto, cookie: Option<string>, accessLifetime: nat)
    returns (r: AuthReply)
    requires users.Valid()
    ensures !Truthy(cookie) ==> r == Plain(404, "No refresh token available")
    ensures Truthy(cookie) && crypto.verify(RefreshKind, cookie.value).None? ==> r == Plain(401, BadRefreshTokenText)
    ensures Truthy(cookie) && crypto.verify(RefreshKind, cookie.value).Some? ==>
      var id := crypto.verify(RefreshKind, cookie.value).value;
      && (id !in users.rows ==> r == Plain(404, NoUserText))
      && (id in users.rows && !users.rows[id].verified ==>
            r == AuthReply(403, "Email verification required", Cleared, None, None))
      && (id in users.rows && users.rows[id].verified ==>
            r == AuthReply(200, "Tokens refreshed", RefreshCookie(id), Some(Token(AccessKind, id, accessLifetime)), None))
    ensures r.accessToken.Some? ==> r.cookie == RefreshCookie(r.accessToken.value.userID)
  {
    if !Truthy(cookie) {
      return Plain(404, "No refresh token available");
    }
    var decoded := crypto.verify(RefreshKind, cookie.value);
    if decoded.None? {
      return Plain(401, BadRefreshTokenText);
    }
    var user := users.FindById(decoded.value);
    if user.None? {
      return Plain(404, NoUserText);
    }
    if !user.value.verified {
      return AuthReply(403, "Email verification required", Cleared, None, None);
    }
    var newAccessToken := Token(AccessKind, user.value.id, accessLifetime);
    r := AuthReply(200, "Tokens refreshed", RefreshCookie(user.value.id), Some(newAccessToken), None);
  }

  /** `POST /auth/refresh`: the access token it issues lives 59 minutes,
      not the 15 minutes of a login. */
  method Refresh(users: UserTable, crypto: Crypto, cookie: Option<string>) returns (r: AuthReply)
    requires users.Valid()
    ensures r.status == 200 <==>
      && Truthy(cookie) && crypto.verify(RefreshKind, cookie.value).Some?
      && crypto.verify(RefreshKind, cookie.value).value in users.rows
      && users.rows[crypto.verify(RefreshKind, cookie.value).value].verified
    ensures r.status == 200 ==>
      r.accessToken == Some(Token(AccessKind, crypto.verify(RefreshKind, cookie.value).value, 59 * 60))
    ensures r.status != 200 ==> r.accessToken.None?
  {
    r := RotateTokens(users, crypto, cookie, RefreshedAccessLifetime);
  }

  /** `POST /auth/forgot-password`: 200 whether or not the email is
      registered, but with a different message in each case; only a
      registered user is sent a 10-minute reset link. */
  method ForgotPassword(users: UserTable, email: Option<string>) returns (r: AuthReply)
    requires users.Valid()
    ensures !Truthy(email) ==> r == Plain(404, "Email missing")
    ensures Truthy(email) && users.FindByEmail(email.value).None? ==> r == Plain(200, ForgotUnknownText)
    ensures Truthy(email) && users.FindByEmail(email.value).Some? ==>
      var u := users.FindByEmail(email.value).value;
      r == AuthReply(200, ForgotKnownText, Untouched, None, Some(Mail(u.email, ResetPasswordLink, Token(ResetKind, u.id, ResetLifetime))))
    ensures Truthy(email) ==> r.status == 200
  {
    if !Truthy(email) {
      return Plain(404, "Email missing");
    }
    var user := users.FindByEmail(email.value);
    if user.None? {
      return Plain(200, ForgotUnknownText);
    }
    var resetToken := Token(ResetKind, user.value.id, ResetLifetime);
    r := AuthReply(200, ForgotKnownText, Untouched, None, Some(Mail(user.value.email, ResetPasswordLink, resetToken)));
  }

  /** `forgotPassword` asked about a registered and an unregistered email
      answers both with 200 but with different messages, so the reply tells
      which of the two has an account. */
  method ForgotPasswordRevealsRegistration(users: UserTable, known: string, unknown: string)
    returns (a: AuthReply, b: AuthReply)
    requires users.Valid() && known != "" && unknown != ""
    requires users.FindByEmail(known).Some? && users.FindByEmail(unknown).None?
    ensures a.status == 200 && b.status == 200 && a.text != b.text
  {
    a := ForgotPassword(users, Some(known));
    b := ForgotPassword(users, Some(unknown));
    assert a.text == ForgotKnownText && b.text == ForgotUnknownText;
    assert ForgotKnownText[25] == 'd' && ForgotUnknownText[25] == 'e';
  }

  /** The reply `forgotPassword` evidently means to give: the same status and
      message for every non-empty email, registered or not, and the reset
      link only to a registered one. */
  method ForgotPasswordUniform(users: UserTable, email: Option<string>) returns (r: AuthReply)
    requires users.Valid()
    ensures !Truthy(email) ==> r == Plain(404, "Email missing")
    ensures Truthy(email) ==> r.status == 200 && r.text == ForgotUnknownText && r.cookie == Untouched
    ensures Truthy(email) ==>
      (r.mail.Some? <==> users.FindByEmail(email.value).Some?)
    ensures r.mail.Some? ==>
      r.mail.value == Mail(email.value, ResetPasswordLink, Token(ResetKind, users.FindByEmail(email.value).value.id, ResetLifetime))
  {
    if !Truthy(email) {
      return Plain(404, "Email missing");
    }
    var user := users.FindByEmail(email.value);
    if user.None? {
      return Plain(200, ForgotUnknownText);
    }
    var resetToken := Token(ResetKind, user.value.id, ResetLifetime);
    r := AuthReply(200, ForgotUnknownText, Untouched, None, Some(Mail(user.value.email, ResetPasswordLink, resetToken)));
  }

  /** `POST /auth/reset-password`: the password strength is checked before
      the token; a valid token replaces that user's hash and nothing else. */
  method ResetPassword(users: UserTable, crypto: Crypto, token: Option<string>, newPassword: Option<string>)
    returns (r: AuthReply)
    requires users.Valid()
    modifies users
    ensures users.Valid()
    ensures !Truthy(token) || !Truthy(newPassword) ==>
      r == Plain(400, "Token and new password are required") && users.rows == old(users.rows)
    ensures Truthy(token) && Truthy(newPassword) && !IsValidPassword(newPassword.value) ==>
      r == Plain(400, WeakPasswordText) && users.rows == old(users.rows)
    ensures Truthy(token) && Truthy(newPassword) && IsValidPassword(newPassword.value)
            && crypto.verify(ResetKind, token.value).None? ==>
      r == Plain(401, "Invalid or expired reset token") && users.rows == old(users.rows)
    ensures Truthy(token) && Truthy(newPassword) && IsValidPassword(newPassword.value)
            && crypto.verify(ResetKind, token.value).Some? ==>
      var id := crypto.verify(ResetKind, token.value).value;
      && (id !in old(users.rows) ==> r == Plain(404, "User not found") && users.rows == old(users.rows))
      && (id in old(users.rows) ==>
            && r == Plain(200, "Password reset successfully")
            && users.rows == old(users.rows)[id := old(users.rows)[id].(password := crypto.hash(newPassword.value, BcryptCost))])
  {
    if !Truthy(token) || !Truthy(newPassword) {
      return Plain(400, "Token and new password are required");
    }
    if !IsValidPassword(newPassword.value) {
      return Plain(400, WeakPasswordText);
    }
    var decoded := crypto.verify(ResetKind, token.value);
    if decoded.None? {
      return Plain(401, "Invalid or expired reset token");
    }
    var hashedPassword := crypto.hash(newPassword.value, BcryptCost);
    var user := users.SetPassword(decoded.value, hashedPassword);
    if user.None? {
      return Plain(404, "User not found");
    }
    r := Plain(200, "Password reset successfully");
  }

  /** `POST /auth/change-password` for the authenticated caller. A caller
      whose account is gone, or a request without a current password, makes
      the handler throw and answer 500. A wrong current password is then
      refused with 400, before the new one is looked at; a missing new
      password makes the strength check throw (500), and a weak one is
      refused with 400. */
  method ChangePassword(users: UserTable, crypto: Crypto, caller: UserId,
                        currentPassword: Option<string>, newPassword: Option<string>)
    returns (r: AuthReply)
    requires users.Valid()
    modifies users
    ensures users.Valid()
    ensures caller !in old(users.rows) || currentPassword.None? ==>
      r == Plain(500, ServerErrorText) && users.rows == old(users.rows)
    ensures caller in old(users.rows) && currentPassword.Some?
            && !crypto.compare(currentPassword.value, old(users.rows)[caller].password) ==>
      r == Plain(400, "Passwords do not match") && users.rows == old(users.rows)
    ensures caller in old(users.rows) && currentPassword.Some?
            && crypto.compare(currentPassword.value, old(users.rows)[caller].password) ==>
      && (newPassword.None? ==> r == Plain(500, ServerErrorText) && users.rows == old(users.rows))
      && (newPassword.Some? && !IsValidPassword(newPassword.value) ==>
            r == Plain(400, WeakPasswordText) && users.rows == old(users.rows))
      && (newPassword.Some? && IsValidPassword(newPassword.value) ==>
            && r == AuthReply(200, "Successful password change", Cleared, None, None)
            && users.rows == old(users.rows)[caller := old(users.rows)[caller].(password := crypto.hash(newPassword.value, BcryptCost))])
  {
    var user := users.FindById(caller);
    if user.None? || currentPassword.None? {
      // `user.password` of a missing user, or `bcrypt.compare(undefined, …)`, throws.
      return Plain(500, ServerErrorText);
    }
    var isMatch := crypto.compare(currentPassword.value, user.value.password);
    if !isMatch {
      return Plain(400, "Passwords do not match");
    }
    if newPassword.None? {
      // `isValidPassword(undefined)` reads `undefined.length` and throws.
      return Plain(500, ServerErrorText);
    }
    if !IsValidPassword(newPassword.value) {
      return Plain(400, WeakPasswordText);
    }
    var hashedPassword := crypto.hash(newPassword.value, BcryptCost);
    var updated := users.SetPassword(caller, hashedPassword);
    r := AuthReply(200, "Successful password change", Cleared, None, None);
  }

  /** `DELETE /auth/delete-account`: removes the caller's User document, if
      there is one, and nothing else: the caller's tasks and sessions stay. */
  method DeleteAccount(users: UserTable, tasks: TaskTable, sessions: SessionTable, caller: UserId)
    returns (r: AuthReply)
    requires users.Valid()
    modifies users
    ensures users.Valid()
    ensures r == AuthReply(200, "Successful account deletion", Cleared, None, None)
    ensures users.rows == old(users.rows) - {caller}
    ensures tasks.rows == old(tasks.rows) && sessions.rows == old(sessions.rows)
  {
    var deleted := users.Remove(caller);
    r := AuthReply(200, "Successful account deletion", Cleared, None, None);
  }

  /** The account a failed signup leaves behind: the first attempt answers
      500 but creates the user, so a second attempt with the same email is
      refused as a duplicate, and the new user still cannot log in. */
  method SignupTwice(users: UserTable, crypto: Crypto, email: string, password: string)
    returns (r1: AuthReply, r2: AuthReply, r3: AuthReply)
    requires users.Valid() && users.FindByEmail(email).None?
    requires email != "" && IsValidPassword(password)
    modifies users
    ensures users.Valid()
    ensures r1 == Plain(500, ServerErrorText)
    ensures r2 == Plain(400, EmailTakenText)
    ensures r3.status != 200
    ensures users.FindByEmail(email).Some? && !users.FindByEmail(email).value.verified
  {
    assert password != "" by {
      assert Utf16Length(password) >= 10;
    }
    r1 := Signup(users, crypto, Some(email), Some(password));
    assert users.rows[old(users.nextId)].email == email;
    r2 := Signup(users, crypto, Some(email), Some(password));
    r3 := Login(users, crypto, Some(email), Some(password));
  }

  /** A refresh cookie issued before a password change still refreshes after
      it: changing the password clears the cookie of the client that asked,
      but revokes no token. */
  method RefreshSurvivesPasswordChange(users: UserTable, crypto: Crypto, caller: UserId,
                                       current: string, next: string, cookie: string)
    returns (changed: AuthReply, refreshed: AuthReply)
    requires users.Valid() && caller in users.rows && users.rows[caller].verified
    requires crypto.compare(current, users.rows[caller].password) && IsValidPassword(next)
    requires cookie != "" && crypto.verify(RefreshKind, cookie) == Some(caller)
    modifies users
    ensures changed.status == 200 && changed.cookie == Cleared
    ensures refreshed.status == 200 && refreshed.accessToken == Some(Token(AccessKind, caller, RefreshedAccessLifetime))
  {
    changed := ChangePassword(users, crypto, caller, Some(current), Some(next));
    refreshed := Refresh(users, crypto, Some(cookie));
  }
}
