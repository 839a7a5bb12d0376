/** The older router for the same accounts, as its code intends to run:
    with `User` the Mongoose model and the cookies parsed. Its login is the
    controller's (`AuthController.Login`); its signup is written to complete
    and mail the verification link; its email verification looks the user
    up before updating and words its 401 differently; its refresh issues
    15-minute access tokens. */
module LegacyAuth {

  import opened Common
  import opened Validation
  import opened Credentials
  import opened Users
  import opened AuthController

  /** `POST /signup`: the same guards as the controller's, and on success one
      new unverified user, a 10-minute verification link mailed to that user
      and a 200. */
  method Signup(users: UserTable, crypto: Crypto, email: Option<string>, password: Option<string>)
    returns (r: AuthReply)
    requires users.Valid()
    modifies users
    ensures users.Valid()
    ensures !Truthy(email) || !Truthy(password) ==>
      r == Plain(400, ProvideCredentialsText) && users.rows == old(users.rows)
    ensures Truthy(email) && Truthy(password) && !IsValidPassword(password.value) ==>
      r == Plain(400, WeakPasswordText) && users.rows == old(users.rows)
    ensures Truthy(email) && Truthy(password) && IsValidPassword(password.value)
            && old(users.FindByEmail(email.value)).Some? ==>
      r == Plain(400, EmailTakenText) && users.rows == old(users.rows)
    ensures Truthy(email) && Truthy(password) && IsValidPassword(password.value)
            && old(users.FindByEmail(email.value)).None? ==>
      var u := User(old(users.nextId), email.value, crypto.hash(password.value, BcryptCost), false, DefaultTimer);
      && u.id !in old(users.rows) && users.rows == old(users.rows)[u.id := u]
      && r == AuthReply(200, SignedUpText, Untouched, None, Some(Mail(email.value, VerifyEmailLink, Token(EmailKind, u.id, EmailLifetime))))
  {
    if !Truthy(email) || !Truthy(password) {
      return Plain(400, ProvideCredentialsText);
    }
    if !IsValidPassword(password.value) {
      return Plain(400, WeakPasswordText);
    }
    var userExists := users.FindByEmail(email.value);
    if userExists.Some? {
      return Plain(400, EmailTakenText);
    }
    var hashedPassword := crypto.hash(password.value, BcryptCost);
    var newUser := users.Create(email.value, hashedPassword);
    var emailToken := Token(EmailKind, newUser.id, EmailLifetime);
    r := AuthReply(200, SignedUpText, Untouched, None, Some(Mail(newUser.email, VerifyEmailLink, emailToken)));
  }

  /** `GET /verify-email`: a missing user is found missing before any write;
      a bad token is reported as a bad refresh token. */
  method VerifyEmail(users: UserTable, crypto: Crypto, token: Option<string>) returns (r: AuthReply)
    requires users.Valid()
    modifies users
    ensures users.Valid()
    ensures !Truthy(token) ==> r == Plain(400, MissingEmailTokenText) && users.rows == old(users.rows)
    ensures Truthy(token) && crypto.verify(EmailKind, token.value).None? ==>
      r == Plain(401, BadRefreshTokenText) && users.rows == old(users.rows)
    ensures Truthy(token) && crypto.verify(EmailKind, token.value).Some? ==>
      var id := crypto.verify(EmailKind, token.value).value;
      && (id !in old(users.rows) ==> r == Plain(404, NoUserText) && users.rows == old(users.rows))
      && (id in old(users.rows) ==>
            r == Plain(200, VerifiedText) && users.rows == old(users.rows)[id := old(users.rows)[id].(verified := true)])
  {
    if !Truthy(token) {
      return Plain(400, MissingEmailTokenText);
    }
    var decoded := crypto.verify(EmailKind, token.value);
    if decoded.None? {
      return Plain(401, BadRefreshTokenText);
    }
    var user := users.FindById(decoded.value);
    if user.None? {
      return Plain(404, NoUserText);
    }
    var updated := users.SetVerified(decoded.value);
    r := Plain(200, VerifiedText);
  }

  /** `POST /refresh`: the controller's rotation, with 15-minute access
      tokens. */
  method Refresh(users: UserTable, crypto: Crypto, cookie: Option<string>) returns (r: AuthReply)
    requires users.Valid()
    ensures r.status == 200 <==>
      && Truthy(cookie) && crypto.verify(RefreshKind, cookie.value).Some?
      && crypto.verify(RefreshKind, cookie.value).value in users.rows
      && users.rows[crypto.verify(RefreshKind, cookie.value).value].verified
    ensures r.status == 200 ==>
      r.accessToken == Some(Token(AccessKind, crypto.verify(RefreshKind, cookie.value).value, 15 * 60))
    ensures r.status != 200 ==> r.accessToken.None?
  {
    r := RotateTokens(users, crypto, cookie, AccessLifetime);
  }

  /** The account life cycle: a signup, then the link it mails, then a login
      with the same password, which succeeds with a 15-minute access token
      for the new user. `crypto` is assumed to accept the mailed link and to
      match a password against its own hash. */
  method SignupVerifyLogin(users: UserTable, crypto: Crypto, email: string, password: string, link: string)
    returns (signedUp: AuthReply, verified: AuthReply, loggedIn: AuthReply)
    requires users.Valid() && users.FindByEmail(email).None?
    requires email != "" && IsValidPassword(password)
    requires link != "" && crypto.verify(EmailKind, link) == Some(users.nextId)
    requires crypto.compare(password, crypto.hash(password, BcryptCost))
    modifies users
    ensures signedUp.status == 200 && signedUp.mail.Some? && signedUp.mail.value.to == email
    ensures verified == Plain(200, VerifiedText)
    ensures loggedIn.status == 200 && loggedIn.accessToken == Some(Token(AccessKind, old(users.nextId), AccessLifetime))
  {
    assert password != "" by {
      assert Utf16Length(password) >= 10;
    }
    var id := users.nextId;
    signedUp := Signup(users, crypto, Some(email), Some(password));
    verified := VerifyEmail(users, crypto, Some(link));
    assert users.rows[id].email == email && users.rows[id].verified;
    assert users.FindByEmail(email).value.id == id;
    loggedIn := Login(users, crypto, Some(email), Some(password));
  }
}
