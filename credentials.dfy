/** The credential primitives the authentication handlers call. Password
    hashing (bcrypt) and token signing and checking (jsonwebtoken) are not
    modelled: they are the fields of a `Crypto` value handed to each handler,
    about which nothing is assumed. A signed token is modelled by the claims
    it carries. */
module Credentials {

  import opened Common

  /** Each kind of token is signed with its own secret. */
  datatype TokenKind = AccessKind | RefreshKind | EmailKind | ResetKind

  /** `jwt.sign({ userID }, secret, { expiresIn })`: the kind names the secret. */
  datatype Token = Token(kind: TokenKind, userID: UserId, lifetimeSeconds: nat)

  const AccessLifetime: nat := 15 * 60
  /** The access token `refresh` issues in the current controller lives 59 minutes. */
  const RefreshedAccessLifetime: nat := 59 * 60
  const RefreshLifetime: nat := 30 * 24 * 60 * 60
  const EmailLifetime: nat := 10 * 60
  const ResetLifetime: nat := 10 * 60
  /** `maxAge` of the refresh-token cookie, in milliseconds (30 days). */
  const RefreshCookieMaxAge: nat := 1000 * 60 * 60 * 24 * 30
  /** The bcrypt cost factor every handler hashes with. */
  const BcryptCost: nat := 11

  /** The external primitives:
      - `hash(password, cost)` is `bcrypt.hash`;
      - `compare(password, hash)` is `bcrypt.compare`;
      - `verify(kind, token)` is `jwt.verify` with that kind's secret: the
        `userID` claim of a valid, unexpired token, or None where it throws. */
  datatype Crypto = Crypto(
    hash: (string, nat) -> string,
    compare: (string, string) -> bool,
    verify: (TokenKind, string) -> Option<UserId>)

  /** What a handler does to the `refreshToken` cookie of the response. */
  datatype Cookie = Untouched | SetRefresh(token: Token, maxAge: nat) | Cleared

  datatype MailPurpose = VerifyEmailLink | ResetPasswordLink

  /** A message handed to the mail transport: recipient, purpose and the token
      its link carries. */
  datatype Mail = Mail(to: string, purpose: MailPurpose, token: Token)

  /** The refresh cookie every successful login and refresh sets. */
  function RefreshCookie(userID: UserId): (c: Cookie)
    ensures c.SetRefresh? && c.token.kind == RefreshKind && c.token.userID == userID
    ensures c.token.lifetimeSeconds == 30 * 24 * 3600 && c.maxAge == c.token.lifetimeSeconds * 1000
  {
    SetRefresh(Token(RefreshKind, userID, RefreshLifetime), RefreshCookieMaxAge)
  }
}
