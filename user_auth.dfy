/**
 * The session middleware: it reads the `token` cookie, verifies it and
 * either lets the request through with the payload's id attached, or
 * answers 401 (no cookies, no token) or 403 (bad token, no id in it).
 * Verification is a parameter, so the decision does not depend on how the
 * signature and expiry are checked.
 */
module Middleware {
  import opened Wrappers
  import opened UserModel
  import opened Jwt
  import opened Http

  /** The request's cookies, if there are any, and its `token` cookie, if it is set. */
  datatype CookieJar = NoCookies | Cookies(token: Option<Token>)

  /** Either the middleware answers, or it calls `next()` with `req.user = {id}`. */
  datatype Gate = Deny(reply: Reply) | Next(userId: UserId)

  /** `userAuth` */
  function UserAuth(jar: CookieJar, verify: Token -> VerifyOutcome): (g: Gate)
    ensures g.Next? <==>
      jar.Cookies? && jar.token.Some? && verify(jar.token.value).Decoded?
      && verify(jar.token.value).id.Some?
    ensures g.Next? ==> verify(jar.token.value) == Decoded(Some(g.userId))
    ensures jar.NoCookies? ==> g == Deny(Failure(401, CookiesMissing))
    ensures jar.Cookies? && jar.token.None? ==> g == Deny(Failure(401, NoToken))
    ensures jar.Cookies? && jar.token.Some? && verify(jar.token.value) == Decoded(None) ==>
      g == Deny(Failure(403, BadPayload))
    ensures jar.Cookies? && jar.token.Some? && verify(jar.token.value).Throws? ==>
      g == Deny(Failure(403, BadToken))
  {
    match jar
    case NoCookies => Deny(Failure(401, CookiesMissing))
    case Cookies(token) =>
      if token.None? then Deny(Failure(401, NoToken))
      else match verify(token.value)
        case Throws => Deny(Failure(403, BadToken))
        case Decoded(id) =>
          if id.Some? then Next(id.value) else Deny(Failure(403, BadPayload))
  }

  /**
   * With `jwt.verify` under the server's secret, a cookie holding a token the
   * server issued lets the request through as that user until the token's two
   * days are up, and is answered 403 from then on.
   */
  lemma IssuedTokenPasses(id: UserId, secret: string, issued: nat, now: nat)
    ensures UserAuth(Cookies(Some(CreateToken(id, secret, issued))), t => Verify(t, secret, now)) ==
      if now / 1000 < issued / 1000 + ValiditySeconds then Next(id)
      else Deny(Failure(403, BadToken))
  {
    CreatedTokenVerifies(id, secret, issued, secret, now);
  }

  /** A token signed with any other secret is refused with 403. */
  lemma ForeignTokenRefused(t: Token, secret: string, now: nat)
    requires t.secret != secret
    ensures UserAuth(Cookies(Some(t)), tok => Verify(tok, secret, now)) == Deny(Failure(403, BadToken))
  {
  }
}
