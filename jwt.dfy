/**
 * Session tokens (jsonwebtoken), idealised: a token carries the payload id,
 * its issue and expiry times in seconds and the secret it was signed with.
 * Verification fails for a token signed with another secret or once its
 * expiry has been reached; it never looks at the payload otherwise.
 */
module Jwt {
  import opened Wrappers
  import opened UserModel

  /** A token's lifetime: two days, in seconds. */
  const ValiditySeconds: nat := 2 * 24 * 60 * 60

  datatype Token = Token(id: Option<UserId>, iat: nat, exp: nat, secret: string)

  /** What `jwt.verify` does with a token: throw, or return the decoded payload. */
  datatype VerifyOutcome = Throws | Decoded(id: Option<UserId>)

  /** Verifying a token with a secret at time `now` (milliseconds). */
  function Verify(t: Token, secret: string, now: nat): (v: VerifyOutcome)
    ensures v.Decoded? <==> t.secret == secret && now / 1000 < t.exp
    ensures v.Decoded? ==> v.id == t.id
  {
    if t.secret != secret then Throws
    else if t.exp <= now / 1000 then Throws
    else Decoded(t.id)
  }

  /** Signing a token for a user id at time `now`, valid for two days. */
  function CreateToken(id: UserId, secret: string, now: nat): (t: Token)
    ensures t.id == Some(id) && t.secret == secret
    ensures t.exp == t.iat + ValiditySeconds && t.iat == now / 1000
  {
    Token(Some(id), now / 1000, now / 1000 + ValiditySeconds, secret)
  }

  /**
   * A token made by `CreateToken` decodes to its id under the same secret for
   * two days (counted in whole seconds) and is refused afterwards and under
   * any other secret.
   */
  lemma CreatedTokenVerifies(id: UserId, secret: string, issued: nat, key: string, now: nat)
    ensures Verify(CreateToken(id, secret, issued), key, now) ==
      if key == secret && now / 1000 < issued / 1000 + ValiditySeconds
      then Decoded(Some(id)) else Throws
  {
  }
}
