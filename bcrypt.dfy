/**
 * The password hasher (bcryptjs), reduced to what the controllers rely on:
 * `hash` turns a password into a digest and `compare` accepts a password
 * against a digest exactly when the digest was made from that password.
 * The digest is an ideal one: salt and cost factor are not modelled, and a
 * digest of one password never matches another password.
 */
module Bcrypt {

  /** A stored bcrypt hash string; only `Compare` looks inside it. */
  datatype Digest = Digest(of: string)

  /** Hashing a password (the salt and cost factor are not modelled). */
  function Hash(password: string): (d: Digest)
    ensures Compare(password, d)
  {
    Digest(password)
  }

  /** Whether a digest was made from this password. */
  predicate Compare(password: string, d: Digest)
  {
    d.of == password
  }

  /** A digest accepts the password it was made from, and no other. */
  lemma CompareHash(p: string, q: string)
    ensures Compare(p, Hash(q)) <==> p == q
  {
  }
}
