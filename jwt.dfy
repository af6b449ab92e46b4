/**
 * The part of the `jsonwebtoken` library the routes rely on, kept abstract.
 *
 * A `Lib` is any pair of signing and verifying functions; `Lawful` is the one
 * law the model assumes of them: verifying a signed token succeeds exactly when
 * the verifying secret is the signing secret, and then yields the signed payload;
 * nothing that was not produced by `sign` verifies. Signed tokens are non-empty
 * and contain no space (a JWT is three base64url segments joined by dots).
 */
module Jwt {
  import opened Wrappers

  /** The claims the routes put into a token: `{userId, email}`. */
  datatype Claims = Claims(userId: int, email: string)

  /** A decoded token: its claims and its lifetime in seconds. */
  datatype Payload = Payload(claims: Claims, expiresIn: nat)

  /** `expiresIn: "1h"`. */
  const OneHour: nat := 3600

  datatype Lib = Lib(sign: (Claims, string, nat) -> string, verify: (string, string) -> Option<Payload>)

  ghost predicate Lawful(lib: Lib) {
    (forall c, secret, ttl :: lib.sign(c, secret, ttl) != [] && ' ' !in lib.sign(c, secret, ttl)) &&
    (forall c, signer, ttl, verifier ::
       lib.verify(lib.sign(c, signer, ttl), verifier)
       == if signer == verifier then Some(Payload(c, ttl)) else None) &&
    (forall t, secret :: lib.verify(t, secret).Some? ==>
       t == lib.sign(lib.verify(t, secret).value.claims, secret, lib.verify(t, secret).value.expiresIn))
  }

  /** `process.env.JWT_SECRET || fallback`: an unset or empty variable selects the fallback. */
  function SecretFrom(env: Option<string>, fallback: string): (secret: string)
    ensures env.Some? && env.value != [] ==> secret == env.value
    ensures env.None? || env.value == [] ==> secret == fallback
  {
    if env.Some? && env.value != [] then env.value else fallback
  }

  /** The empty string is never a token that verifies. */
  lemma EmptyTokenRejected(lib: Lib, secret: string)
    requires Lawful(lib)
    ensures lib.verify([], secret) == None
  {
  }
}
