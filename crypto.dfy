/**
 * The two foreign libraries the trainer accounts rely on, kept abstract:
 * a salted password hasher (bcrypt through passlib) and a signed token
 * codec (JWT through python-jose). Only the behaviour the application
 * depends on is modelled; the cryptography itself is not.
 */
module Passwords {

  /** A bcrypt digest: the salt drawn when hashing and the sealed secret. */
  datatype Digest = Digest(salt: string, sealed: string)

  /**
   * `pwd_context.hash(password)`. The library draws a fresh random salt on
   * every call; here the salt is a parameter.
   */
  function Hash(password: string, salt: string): (d: Digest)
    ensures d.salt == salt
  {
    Digest(salt, password)
  }

  /** `pwd_context.verify(password, digest)`. */
  function Verify(password: string, digest: Digest): (ok: bool)
    ensures ok <==> Hash(password, digest.salt) == digest
  {
    digest.sealed == password
  }

  /** A digest verifies exactly the password it was made from, whatever the salt. */
  lemma VerifyHash(password: string, attempt: string, salt: string)
    ensures Verify(attempt, Hash(password, salt)) <==> attempt == password
  {
  }
}

module Jose {
  import opened Wrappers

  /** The claims the application puts in a token: its subject and its absolute expiry (seconds). */
  datatype Claims = Claims(sub: string, exp: int)

  /** A signed compact token; its signature is not modelled. */
  datatype Jwt = Jwt(payload: Claims)

  /** The two ways `jwt.decode` raises: on expiry, and on anything else (bad format, bad signature, no token). */
  datatype DecodeError = ExpiredSignature | InvalidToken

  /** `jwt.encode(claims, SECRET_KEY, algorithm=ALGORITHM)`. */
  function Encode(claims: Claims): (token: Jwt)
    ensures forall now :: now < claims.exp ==> Decode(Some(token), now) == Ok(claims)
    ensures forall now :: claims.exp <= now ==> Decode(Some(token), now) == Err(ExpiredSignature)
  {
    Jwt(claims)
  }

  /**
   * `jwt.decode(token, SECRET_KEY, algorithms=[ALGORITHM])` at clock `now`.
   * `None` stands for the missing token that `TOKEN.get("access_token")`
   * yields when nobody has logged in: decoding it raises, but not as expiry.
   */
  function Decode(token: Option<Jwt>, now: int): (r: Result<Claims, DecodeError>)
    ensures r == Err(InvalidToken) <==> token.None?
    ensures r == Err(ExpiredSignature) <==> token.Some? && token.value.payload.exp <= now
  {
    match token
    case None => Err(InvalidToken)
    case Some(t) => if now < t.payload.exp then Ok(t.payload) else Err(ExpiredSignature)
  }

  /** Decoding what was encoded gives back the claims until they expire. */
  lemma DecodeEncode(claims: Claims, now: int)
    ensures Decode(Some(Encode(claims)), now) == if now < claims.exp then Ok(claims) else Err(ExpiredSignature)
  {
  }
}
