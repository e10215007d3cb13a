/**
 * The two cryptographic libraries the service calls, as functions about which
 * only what the service relies on is assumed.
 *
 * bcrypt: `hashpw(pwd, salt)` and `checkpw(pwd, hash)`; a hash made from a
 * password matches that password, whatever the salt.
 *
 * PyJWT with HS256 and one fixed server secret: `encode` of the payload
 * {"user_id": u} and a partial `decode` that fails on any token whose
 * signature does not verify; decoding an issued token gives back its payload.
 */
module Crypto {
  import opened Wrappers
  import opened Schema

  /** The X-Access-Token header value. */
  type Token = string
  /** The output of bcrypt.gensalt(): random, so a parameter. */
  type Salt = string

  datatype Bcrypt = Bcrypt(hashpw: (string, Salt) -> PwdHash, checkpw: (string, PwdHash) -> bool)

  /** The one property of bcrypt the service relies on. */
  ghost predicate BcryptSound(b: Bcrypt)
  {
    forall pwd, salt :: b.checkpw(pwd, b.hashpw(pwd, salt))
  }

  /** A decoded payload: the dictionary's `user_id` entry, if there is one. */
  datatype Claims = Claims(userId: Option<UserId>)

  datatype Jwt = Jwt(encode: UserId -> Token, decode: Token -> Option<Claims>)

  /** Decoding a token the server issued gives back the payload it signed. */
  ghost predicate JwtSound(j: Jwt)
  {
    forall u :: j.decode(j.encode(u)) == Some(Claims(Some(u)))
  }

  /** The bcrypt assumption is consistent: some pair of functions meets it. */
  lemma BcryptSoundSatisfiable()
    ensures exists b :: BcryptSound(b)
  {
    var b := Bcrypt((pwd: string, salt: Salt) => salt + pwd, (pwd: string, h: PwdHash) => |pwd| <= |h| && h[|h| - |pwd|..] == pwd);
    assert BcryptSound(b);
  }

  /** The jwt assumption is consistent: some codec meets it. */
  lemma JwtSoundSatisfiable()
    ensures exists j :: JwtSound(j)
  {
    var j := Jwt((u: UserId) => u, (t: Token) => Some(Claims(Some(t))));
    assert JwtSound(j);
  }
}
