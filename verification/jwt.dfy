/**
 * jsonwebtoken, as the middleware sees it. A token on the wire is either a
 * term that was signed with some key (claims plus the key, standing for the
 * HMAC), or arbitrary text that was never produced by signing. Signing puts
 * `iat` and `exp` (issue time plus the lifetime, in seconds) into the claims;
 * verification succeeds exactly for a signed term, under the key it was signed
 * with, strictly before its expiry.
 */
module Jwt {
  import opened Wrappers
  import Schema

  type Key = string

  /** The claim set the application signs: subject id, username and role. */
  datatype Payload = Payload(sub: Schema.Id, username: string, role: string)

  /** The claims a successful verification hands back: the payload plus `iat` and `exp`. */
  datatype Claims = Claims(payload: Payload, iat: int, exp: int)

  datatype Wire = Signed(claims: Claims, key: Key) | Forged(text: string)

  /** `jwt.sign(payload, key, { expiresIn })` at clock time `now`. */
  function Sign(p: Payload, key: Key, now: int, lifetime: nat): (w: Wire)
    ensures w.Signed? && w.key == key && w.claims.payload == p
    ensures w.claims.exp - w.claims.iat == lifetime && w.claims.iat == now
  {
    Signed(Claims(p, now, now + lifetime), key)
  }

  /** `jwt.verify(token, key)` at clock time `now`: the decoded claims, or None for any error. */
  function Verify(w: Wire, key: Key, now: int): (r: Option<Claims>)
    ensures r.Some? <==> w.Signed? && w.key == key && now < w.claims.exp
    ensures r.Some? ==> r.value == w.claims
  {
    match w
    case Signed(c, k) => if k == key && now < c.exp then Some(c) else None
    case Forged(_) => None
  }

  /** The signing law: a signed token verifies to its payload iff the key matches and it has not expired. */
  lemma VerifySign(p: Payload, key: Key, key': Key, issued: int, lifetime: nat, now: int)
    ensures Verify(Sign(p, key, issued, lifetime), key', now).Some?
        <==> key == key' && now < issued + lifetime
    ensures Verify(Sign(p, key, issued, lifetime), key', now).Some?
        ==> Verify(Sign(p, key, issued, lifetime), key', now).value.payload == p
  {
  }

  /** Whatever the clock says, a token signed with one key never verifies under another. */
  lemma KeysSeparate(w: Wire, key: Key, now: int)
    requires w.Signed? && w.key != key
    ensures Verify(w, key, now) == None
  {
  }

  predicate IsBase64UrlChar(c: char) {
    'a' <= c <= 'z' || 'A' <= c <= 'Z' || '0' <= c <= '9' || c == '-' || c == '_'
  }

  function DotCount(s: string): nat {
    if s == [] then 0 else (if s[0] == '.' then 1 else 0) + DotCount(s[1..])
  }

  /** The `isJWT` shape: three dot-separated base64url segments. */
  predicate IsJwtText(s: string) {
    DotCount(s) == 2 && forall i :: 0 <= i < |s| ==> s[i] == '.' || IsBase64UrlChar(s[i])
  }

  /** `isJWT` on the wire: a signed token always has the compact shape. */
  predicate IsJwtShaped(w: Wire) {
    match w
    case Signed(_, _) => true
    case Forged(t) => IsJwtText(t)
  }

  /** An absent header or field reads as the empty string, which is not JWT-shaped. */
  lemma EmptyIsNotJwt()
    ensures !IsJwtShaped(Forged(""))
  {
  }
}
