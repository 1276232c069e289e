/**
 * Token issue and the two verification middlewares. The two signing secrets
 * are process-wide constants; here they are passed in as one configuration
 * value, and the clock (seconds since the epoch) is a parameter.
 */
module Token {
  import opened Wrappers
  import opened Schema
  import opened Jwt
  import opened Http

  /** `expiresIn: "2 hrs"`, in seconds. */
  const AccessLifetime: nat := 7200
  /** `expiresIn: "2 days"`, in seconds. */
  const RefreshLifetime: nat := 172800

  /** The access-token secret and the refresh-token secret. */
  datatype Secrets = Secrets(access: Key, refresh: Key)

  /** The claim set both tokens carry. */
  function GetPayload(u: User): Payload {
    Payload(u.id, u.username, u.role)
  }

  /** The claims a token issued for `u` at `issued` decodes to, for a lifetime of `lifetime` seconds. */
  function IssuedClaims(u: User, issued: int, lifetime: nat): Claims {
    Claims(GetPayload(u), issued, issued + lifetime)
  }

  /**
   * The success body of login, register, refresh and update: an access token
   * that verifies under the access secret for 7200 s, a refresh token that
   * verifies under the refresh secret for 172800 s, both carrying `u`'s id,
   * username and role, and the public user fields.
   */
  function CreateSuccessTokenRespond(u: User, secrets: Secrets, now: int): (r: TokenResponse)
    ensures r.success
    ensures r.user == PublicUser(u.username, u.role, u.name)
    ensures forall t :: Verify(r.accessToken, secrets.access, t)
                     == if t < now + AccessLifetime then Some(IssuedClaims(u, now, AccessLifetime)) else None
    ensures forall t :: Verify(r.refreshToken, secrets.refresh, t)
                     == if t < now + RefreshLifetime then Some(IssuedClaims(u, now, RefreshLifetime)) else None
  {
    var token := Sign(GetPayload(u), secrets.access, now, AccessLifetime);
    var refreshToken := Sign(GetPayload(u), secrets.refresh, now, RefreshLifetime);
    TokenResponse(true, token, refreshToken, PublicUser(u.username, u.role, u.name))
  }

  /** What a middleware does with a request: answer it, or hand on the verified claims. */
  datatype Gate = Reject(response: Response) | Pass(claims: Claims)

  /**
   * `verifyToken(permission)`: shape check on the header, then verification
   * under the access secret, then (only when a permission list is given) the
   * role check. Any list given, even an empty one, is checked.
   */
  function AccessGate(header: Wire, permission: Option<seq<string>>, key: Key, now: int): (g: Gate)
    ensures g.Reject? && g.response.status == 400 <==> !IsJwtShaped(header)
    ensures g.Pass? <==> IsJwtShaped(header) && Verify(header, key, now).Some?
                         && (permission.None? || Verify(header, key, now).value.payload.role in permission.value)
    ensures g.Pass? ==> Verify(header, key, now) == Some(g.claims)
    ensures g.Reject? ==> g.response.status in {400, 401}
  {
    if !IsJwtShaped(header) then
      Reject(Response(400, ValidationFailed([FieldError("authorization", JwtShape)])))
    else
      match Verify(header, key, now)
      case None => Reject(Response(401, Failed(MsgTokenInvalid)))
      case Some(decoded) =>
        if permission.Some? && decoded.payload.role !in permission.value then
          Reject(Response(401, Failed(MsgRoleDenied)))
        else
          Pass(decoded)
  }

  /** `verifyRefreshToken`: shape check on `body.refresh`, then verification under the refresh secret; no role check. */
  function RefreshGate(refresh: Wire, key: Key, now: int): (g: Gate)
    ensures g.Reject? && g.response.status == 400 <==> !IsJwtShaped(refresh)
    ensures g.Pass? <==> IsJwtShaped(refresh) && Verify(refresh, key, now).Some?
    ensures g.Pass? ==> Verify(refresh, key, now) == Some(g.claims)
    ensures g.Reject? ==> g.response.status in {400, 401}
  {
    if !IsJwtShaped(refresh) then
      Reject(Response(400, ValidationFailed([FieldError("refresh", JwtShape)])))
    else
      match Verify(refresh, key, now)
      case None => Reject(Response(401, Failed(MsgRefreshInvalid)))
      case Some(decoded) => Pass(decoded)
  }

  /**
   * The access middleware on a request. It answers the request itself and
   * leaves it untouched, or it sets `decodedToken` and calls `next` once.
   */
  method VerifyToken(req: Request, permission: Option<seq<string>>, secrets: Secrets, now: int)
    returns (sent: Option<Response>)
    modifies req`decodedToken, req`nextCalls
    ensures match AccessGate(req.authorization, permission, secrets.access, now)
      case Reject(response) =>
        sent == Some(response) && req.decodedToken == old(req.decodedToken) && req.nextCalls == old(req.nextCalls)
      case Pass(claims) =>
        sent == None && req.decodedToken == Some(claims) && req.nextCalls == old(req.nextCalls) + 1
  {
    if !IsJwtShaped(req.authorization) {
      return Some(Response(400, ValidationFailed([FieldError("authorization", JwtShape)])));
    }
    var decoded := Verify(req.authorization, secrets.access, now);
    if decoded.None? {
      return Some(Response(401, Failed(MsgTokenInvalid)));
    }
    if permission.Some? {
      var roleUser := decoded.value.payload.role;
      if roleUser !in permission.value {
        return Some(Response(401, Failed(MsgRoleDenied)));
      }
    }
    req.decodedToken := decoded;
    req.nextCalls := req.nextCalls + 1;
    sent := None;
  }

  /** The refresh middleware on a request: answers it, or sets `decodedRefreshToken` and calls `next` once. */
  method VerifyRefreshToken(req: Request, secrets: Secrets, now: int) returns (sent: Option<Response>)
    modifies req`decodedRefreshToken, req`nextCalls
    ensures match RefreshGate(req.body.refresh, secrets.refresh, now)
      case Reject(response) =>
        sent == Some(response) && req.decodedRefreshToken == old(req.decodedRefreshToken)
        && req.nextCalls == old(req.nextCalls)
      case Pass(claims) =>
        sent == None && req.decodedRefreshToken == Some(claims) && req.nextCalls == old(req.nextCalls) + 1
  {
    if !IsJwtShaped(req.body.refresh) {
      return Some(Response(400, ValidationFailed([FieldError("refresh", JwtShape)])));
    }
    var decoded := Verify(req.body.refresh, secrets.refresh, now);
    if decoded.None? {
      return Some(Response(401, Failed(MsgRefreshInvalid)));
    }
    req.decodedRefreshToken := decoded;
    req.nextCalls := req.nextCalls + 1;
    sent := None;
  }

  /** An access token issued for `u` passes the access gate until it expires, and then only if the role is permitted. */
  lemma IssuedAccessTokenGate(u: User, secrets: Secrets, issued: int, now: int, permission: Option<seq<string>>)
    ensures AccessGate(CreateSuccessTokenRespond(u, secrets, issued).accessToken, permission, secrets.access, now)
         == if now >= issued + AccessLifetime then Reject(Response(401, Failed(MsgTokenInvalid)))
            else if permission.Some? && u.role !in permission.value then Reject(Response(401, Failed(MsgRoleDenied)))
            else Pass(IssuedClaims(u, issued, AccessLifetime))
  {
    var r := CreateSuccessTokenRespond(u, secrets, issued);
    assert r.accessToken.Signed?;
  }

  /** A refresh token issued for `u` passes the refresh gate, whatever `u`'s role, until it expires. */
  lemma IssuedRefreshTokenGate(u: User, secrets: Secrets, issued: int, now: int)
    ensures RefreshGate(CreateSuccessTokenRespond(u, secrets, issued).refreshToken, secrets.refresh, now)
         == if now >= issued + RefreshLifetime then Reject(Response(401, Failed(MsgRefreshInvalid)))
            else Pass(IssuedClaims(u, issued, RefreshLifetime))
  {
    var r := CreateSuccessTokenRespond(u, secrets, issued);
    assert r.refreshToken.Signed?;
  }

  /** With two distinct secrets, a refresh token is refused by the access gate and an access token by the refresh gate. */
  lemma SecretsSeparateTokens(u: User, secrets: Secrets, issued: int, now: int, permission: Option<seq<string>>)
    requires secrets.access != secrets.refresh
    ensures AccessGate(CreateSuccessTokenRespond(u, secrets, issued).refreshToken, permission, secrets.access, now)
         == Reject(Response(401, Failed(MsgTokenInvalid)))
    ensures RefreshGate(CreateSuccessTokenRespond(u, secrets, issued).accessToken, secrets.refresh, now)
         == Reject(Response(401, Failed(MsgRefreshInvalid)))
  {
    var r := CreateSuccessTokenRespond(u, secrets, issued);
    assert r.refreshToken.Signed? && r.accessToken.Signed?;
  }

  /** Both tokens of one response decode to the same payload. */
  lemma TokensShareThePayload(u: User, secrets: Secrets, issued: int)
    ensures Verify(CreateSuccessTokenRespond(u, secrets, issued).accessToken, secrets.access, issued).Some?
    ensures Verify(CreateSuccessTokenRespond(u, secrets, issued).refreshToken, secrets.refresh, issued).Some?
    ensures Verify(CreateSuccessTokenRespond(u, secrets, issued).accessToken, secrets.access, issued).value.payload
         == Verify(CreateSuccessTokenRespond(u, secrets, issued).refreshToken, secrets.refresh, issued).value.payload
         == Payload(u.id, u.username, u.role)
  {
  }

  /** A permission list that is given but empty shuts every token out. */
  lemma EmptyPermissionListRejectsAll(header: Wire, key: Key, now: int)
    ensures AccessGate(header, Some([]), key, now).Reject?
  {
  }
}
