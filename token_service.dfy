/** The token issuer: a ladder of configuration checks, then a JWT (RFC 7519)
    with the registered claims `sub`, `iss`, `aud`, `iat`, `exp` (section 4.1 of RFC 7519)
    and a private `email` claim, signed with RS256 (section 3.3 of RFC 7518).
    Base64 decoding, PKCS#8 import and the signature itself are abstract. */
module Tokens {
  import opened Wrappers

  /** The `jwt.*` values `ConfigService.get` returns; `None` is `undefined`. */
  datatype JwtSettings = JwtSettings(issuer: Option<string>, audience: Option<string>,
                                     ttlSeconds: Option<int>, privateKeyBase64: Option<string>)

  /** An imported key. */
  datatype CryptoKey = CryptoKey(material: string)

  datatype Claims = Claims(sub: string, email: string, iss: string, aud: string, iat: int, exp: int)

  datatype ProtectedHeader = ProtectedHeader(alg: string)

  /** A signed token: its header, its claims and the key that signed it. */
  datatype SignedJwt = SignedJwt(header: ProtectedHeader, claims: Claims, signedWith: CryptoKey)

  datatype TokenParams = TokenParams(userId: string, email: string)

  /** The configuration errors the issuer throws. */
  datatype TokenError = MissingIssuer | MissingAudience | InvalidTtl | MissingPrivateKey | InvalidPrivateKey

  /** The issuer with its collaborators: the settings and `importPKCS8`
      applied to the decoded key (`None` when the import throws). */
  datatype TokenService = TokenService(settings: JwtSettings, importPkcs8: string -> Option<CryptoKey>)

  const Rs256 := "RS256"

  /** `config.get(...) ?? ""` followed by a truthiness test. */
  predicate Configured(v: Option<string>)
  {
    v.Some? && v.value != ""
  }

  /** `!ttl || ttl <= 0` fails. */
  predicate PositiveTtl(v: Option<int>)
  {
    v.Some? && v.value > 0
  }

  /** Every check of the ladder passes and the key imports. */
  predicate CanSign(service: TokenService)
  {
    var s := service.settings;
    Configured(s.issuer) && Configured(s.audience) && PositiveTtl(s.ttlSeconds)
    && Configured(s.privateKeyBase64) && service.importPkcs8(s.privateKeyBase64.value).Some?
  }

  /** `signAccessToken`; `nowSeconds` is the clock reading both `iat` and `exp` are taken from. */
  function SignAccessToken(service: TokenService, params: TokenParams, nowSeconds: int): (r: Result<SignedJwt, TokenError>)
    ensures !Configured(service.settings.issuer) ==> r == Err(MissingIssuer)
    ensures Configured(service.settings.issuer) && !Configured(service.settings.audience) ==> r == Err(MissingAudience)
    ensures (Configured(service.settings.issuer) && Configured(service.settings.audience)
             && !PositiveTtl(service.settings.ttlSeconds)) ==> r == Err(InvalidTtl)
    ensures r == Err(MissingPrivateKey) <==>
              Configured(service.settings.issuer) && Configured(service.settings.audience)
              && PositiveTtl(service.settings.ttlSeconds) && !Configured(service.settings.privateKeyBase64)
    ensures r == Err(InvalidPrivateKey) <==>
              Configured(service.settings.issuer) && Configured(service.settings.audience)
              && PositiveTtl(service.settings.ttlSeconds) && Configured(service.settings.privateKeyBase64)
              && service.importPkcs8(service.settings.privateKeyBase64.value).None?
    ensures r.Ok? <==> CanSign(service)
    ensures r.Ok? ==>
              && r.value.header.alg == Rs256
              && r.value.claims.sub == params.userId
              && r.value.claims.email == params.email
              && r.value.claims.iss == service.settings.issuer.value
              && r.value.claims.aud == service.settings.audience.value
              && r.value.claims.iat == nowSeconds
              && r.value.claims.exp == nowSeconds + service.settings.ttlSeconds.value
              && r.value.claims.exp > r.value.claims.iat
              && Some(r.value.signedWith) == service.importPkcs8(service.settings.privateKeyBase64.value)
  {
    var s := service.settings;
    if !Configured(s.issuer) then Err(MissingIssuer)
    else if !Configured(s.audience) then Err(MissingAudience)
    else if !PositiveTtl(s.ttlSeconds) then Err(InvalidTtl)
    else if !Configured(s.privateKeyBase64) then Err(MissingPrivateKey)
    else
      match service.importPkcs8(s.privateKeyBase64.value)
      case None => Err(InvalidPrivateKey)
      case Some(key) =>
        var ttl := s.ttlSeconds.value;
        Ok(SignedJwt(ProtectedHeader(Rs256),
                     Claims(params.userId, params.email, s.issuer.value, s.audience.value, nowSeconds, nowSeconds + ttl),
                     key))
  }
}
