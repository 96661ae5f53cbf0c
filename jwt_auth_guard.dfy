/** The gateway's bearer-token guard. The credential is taken from the
    `authorization` header with `/^Bearer\s+(.+)$/i` (a looser form of the
    syntax in section 2.1 of RFC 6750) and trimmed; then an ordered ladder
    of checks decides. Key import and token verification are abstract. */
module Guard {
  import opened Wrappers
  import opened Text
  import opened JsValues
  import opened HttpErrors
  import opened Tokens

  /** `getHeader`: the value under `key`, falling back to its lower-cased
      form only when the first is nullish; a value that is not a string
      (an array of repeated headers, say) counts as absent. */
  function GetHeader(headers: Option<map<string, JsValue>>, key: string): (r: Option<string>)
    ensures headers.None? ==> r.None?
    ensures r.Some? ==> headers.Some? && (Get(Obj(headers.value), key) == Str(r.value)
                                          || Get(Obj(headers.value), ToLower(key)) == Str(r.value))
    ensures headers.Some? && Get(Obj(headers.value), key).Str? ==> r == Some(Get(Obj(headers.value), key).s)
    ensures headers.Some? && !IsNullish(Get(Obj(headers.value), key)) && !Get(Obj(headers.value), key).Str? ==> r.None?
    ensures headers.Some? && IsNullish(Get(Obj(headers.value), key)) ==>
              r == AsString(Get(Obj(headers.value), ToLower(key)))
  {
    if headers.None? then None
    else
      var h := Obj(headers.value);
      AsString(Coalesce(Get(h, key), Get(h, ToLower(key))))
  }

  const Scheme := "bearer"

  /** Where the group `(.+)` starts once the greedy `\s+`, holding `k`
      characters, has given back as many as it must for the group to reach
      the end of the input: the latest start that works, or `None` when no
      choice works. */
  function CaptureStart(rest: string, k: nat): (r: Option<nat>)
    requires k <= |rest|
    ensures r.Some? ==> 1 <= r.value <= k && r.value < |rest| && NoLineTerminator(rest[r.value..])
    ensures r.Some? ==> forall j :: r.value < j <= k && j < |rest| ==> !NoLineTerminator(rest[j..])
    ensures r.None? ==> forall j :: 1 <= j <= k && j < |rest| ==> !NoLineTerminator(rest[j..])
    decreases k
  {
    if k == 0 then None
    else if k < |rest| && NoLineTerminator(rest[k..]) then Some(k)
    else CaptureStart(rest, k - 1)
  }

  /** The group may start at `j`: after the scheme and at least one
      whitespace character, with a non-empty remainder free of line
      terminators. */
  predicate CaptureAt(header: string, j: int)
  {
    7 <= j < |header| && AllWhitespace(header[6..j]) && NoLineTerminator(header[j..])
  }

  /** The header has the form `/^Bearer\s+(.+)$/i` accepts. */
  predicate BearerForm(header: string)
  {
    |header| > 6 && ToLower(header[..6]) == Scheme && exists j :: 7 <= j < |header| && CaptureAt(header, j)
  }

  lemma WhitespaceRun(header: string, k: nat, j: nat)
    requires 6 + k <= |header| && j <= k
    requires AllWhitespace(header[6..][..k])
    ensures AllWhitespace(header[6..6 + j])
  {
    var run, short := header[6..][..k], header[6..6 + j];
    forall i | 0 <= i < j
      ensures IsJsWhitespace(short[i])
    {
      assert short[i] == header[6 + i] == run[i];
    }
  }

  /** Every start the group could take lies within the leading whitespace
      after the scheme. */
  lemma CaptureWithinRun(header: string)
    requires |header| >= 6
    ensures forall j :: CaptureAt(header, j) ==>
              && 1 <= j - 6 <= LeadingWhitespace(header[6..])
              && header[6..][j - 6..] == header[j..]
  {
    var rest := header[6..];
    var k := LeadingWhitespace(rest);
    forall j | CaptureAt(header, j)
      ensures 1 <= j - 6 <= k && rest[j - 6..] == header[j..]
    {
    }
  }

  /** `header.match(/^Bearer\s+(.+)$/i)?.[1]`: the scheme in any letter case,
      at least one whitespace character, then the rest of the input up to
      its end, which must hold no line terminator. The greedy `\s+` makes
      the group start as late as it can. */
  function MatchBearer(header: string): (r: Option<string>)
    ensures r.Some? <==> BearerForm(header)
    ensures r.Some? ==> exists j :: CaptureAt(header, j) && r.value == header[j..]
                                    && forall j' :: CaptureAt(header, j') ==> j' <= j
    ensures r.Some? ==> r.value != [] && NoLineTerminator(r.value)
  {
    if |header| < 6 || ToLower(header[..6]) != Scheme then None
    else
      var k := LeadingWhitespace(header[6..]);
      CaptureWithinRun(header);
      match CaptureStart(header[6..], k)
      case None => None
      case Some(j) =>
        WhitespaceRun(header, k, j);
        assert header[6..][j..] == header[6 + j..];
        assert CaptureAt(header, 6 + j);
        Some(header[6 + j..])
  }

  /** Trimming the capture gives the same token whichever start of the
      group is taken. */
  lemma CaptureTrimmed(header: string, j: int)
    requires CaptureAt(header, j) && ToLower(header[..6]) == Scheme
    ensures MatchBearer(header).Some? && Trim(MatchBearer(header).value) == Trim(header[j..])
  {
    var g := MatchBearer(header).value;
    var c :| CaptureAt(header, c) && g == header[c..] && forall j' :: CaptureAt(header, j') ==> j' <= c;
    var gap := header[j..c];
    forall i | 0 <= i < |gap|
      ensures IsJsWhitespace(gap[i])
    {
      assert gap[i] == header[6..c][j - 6 + i];
    }
    assert header[j..] == gap + g;
    TrimSkipsLeadingWhitespace(gap, g);
  }

  /** `extractBearerToken`: a token exactly when the header is present,
      non-empty and of the bearer form; the token is the capture, trimmed. */
  function ExtractBearerToken(authHeader: Option<string>): (r: Option<string>)
    ensures r.Some? <==> authHeader.Some? && BearerForm(authHeader.value)
    ensures r.Some? ==> var g := MatchBearer(authHeader.value); g.Some? && r.value == Trim(g.value)
    ensures r.Some? ==> forall j :: CaptureAt(authHeader.value, j) ==> r.value == Trim(authHeader.value[j..])
  {
    if authHeader.None? || authHeader.value == "" then None
    else
      match MatchBearer(authHeader.value)
      case None => None
      case Some(g) =>
        forall j | CaptureAt(authHeader.value, j)
          ensures Trim(g) == Trim(authHeader.value[j..])
        {
          CaptureTrimmed(authHeader.value, j);
        }
        Some(Trim(g))
  }

  /** "Bearer" followed by whitespace only yields no token or the empty
      token, both of which the guard treats as missing. */
  lemma {:induction false} SchemeWithOnlyWhitespace(header: string)
    requires |header| >= 6 && ToLower(header[..6]) == Scheme
    requires AllWhitespace(header[6..])
    ensures ExtractBearerToken(Some(header)) in {None, Some("")}
  {
    var g := MatchBearer(header);
    if g.Some? {
      var j :| 7 <= j < |header| && AllWhitespace(header[6..j]) && g.value == header[j..];
      assert forall i :: 0 <= i < |g.value| ==> g.value[i] == header[6..][j - 6 + i];
      TrimAllWhitespace(g.value);
    }
  }

  /** A header `Bearer <token>` with one space yields the token itself when
      the token is non-empty, has no surrounding whitespace and no line break. */
  lemma {:induction false} BearerRoundTrip(token: string)
    requires token != []
    requires !IsJsWhitespace(token[0]) && !IsJsWhitespace(token[|token| - 1])
    requires NoLineTerminator(token)
    ensures ExtractBearerToken(Some("Bearer " + token)) == Some(token)
  {
    var header := "Bearer " + token;
    assert header[..6] == "Bearer";
    assert ToLower("Bearer") == Scheme;
    assert header[6..7] == " " && header[7..] == token;
    assert CaptureAt(header, 7);
    TrimUntrimmed(token);
  }

  /** The scheme in any letter case and any run of whitespace after it:
      the token comes back without the whitespace around it. */
  lemma {:induction false} LooseBearerHeader(scheme: string, ws: string, token: string, tail: string)
    requires |scheme| == 6 && ToLower(scheme) == Scheme
    requires ws != [] && AllWhitespace(ws) && AllWhitespace(tail) && NoLineTerminator(tail)
    requires token != []
    requires !IsJsWhitespace(token[0]) && !IsJsWhitespace(token[|token| - 1])
    requires NoLineTerminator(token)
    ensures ExtractBearerToken(Some(scheme + ws + token + tail)) == Some(token)
  {
    var header := scheme + ws + token + tail;
    var j := 6 + |ws|;
    assert header[..6] == scheme;
    assert header[6..j] == ws;
    assert header[j..] == token + tail;
    assert NoLineTerminator(token + tail) by {
      forall i | 0 <= i < |token + tail|
        ensures !IsLineTerminator((token + tail)[i])
      {
        if i >= |token| {
          assert (token + tail)[i] == tail[i - |token|];
        }
      }
    }
    assert CaptureAt(header, j);
    assert LeadingWhitespace(token + tail) == 0;
    assert TrailingStart(token + tail) == |token| by {
      TrailingOfPadded(token, tail);
    }
    assert (token + tail)[..|token|] == token;
  }

  /** The same through the request headers: `authorization: Bearer <token>`
      gives the guard that token. */
  lemma AuthorizationHeaderRoundTrip(token: string)
    requires token != []
    requires !IsJsWhitespace(token[0]) && !IsJsWhitespace(token[|token| - 1])
    requires NoLineTerminator(token)
    ensures RequestToken(Some(map["authorization" := Str("Bearer " + token)])) == Some(token)
  {
    var headers := Some(map["authorization" := Str("Bearer " + token)]);
    assert GetHeader(headers, "authorization") == Some("Bearer " + token);
    BearerRoundTrip(token);
    assert RequestToken(headers) == ExtractBearerToken(Some("Bearer " + token));
  }

  /** The `jwt.*` values the gateway reads; `None` is `undefined`. */
  datatype GuardSettings = GuardSettings(issuer: Option<string>, audience: Option<string>,
                                         publicKeyBase64: Option<string>)

  /** `importSPKI` after base64 decoding (`None` when either throws), and
      `jwtVerify` with the expected issuer and audience (`None` when it
      throws: bad signature, wrong issuer or audience, expired, malformed). */
  datatype Verifier = Verifier(importSpki: string -> Option<CryptoKey>,
                               jwtVerify: (string, CryptoKey, string, string) -> Option<Claims>)

  const MissingToken := HttpError(Unauthorized, "Missing Bearer token")
  const IssuerNotConfigured := HttpError(InternalServerError, "JWT issuer not configured")
  const AudienceNotConfigured := HttpError(InternalServerError, "JWT audience not configured")
  const PublicKeyNotConfigured := HttpError(InternalServerError, "JWT public key not configured")
  const InvalidPublicKey := HttpError(InternalServerError, "Invalid JWT public key (jwt.publicKeyBase64)")
  const InvalidToken := HttpError(Unauthorized, "Invalid token")

  /** The name is already lower-case, so `getHeader` reads the one entry:
      a string there, or nothing. */
  lemma AuthorizationEntry(headers: Option<map<string, JsValue>>)
    ensures GetHeader(headers, "authorization")
            == if headers.Some? && "authorization" in headers.value && headers.value["authorization"].Str?
               then Some(headers.value["authorization"].s) else None
  {
    assert ToLower("authorization") == "authorization";
  }

  /** The token `canActivate` works with. */
  function RequestToken(headers: Option<map<string, JsValue>>): (r: Option<string>)
    ensures r.Some? <==> && headers.Some? && "authorization" in headers.value
                         && headers.value["authorization"].Str? && BearerForm(headers.value["authorization"].s)
    ensures r.Some? ==> forall j :: CaptureAt(headers.value["authorization"].s, j) ==>
                          r.value == Trim(headers.value["authorization"].s[j..])
  {
    AuthorizationEntry(headers);
    ExtractBearerToken(GetHeader(headers, "authorization"))
  }

  /** The decision of `canActivate` once the token is extracted: the
      verified payload, or the exception, checked in the source's order. */
  function Authorize(token: Option<string>, settings: GuardSettings, verifier: Verifier)
    : (r: Result<Claims, HttpError>)
    ensures token.None? || token == Some("") ==> r == Err(MissingToken)
    ensures r.Err? && r.error.status == Unauthorized ==> r.error == MissingToken || r.error == InvalidToken
    ensures r.Err? ==> r.error.status == Unauthorized || r.error.status == InternalServerError
    ensures r.Err? && r.error != MissingToken ==> token.Some? && token.value != ""
    ensures r == Err(AudienceNotConfigured) ==> Configured(settings.issuer)
    ensures r == Err(PublicKeyNotConfigured) ==> Configured(settings.issuer) && Configured(settings.audience)
    ensures r == Err(InvalidPublicKey) ==>
              Configured(settings.issuer) && Configured(settings.audience) && Configured(settings.publicKeyBase64)
    ensures r.Ok? <==>
              && token.Some? && token.value != ""
              && Configured(settings.issuer) && Configured(settings.audience) && Configured(settings.publicKeyBase64)
              && verifier.importSpki(settings.publicKeyBase64.value).Some?
              && verifier.jwtVerify(token.value, verifier.importSpki(settings.publicKeyBase64.value).value,
                                    settings.issuer.value, settings.audience.value).Some?
    ensures r.Ok? ==>
              Some(r.value) == verifier.jwtVerify(token.value, verifier.importSpki(settings.publicKeyBase64.value).value,
                                                  settings.issuer.value, settings.audience.value)
    ensures token.Some? && token.value != "" ==>
              && (!Configured(settings.issuer) ==> r == Err(IssuerNotConfigured))
              && (Configured(settings.issuer) && !Configured(settings.audience) ==> r == Err(AudienceNotConfigured))
              && (Configured(settings.issuer) && Configured(settings.audience) ==>
                    !Configured(settings.publicKeyBase64) ==> r == Err(PublicKeyNotConfigured))
    ensures token.Some? && token.value != ""
            && Configured(settings.issuer) && Configured(settings.audience) && Configured(settings.publicKeyBase64) ==>
              var key := verifier.importSpki(settings.publicKeyBase64.value);
              && (key.None? ==> r == Err(InvalidPublicKey))
              && (key.Some? ==>
                    verifier.jwtVerify(token.value, key.value, settings.issuer.value, settings.audience.value).None? ==>
                      r == Err(InvalidToken))
  {
    if token.None? || token.value == "" then Err(MissingToken)
    else if !Configured(settings.issuer) then Err(IssuerNotConfigured)
    else if !Configured(settings.audience) then Err(AudienceNotConfigured)
    else if !Configured(settings.publicKeyBase64) then Err(PublicKeyNotConfigured)
    else
      match verifier.importSpki(settings.publicKeyBase64.value)
      case None => Err(InvalidPublicKey)
      case Some(key) =>
        match verifier.jwtVerify(token.value, key, settings.issuer.value, settings.audience.value)
        case None => Err(InvalidToken)
        case Some(payload) => Ok(payload)
  }

  /** The request as the guard sees it: its headers, and `user`, which the
      guard sets on success. */
  class IncomingRequest {
    var headers: Option<map<string, JsValue>>
    var user: Option<Claims>

    constructor (headers: Option<map<string, JsValue>>)
      ensures this.headers == headers && user.None?
    {
      this.headers := headers;
      user := None;
    }
  }

  /** `canActivate`: `true` only after the verified payload is attached to
      the request; every failure leaves the request as it was. */
  method CanActivate(req: IncomingRequest, settings: GuardSettings, verifier: Verifier)
    returns (r: Result<bool, HttpError>)
    modifies req
    ensures req.headers == old(req.headers)
    ensures var d := Authorize(RequestToken(old(req.headers)), settings, verifier);
            && (d.Ok? ==> r == Ok(true) && req.user == Some(d.value))
            && (d.Err? ==> r == Err(d.error) && req.user == old(req.user))
  {
    var token := RequestToken(req.headers);
    var decision := Authorize(token, settings, verifier);
    match decision {
      case Err(e) =>
        r := Err(e);
      case Ok(payload) =>
        req.user := Some(payload);
        r := Ok(true);
    }
  }
}
