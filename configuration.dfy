/** The configuration factory: settings read from the environment, where
    ports fall back to defaults when they do not parse, while the JWT
    settings default to the empty string or 0, which the token issuer and
    the guard then reject. */
module Config {
  import opened Wrappers
  import opened Text
  import Tokens
  import Guard

  /** Length of the run of decimal digits that starts `s`. */
  function DigitRun(s: string): (k: nat)
    ensures k <= |s|
    ensures forall i :: 0 <= i < k ==> IsDigit(s[i])
    ensures k == |s| || !IsDigit(s[k])
  {
    if s == [] || !IsDigit(s[0]) then 0 else 1 + DigitRun(s[1..])
  }

  /** The value of the digits that start `body`; `None` when there are none. */
  function ParseDigits(body: string): (r: Option<nat>)
    ensures r.Some? <==> body != [] && IsDigit(body[0])
  {
    var k := DigitRun(body);
    if k == 0 then None else Some(DecimalValue(body[..k]))
  }

  /** The sign and digits `parseInt` reads once whitespace is skipped;
      `None` when no digit follows the optional sign. */
  function ParseSigned(t: string): (r: Option<int>)
    ensures var body := if t != [] && (t[0] == '-' || t[0] == '+') then t[1..] else t;
            r.Some? <==> body != [] && IsDigit(body[0])
    ensures r.Some? && r.value < 0 ==> t[0] == '-'
  {
    if t != [] && t[0] == '-' then
      match ParseDigits(t[1..])
      case None => None
      case Some(v) => Some(-(v as int))
    else if t != [] && t[0] == '+' then
      match ParseDigits(t[1..])
      case None => None
      case Some(v) => Some(v)
    else
      match ParseDigits(t)
      case None => None
      case Some(v) => Some(v)
  }

  /** `Number.parseInt(s, 10)`, with `None` for NaN: leading whitespace is
      skipped, one sign is accepted, and the longest run of digits after it
      is read; anything after the run is ignored. */
  function ParseInt(s: string): (r: Option<int>)
    ensures var t := s[LeadingWhitespace(s)..];
            var body := if t != [] && (t[0] == '-' || t[0] == '+') then t[1..] else t;
            r.Some? <==> body != [] && IsDigit(body[0])
    ensures r.Some? && r.value < 0 ==> s[LeadingWhitespace(s)] == '-'
  {
    ParseSigned(s[LeadingWhitespace(s)..])
  }

  /** `String(n)` for any integer. */
  function IntToString(n: int): (s: string)
    ensures s != [] && (s[0] == '-' || IsDigit(s[0]))
  {
    if n < 0 then "-" + NatToString(-n) else NatToString(n)
  }

  lemma {:induction false} DigitRunOfDigits(ds: string, rest: string)
    requires forall i :: 0 <= i < |ds| ==> IsDigit(ds[i])
    requires rest == [] || !IsDigit(rest[0])
    ensures DigitRun(ds + rest) == |ds|
  {
    if ds != [] {
      assert (ds + rest)[1..] == ds[1..] + rest;
      DigitRunOfDigits(ds[1..], rest);
    }
  }

  lemma {:induction false} LeadingWhitespaceOfPadding(ws: string, t: string)
    requires AllWhitespace(ws)
    requires t != [] && !IsJsWhitespace(t[0])
    ensures LeadingWhitespace(ws + t) == |ws|
  {
    if ws != [] {
      assert (ws + t)[1..] == ws[1..] + t;
      LeadingWhitespaceOfPadding(ws[1..], t);
    }
  }

  lemma ParseDigitsOfDigits(digits: string, rest: string)
    requires digits != [] && forall i :: 0 <= i < |digits| ==> IsDigit(digits[i])
    requires rest == [] || !IsDigit(rest[0])
    ensures ParseDigits(digits + rest) == Some(DecimalValue(digits))
  {
    DigitRunOfDigits(digits, rest);
    assert (digits + rest)[..|digits|] == digits;
  }

  lemma ParseSignedUnsigned(digits: string, rest: string)
    requires digits != [] && forall i :: 0 <= i < |digits| ==> IsDigit(digits[i])
    requires rest == [] || !IsDigit(rest[0])
    ensures ParseSigned(digits + rest) == Some(DecimalValue(digits))
  {
    ParseDigitsOfDigits(digits, rest);
    assert (digits + rest)[0] == digits[0];
  }

  lemma ParseSignedNegative(body: string, value: nat)
    requires ParseDigits(body) == Some(value)
    ensures ParseSigned("-" + body) == Some(-(value as int))
  {
    assert ("-" + body)[1..] == body;
  }

  lemma {:induction false} ParseSignedNumeral(n: int, rest: string)
    requires rest == [] || !IsDigit(rest[0])
    ensures ParseSigned(IntToString(n) + rest) == Some(n)
  {
    if n < 0 {
      ParseDigitsOfDigits(NatToString(-n), rest);
      DecimalValueOfNatToString(-n);
      ParseSignedNegative(NatToString(-n) + rest, -n);
      assert IntToString(n) + rest == "-" + (NatToString(-n) + rest);
    } else {
      ParseSignedUnsigned(NatToString(n), rest);
      DecimalValueOfNatToString(n);
    }
  }

  lemma ParseSignedPositive(body: string, value: nat)
    requires ParseDigits(body) == Some(value)
    ensures ParseSigned("+" + body) == Some(value)
  {
    assert ("+" + body)[1..] == body;
  }

  /** Whitespace in front of a numeral is skipped. */
  lemma ParseIntOfSigned(ws: string, t: string, value: int)
    requires AllWhitespace(ws)
    requires ParseSigned(t) == Some(value)
    ensures ParseInt(ws + t) == Some(value)
  {
    assert t[0] == '-' || t[0] == '+' || IsDigit(t[0]);
    LeadingWhitespaceOfPadding(ws, t);
    assert (ws + t)[|ws|..] == t;
  }

  lemma ParseIntMinusDigits(ws: string, body: string, value: nat)
    requires AllWhitespace(ws)
    requires ParseDigits(body) == Some(value)
    ensures ParseInt(ws + ("-" + body)) == Some(-(value as int))
  {
    ParseSignedNegative(body, value);
    ParseIntOfSigned(ws, "-" + body, -(value as int));
  }

  lemma ParseIntPlusDigits(ws: string, body: string, value: nat)
    requires AllWhitespace(ws)
    requires ParseDigits(body) == Some(value)
    ensures ParseInt(ws + ("+" + body)) == Some(value as int)
  {
    ParseSignedPositive(body, value);
    ParseIntOfSigned(ws, "+" + body, value);
  }

  lemma ParseIntBareDigits(ws: string, body: string, value: nat)
    requires AllWhitespace(ws)
    requires ParseDigits(body) == Some(value)
    ensures ParseInt(ws + ("" + body)) == Some(value as int)
  {
    assert "" + body == body;
    assert ParseSigned(body) == Some(value);
    ParseIntOfSigned(ws, body, value);
  }

  lemma Regroup(ws: string, sign: string, ds: string, rest: string)
    ensures ws + sign + ds + rest == ws + (sign + (ds + rest))
  {
  }

  /** Every numeral `parseInt` accepts: leading whitespace, an optional
      sign, digits, then anything that does not start with a digit. A `+`
      changes nothing and a `-` negates. */
  lemma ParseIntSignedDigits(ws: string, sign: string, ds: string, rest: string)
    requires AllWhitespace(ws)
    requires sign == "" || sign == "+" || sign == "-"
    requires ds != [] && forall i :: 0 <= i < |ds| ==> IsDigit(ds[i])
    requires rest == [] || !IsDigit(rest[0])
    ensures ParseInt(ws + sign + ds + rest) == Some(if sign == "-" then -(DecimalValue(ds) as int) else DecimalValue(ds))
  {
    Regroup(ws, sign, ds, rest);
    ParseDigitsOfDigits(ds, rest);
    var value := DecimalValue(ds);
    if sign == "" {
      ParseIntBareDigits(ws, ds + rest, value);
    } else if sign == "+" {
      ParseIntPlusDigits(ws, ds + rest, value);
    } else {
      ParseIntMinusDigits(ws, ds + rest, value);
      assert value >= 0;
    }
  }

  /** Parsing gives back any integer written in decimal, whatever whitespace
      precedes it and whatever non-digit follows it (so `"42abc"` reads as
      42, `"0x10"` as 0 and `" 8080 "` as 8080). */
  lemma {:induction false} ParseIntRoundTrip(ws: string, n: int, rest: string)
    requires AllWhitespace(ws)
    requires rest == [] || !IsDigit(rest[0])
    ensures ParseInt(ws + IntToString(n) + rest) == Some(n)
  {
    var t := IntToString(n) + rest;
    assert ws + IntToString(n) + rest == ws + t;
    LeadingWhitespaceOfPadding(ws, t);
    assert (ws + t)[|ws|..] == t;
    ParseSignedNumeral(n, rest);
  }

  /** `asInt`: the parsed value, or the fallback when the variable is unset
      or does not start with a number. */
  function AsInt(value: Option<string>, fallback: int): (r: int)
    ensures value.None? ==> r == fallback
    ensures value.Some? && ParseInt(value.value).None? ==> r == fallback
    ensures value.Some? && ParseInt(value.value).Some? ==> r == ParseInt(value.value).value
  {
    var n := ParseInt(if value.Some? then value.value else "");
    if n.Some? then n.value else fallback
  }

  /** An unset or empty variable, or one that starts with no number, gives
      the fallback. */
  lemma AsIntFallback(value: Option<string>, fallback: int)
    requires value.None? || value == Some("") || (value.value != [] && !IsJsWhitespace(value.value[0])
                                                 && value.value[0] != '-' && value.value[0] != '+'
                                                 && !IsDigit(value.value[0]))
    ensures AsInt(value, fallback) == fallback
  {
    if value.Some? && value.value != [] {
      LeadingWhitespaceOfPadding("", value.value);
      assert "" + value.value == value.value;
    }
  }

  datatype GatewaySettings = GatewaySettings(httpPort: int)
  datatype AuthSettings = AuthSettings(tcpHost: string, tcpPort: int)
  datatype JwtConfig = JwtConfig(issuer: string, audience: string, accessTokenTtlSeconds: int,
                                 publicKeyBase64: string, privateKeyBase64: string)
  datatype MongoSettings = MongoSettings(uri: string)

  datatype AppConfiguration = AppConfiguration(gateway: GatewaySettings, auth: AuthSettings,
                                               jwt: JwtConfig, mongo: MongoSettings)

  type Environment = map<string, string>

  /** `process.env[key] ?? fallback`: a variable set to the empty string stays empty. */
  function EnvOr(env: Environment, key: string, fallback: string): string
  {
    if key in env then env[key] else fallback
  }

  function EnvValue(env: Environment, key: string): Option<string>
  {
    if key in env then Some(env[key]) else None
  }

  const DefaultHttpPort := 3000
  const DefaultTcpHost := "127.0.0.1"
  const DefaultTcpPort := 4001
  const DefaultMongoUri := "mongodb://127.0.0.1:27017/authentication"

  /** A text setting: the variable's value as set, even when empty; the
      default only when it is unset. */
  predicate TextSetting(env: Environment, key: string, fallback: string, v: string)
  {
    (key in env ==> v == env[key]) && (key !in env ==> v == fallback)
  }

  /** A numeric setting: the integer the variable starts with; the default
      when it is unset or starts with no integer. */
  predicate NumberSetting(env: Environment, key: string, fallback: int, v: int)
  {
    if key in env && ParseInt(env[key]).Some? then v == ParseInt(env[key]).value else v == fallback
  }

  /** `configuration()` over a snapshot of the environment. */
  function Configuration(env: Environment): (c: AppConfiguration)
    ensures NumberSetting(env, "GATEWAY_HTTP_PORT", DefaultHttpPort, c.gateway.httpPort)
    ensures TextSetting(env, "AUTH_TCP_HOST", DefaultTcpHost, c.auth.tcpHost)
    ensures NumberSetting(env, "AUTH_TCP_PORT", DefaultTcpPort, c.auth.tcpPort)
    ensures TextSetting(env, "JWT_ISSUER", "", c.jwt.issuer)
    ensures TextSetting(env, "JWT_AUDIENCE", "", c.jwt.audience)
    ensures NumberSetting(env, "JWT_ACCESS_TOKEN_TTL_SECONDS", 0, c.jwt.accessTokenTtlSeconds)
    ensures TextSetting(env, "JWT_PUBLIC_KEY_BASE64", "", c.jwt.publicKeyBase64)
    ensures TextSetting(env, "JWT_PRIVATE_KEY_BASE64", "", c.jwt.privateKeyBase64)
    ensures TextSetting(env, "MONGO_URI", DefaultMongoUri, c.mongo.uri)
  {
    AppConfiguration(
      GatewaySettings(AsInt(EnvValue(env, "GATEWAY_HTTP_PORT"), DefaultHttpPort)),
      AuthSettings(EnvOr(env, "AUTH_TCP_HOST", DefaultTcpHost), AsInt(EnvValue(env, "AUTH_TCP_PORT"), DefaultTcpPort)),
      JwtConfig(EnvOr(env, "JWT_ISSUER", ""), EnvOr(env, "JWT_AUDIENCE", ""),
                AsInt(EnvValue(env, "JWT_ACCESS_TOKEN_TTL_SECONDS"), 0),
                EnvOr(env, "JWT_PUBLIC_KEY_BASE64", ""), EnvOr(env, "JWT_PRIVATE_KEY_BASE64", "")),
      MongoSettings(EnvOr(env, "MONGO_URI", DefaultMongoUri)))
  }

  /** With nothing set: ports and host take their defaults, and every JWT
      value is empty or zero. */
  lemma EmptyEnvironmentDefaults()
    ensures Configuration(map[]) ==
              AppConfiguration(GatewaySettings(3000), AuthSettings("127.0.0.1", 4001),
                               JwtConfig("", "", 0, "", ""),
                               MongoSettings("mongodb://127.0.0.1:27017/authentication"))
  {
    AsIntFallback(None, DefaultHttpPort);
    AsIntFallback(None, DefaultTcpPort);
    AsIntFallback(None, 0);
  }

  /** What the token issuer reads through the configuration service. */
  function IssuerSettings(c: AppConfiguration): Tokens.JwtSettings
  {
    Tokens.JwtSettings(Some(c.jwt.issuer), Some(c.jwt.audience), Some(c.jwt.accessTokenTtlSeconds),
                       Some(c.jwt.privateKeyBase64))
  }

  /** What the guard reads through the configuration service. */
  function GuardSettingsOf(c: AppConfiguration): Guard.GuardSettings
  {
    Guard.GuardSettings(Some(c.jwt.issuer), Some(c.jwt.audience), Some(c.jwt.publicKeyBase64))
  }

  /** Ports: a variable that parses is used as written, an unset or
      unparsable one gives the default. */
  lemma PortSettings(env: Environment, n: int)
    ensures "GATEWAY_HTTP_PORT" in env && env["GATEWAY_HTTP_PORT"] == IntToString(n) ==>
              Configuration(env).gateway.httpPort == n
    ensures "AUTH_TCP_PORT" !in env || ParseInt(env["AUTH_TCP_PORT"]).None? ==>
              Configuration(env).auth.tcpPort == DefaultTcpPort
  {
    if "GATEWAY_HTTP_PORT" in env && env["GATEWAY_HTTP_PORT"] == IntToString(n) {
      ParseIntRoundTrip("", n, "");
      assert "" + IntToString(n) + "" == IntToString(n);
    }
  }

  /** No secret has a working default: with the JWT variables unset the
      issuer refuses to sign, and with issuer and audience set but the TTL
      unset or unparsable it refuses for want of a TTL. */
  lemma NoJwtDefaults(env: Environment, tokens: Tokens.TokenService, params: Tokens.TokenParams, nowSeconds: int)
    ensures "JWT_ISSUER" !in env && tokens.settings == IssuerSettings(Configuration(env)) ==>
              Tokens.SignAccessToken(tokens, params, nowSeconds) == Err(Tokens.MissingIssuer)
    ensures && "JWT_ISSUER" in env && env["JWT_ISSUER"] != ""
            && "JWT_AUDIENCE" in env && env["JWT_AUDIENCE"] != ""
            && ("JWT_ACCESS_TOKEN_TTL_SECONDS" !in env || ParseInt(env["JWT_ACCESS_TOKEN_TTL_SECONDS"]).None?)
            && tokens.settings == IssuerSettings(Configuration(env))
            ==> Tokens.SignAccessToken(tokens, params, nowSeconds) == Err(Tokens.InvalidTtl)
  {
  }

  /** With the public key unset, the guard answers every request that
      carries a token with a configuration error, never with success. */
  lemma GuardNeedsPublicKey(env: Environment, token: Option<string>, verifier: Guard.Verifier)
    requires "JWT_PUBLIC_KEY_BASE64" !in env
    ensures Guard.Authorize(token, GuardSettingsOf(Configuration(env)), verifier).Err?
  {
  }
}
