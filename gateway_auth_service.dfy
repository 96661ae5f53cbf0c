/** The gateway's forwarding service: each operation is one request-reply
    exchange with the authentication service, bounded by a timeout, and
    every failure is translated into an HTTP exception. The transport is a
    parameter: it maps the call sent to what came back, a timeout being the
    rejection with rxjs's `TimeoutError`. */
module GatewayAuth {
  import opened Wrappers
  import opened JsValues
  import opened Errors
  import opened HttpErrors

  datatype Operation = Ping | RegisterUser | LoginUser | ListUsers

  /** The message pattern each operation is sent under. */
  function Pattern(op: Operation): string
  {
    match op
    case Ping => "system.ping"
    case RegisterUser => "auth.user.register"
    case LoginUser => "auth.user.login"
    case ListUsers => "auth.user.list"
  }

  /** Milliseconds the gateway waits for the first reply. */
  function TimeoutMs(op: Operation): nat
  {
    if op == Ping then 2000 else 5000
  }

  datatype RpcCall = RpcCall(pattern: string, payload: JsValue, timeoutMs: nat)

  /** The first value the reply stream emitted, or what it failed with. */
  datatype RpcOutcome = Replied(reply: JsValue) | Threw(error: JsValue)

  /** What the `timeout` operator fails with. */
  const TimeoutErrorValue := Obj(map["name" := Str("TimeoutError"), "message" := Str("Timeout has occurred")])

  const TimedOut := HttpError(ServiceUnavailable, "Authentication service timed out")
  const Unavailable := HttpError(ServiceUnavailable, "Authentication service is unavailable")
  const ServiceFailed := HttpError(InternalServerError, "Authentication service error")

  /** The first present string of three places, in order. */
  function FirstString(a: JsValue, b: JsValue, c: JsValue): (r: Option<string>)
    ensures a.Str? ==> r == Some(a.s)
    ensures !a.Str? && b.Str? ==> r == Some(b.s)
    ensures !a.Str? && !b.Str? ==> r == AsString(c)
  {
    if a.Str? then Some(a.s) else if b.Str? then Some(b.s) else AsString(c)
  }

  /** The error code, from `e.code`, `e.error.code` or `e.message.code`. */
  function ExtractCode(e: JsValue): Option<string>
  {
    FirstString(Get(e, "code"), Get(Get(e, "error"), "code"), Get(Get(e, "message"), "code"))
  }

  /** The error message, from `e.message`, `e.error.message` or `e.message.message`. */
  function ExtractMessage(e: JsValue): Option<string>
  {
    FirstString(Get(e, "message"), Get(Get(e, "error"), "message"), Get(Get(e, "message"), "message"))
  }

  /** The HTTP status each domain error code is answered with. */
  function StatusOf(c: ErrorCode): int
  {
    match c
    case UserEmailExists => Conflict
    case InvalidCredentials => Unauthorized
  }

  function DefaultMessage(c: ErrorCode): string
  {
    match c
    case UserEmailExists => EmailExistsError.message
    case InvalidCredentials => InvalidCredentialsError.message
  }

  /** The known code the error carries, if any. */
  function KnownCode(e: JsValue): Option<ErrorCode>
  {
    var code := ExtractCode(e);
    if code == Some(CodeName(UserEmailExists)) then Some(UserEmailExists)
    else if code == Some(CodeName(InvalidCredentials)) then Some(InvalidCredentials)
    else None
  }

  /** `mapServiceError`: the exception it throws, or `None` when it returns
      and leaves the caller to throw its generic error. */
  function MapServiceError(e: JsValue): (r: Option<HttpError>)
    ensures Get(e, "name") == Str("TimeoutError") ==> r == Some(TimedOut)
    ensures Get(e, "name") != Str("TimeoutError") ==> (r.Some? <==> KnownCode(e).Some?)
    ensures Get(e, "name") != Str("TimeoutError") && KnownCode(e).Some? ==>
              && r.value.status == StatusOf(KnownCode(e).value)
              && (ExtractMessage(e).Some? ==> r.value.message == ExtractMessage(e).value)
              && (ExtractMessage(e).None? ==> r.value.message == DefaultMessage(KnownCode(e).value))
    ensures r.Some? ==> r.value.status in {Unauthorized, Conflict, ServiceUnavailable}
    ensures ExtractCode(e) in {None, Some("")} ==> r.None? || r == Some(TimedOut)
  {
    if Get(e, "name") == Str("TimeoutError") then Some(TimedOut)
    else
      var code := ExtractCode(e);
      var message := ExtractMessage(e);
      if code.None? || code.value == "" then None
      else if code.value == CodeName(UserEmailExists) then
        Some(HttpError(Conflict, if message.Some? then message.value else "Email already exists"))
      else if code.value == CodeName(InvalidCredentials) then
        Some(HttpError(Unauthorized, if message.Some? then message.value else "Invalid credentials"))
      else None
  }

  /** The call each operation sends: ping and list carry an empty object,
      register and login the request body. */
  function CallFor(op: Operation, dto: JsValue): RpcCall
  {
    RpcCall(Pattern(op), if op == Ping || op == ListUsers then Obj(map[]) else dto, TimeoutMs(op))
  }

  /** `pingAuthenticationService`, `register`, `login` and `listUsers`: the
      reply unchanged, or the HTTP exception the failure becomes. */
  function Forward(op: Operation, dto: JsValue, transport: RpcCall -> RpcOutcome): (r: Result<JsValue, HttpError>)
    ensures var out := transport(CallFor(op, dto));
            && (out.Replied? <==> r.Ok?)
            && (out.Replied? ==> r.value == out.reply)
            && (out.Threw? && op == Ping ==> r == Err(Unavailable))
            && (out.Threw? && op != Ping && MapServiceError(out.error).Some? ==> r == Err(MapServiceError(out.error).value))
            && (out.Threw? && op != Ping && MapServiceError(out.error).None? ==> r == Err(ServiceFailed))
    ensures r.Err? ==> r.error.status in {Unauthorized, Conflict, InternalServerError, ServiceUnavailable}
    ensures r.Err? && r.error.status in {Unauthorized, Conflict} ==> op in {RegisterUser, LoginUser, ListUsers}
  {
    match transport(CallFor(op, dto))
    case Replied(reply) => Ok(reply)
    case Threw(e) =>
      if op == Ping then Err(Unavailable)
      else
        match MapServiceError(e)
        case Some(http) => Err(http)
        case None => Err(ServiceFailed)
  }

  /** A domain error reaches the caller with its status and its own message,
      whether it arrives as the error object itself or wrapped under `error`. */
  lemma ServiceErrorCrossesBoundary(se: ServiceError, op: Operation, dto: JsValue, transport: RpcCall -> RpcOutcome)
    requires op != Ping
    requires transport(CallFor(op, dto)) in {Threw(ToWire(se)), Threw(Obj(map["error" := ToWire(se)]))}
    ensures Forward(op, dto, transport) == Err(HttpError(StatusOf(se.code), se.message))
  {
    var e := transport(CallFor(op, dto)).error;
    assert KnownCode(e) == Some(se.code) by {
      assert CodeName(UserEmailExists) != CodeName(InvalidCredentials);
    }
  }

  /** A timeout of any operation but ping is answered with 503 "timed out". */
  lemma TimeoutIsServiceUnavailable(op: Operation, dto: JsValue, transport: RpcCall -> RpcOutcome)
    requires op != Ping
    requires transport(CallFor(op, dto)) == Threw(TimeoutErrorValue)
    ensures Forward(op, dto, transport) == Err(TimedOut)
  {
  }

  /** The framework's own error for an exception it does not recognise
      carries no code, and becomes the generic 500. */
  lemma UnrecognisedErrorIsInternal(op: Operation, dto: JsValue, transport: RpcCall -> RpcOutcome)
    requires op != Ping
    requires transport(CallFor(op, dto)) == Threw(Obj(map["status" := Str("error"), "message" := Str("Internal server error")]))
    ensures Forward(op, dto, transport) == Err(ServiceFailed)
  {
  }

  /** A string `code` at the top, even an empty one, hides a code nested
      under `error`: `??` only skips `undefined`. */
  lemma EmptyTopLevelCodeShadowsNested(se: ServiceError)
    ensures MapServiceError(Obj(map["code" := Str(""), "error" := ToWire(se)])) == None
  {
  }
}
