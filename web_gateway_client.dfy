/** The web client's fetch wrapper: how a request to the gateway is built,
    and how the response becomes data or a `GatewayApiError`. `fetch` is a
    parameter mapping the request to a response or a rejection; whether the
    body parses as JSON is part of the response. */
module GatewayClient {
  import opened Wrappers
  import opened JsValues
  import opened HttpErrors
  import opened WebErrors

  const DefaultBaseUrl := "http://localhost:3000"

  /** `process.env.NEXT_PUBLIC_GATEWAY_BASE_URL || DefaultBaseUrl`: an empty
      value falls back too. */
  function BaseUrl(env: Option<string>): (r: string)
    ensures env.Some? && env.value != "" ==> r == env.value
    ensures env.None? || env.value == "" ==> r == DefaultBaseUrl
  {
    if env.Some? && env.value != "" then env.value else DefaultBaseUrl
  }

  datatype HttpMethod = GET | POST | PUT | DELETE | PATCH

  /** `RequestOptions` (`verb` is its `method`); `Undefined` is an absent body. */
  datatype RequestOptions = RequestOptions(verb: Option<HttpMethod>, body: JsValue,
                                           headers: Option<map<string, string>>)

  /** What `fetch` is given; the body is the value `JSON.stringify` serialises. */
  datatype FetchRequest = FetchRequest(url: string, verb: HttpMethod, headers: map<string, string>,
                                       body: Option<JsValue>)

  /** The request `gatewayFetch` sends. */
  function BuildRequest(baseUrlEnv: Option<string>, endpoint: string, options: RequestOptions): (r: FetchRequest)
    ensures r.url == BaseUrl(baseUrlEnv) + endpoint
    ensures options.verb.None? ==> r.verb == GET
    ensures options.verb.Some? ==> r.verb == options.verb.value
    ensures r.body.Some? <==> Truthy(options.body)
    ensures r.body.Some? ==> r.body.value == options.body
    ensures "Content-Type" in r.headers
    ensures options.headers.None? || "Content-Type" !in options.headers.value ==>
              r.headers["Content-Type"] == "application/json"
    ensures options.headers.Some? ==>
              forall k :: k in options.headers.value ==> k in r.headers && r.headers[k] == options.headers.value[k]
    ensures forall k :: k in r.headers && k != "Content-Type" ==> options.headers.Some? && k in options.headers.value
  {
    var callerHeaders := if options.headers.Some? then options.headers.value else map[];
    FetchRequest(BaseUrl(baseUrlEnv) + endpoint,
                 if options.verb.Some? then options.verb.value else GET,
                 map["Content-Type" := "application/json"] + callerHeaders,
                 if Truthy(options.body) then Some(options.body) else None)
  }

  /** The body, as `response.json()` found it. */
  datatype ResponseBody = NotJson | Json(data: JsValue)

  datatype FetchResponse = FetchResponse(ok: bool, status: int, statusText: string, body: ResponseBody)

  datatype FetchOutcome = Responded(response: FetchResponse) | Rejected(reason: JsValue)

  datatype GatewayApiError = GatewayApiError(name: string, message: string, statusCode: int)

  /** `new GatewayApiError(message, statusCode)` */
  function NewGatewayApiError(message: string, statusCode: int): (e: GatewayApiError)
    ensures e.name == "GatewayApiError" && e.message == message && e.statusCode == statusCode
  {
    GatewayApiError("GatewayApiError", message, statusCode)
  }

  /** What `gatewayFetch` resolves or rejects with: the data, its own error,
      the reason `fetch` rejected with, or an engine error thrown on the way. */
  datatype FetchResult = Data(value: JsValue) | ApiFailure(error: GatewayApiError) | NetworkFailure(reason: JsValue)
                       | Thrown(engineError: JsError)

  /** `data as GatewayErrorResponse`, read at run time: a string or an array
      of strings under `message`, a string under `error`, a number under
      `statusCode`. */
  function ErrorResponseView(data: JsValue): GatewayErrorResponse
  {
    var message := Get(data, "message");
    var error := Get(data, "error");
    var statusCode := Get(data, "statusCode");
    GatewayErrorResponse(
      if message.Str? then Single(message.s)
      else if message.Arr? && forall i :: 0 <= i < |message.items| ==> message.items[i].Str? then
        Lines(seq(|message.items|, i requires 0 <= i < |message.items| => message.items[i].s))
      else NoMessage,
      if statusCode.Num? && statusCode.n.Floor as real == statusCode.n then Some(statusCode.n.Floor) else None,
      if error.Str? then Some(error.s) else None)
  }

  /** How a response becomes the result. `parseGatewayError` reads
      `response.message` without `?.`, so a failed response whose JSON body
      is `null` makes it throw a TypeError. */
  function Classify(response: FetchResponse): (r: FetchResult)
    ensures !r.NetworkFailure?
    ensures r.Data? <==> response.ok
    ensures r.Thrown? <==> !response.ok && response.body.Json? && IsNullish(response.body.data)
    ensures r.Thrown? ==> r.engineError == TypeError
    ensures r.ApiFailure? ==> r.error.name == "GatewayApiError" && r.error.statusCode == response.status
    ensures response.body.NotJson? && !response.ok ==>
              r.error.message == if response.statusText != "" then response.statusText else "Request failed"
    ensures response.body.NotJson? && response.ok ==> r == Data(Undefined)
    ensures response.body.Json? && !response.ok && !IsNullish(response.body.data) ==>
              r.error.message == ParseGatewayError(ErrorResponseView(response.body.data))
    ensures response.body.Json? && response.ok ==> r == Data(response.body.data)
  {
    match response.body
    case NotJson =>
      if !response.ok then
        ApiFailure(NewGatewayApiError(if response.statusText != "" then response.statusText else "Request failed",
                                      response.status))
      else Data(Undefined)
    case Json(data) =>
      if response.ok then Data(data)
      else if IsNullish(data) then Thrown(TypeError)
      else ApiFailure(NewGatewayApiError(ParseGatewayError(ErrorResponseView(data)), response.status))
  }

  /** `gatewayFetch`: a rejected `fetch` propagates unchanged. */
  function GatewayFetch(baseUrlEnv: Option<string>, endpoint: string, options: RequestOptions,
                        fetch: FetchRequest -> FetchOutcome): (r: FetchResult)
    ensures var out := fetch(BuildRequest(baseUrlEnv, endpoint, options));
            && (out.Rejected? ==> r == NetworkFailure(out.reason))
            && (out.Responded? ==> r == Classify(out.response))
  {
    match fetch(BuildRequest(baseUrlEnv, endpoint, options))
    case Rejected(reason) => NetworkFailure(reason)
    case Responded(response) => Classify(response)
  }

  /** The body the gateway answers one of its exceptions with. */
  function ExceptionBody(e: HttpError): JsValue
  {
    Obj(map["message" := Str(e.message)])
  }

  /** The message and status of an exception the gateway throws reach the
      web client's error unchanged. */
  lemma GatewayExceptionReachesClient(e: HttpError, statusText: string)
    ensures Classify(FetchResponse(false, e.status, statusText, Json(ExceptionBody(e))))
            == ApiFailure(GatewayApiError("GatewayApiError", e.message, e.status))
  {
  }

  /** A validation failure's messages are joined in order. */
  lemma ValidationFailureJoined(a: string, b: string, statusText: string)
    ensures var body := Obj(map["statusCode" := Num(400.0), "message" := Arr([Str(a), Str(b)]),
                                "error" := Str("Bad Request")]);
            Classify(FetchResponse(false, 400, statusText, Json(body)))
            == ApiFailure(GatewayApiError("GatewayApiError", a + ". " + b, 400))
  {
    var body := Obj(map["statusCode" := Num(400.0), "message" := Arr([Str(a), Str(b)]),
                        "error" := Str("Bad Request")]);
    var view := ErrorResponseView(body);
    assert view.message == Lines([a, b]);
    TwoValidationMessages(a, b, view.statusCode, view.error);
  }
}
