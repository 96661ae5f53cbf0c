/** The web client's calls to the gateway's auth endpoints, as the request
    each one hands to `gatewayFetch`. */
module WebAuthApi {
  import opened Wrappers
  import opened Text
  import opened JsValues
  import opened GatewayClient
  import opened TokenStorage
  import Guard

  datatype ApiCall = ApiCall(endpoint: string, options: RequestOptions)

  /** `registerUser` */
  function RegisterUser(data: JsValue): (c: ApiCall)
    ensures c.endpoint == "/auth/register" && c.options.verb == Some(POST) && c.options.body == data
  {
    ApiCall("/auth/register", RequestOptions(Some(POST), data, None))
  }

  /** `loginUser` */
  function LoginUser(data: JsValue): (c: ApiCall)
    ensures c.endpoint == "/auth/login" && c.options.verb == Some(POST) && c.options.body == data
  {
    ApiCall("/auth/login", RequestOptions(Some(POST), data, None))
  }

  const BearerPrefix := "Bearer "

  /** `listUsers`: the stored token goes into `Authorization` only when it
      is neither null nor empty. */
  function ListUsers(store: TokenStore): (c: ApiCall)
    reads store
    ensures c.endpoint == "/auth/users" && c.options.verb == Some(GET) && c.options.body == Undefined
    ensures c.options.headers.Some?
    ensures var token := store.GetAccessToken();
            "Authorization" in c.options.headers.value <==> token.Some? && token.value != ""
    ensures "Authorization" in c.options.headers.value ==>
              c.options.headers.value == map["Authorization" := BearerPrefix + store.GetAccessToken().value]
    ensures "Authorization" !in c.options.headers.value ==> c.options.headers.value == map[]
  {
    var token := store.GetAccessToken();
    var headers := if token.Some? && token.value != "" then map["Authorization" := BearerPrefix + token.value]
                   else map[];
    ApiCall("/auth/users", RequestOptions(Some(GET), Undefined, Some(headers)))
  }

  /** A stored empty token counts as present for `hasAccessToken`, yet
      `listUsers` sends no credential, so the gateway sees a request
      without a token. */
  lemma EmptyTokenIsNotSent(store: TokenStore)
    requires store.hasWindow && TokenKey in store.local && store.local[TokenKey] == ""
    ensures store.HasAccessToken()
    ensures ListUsers(store).options.headers == Some(map[])
    ensures Guard.RequestToken(Some(map[])) == None
  {
  }

  /** The header `listUsers` builds, received under its lower-cased name as
      HTTP header names are case-insensitive (section 5.1 of RFC 9110),
      yields to the guard exactly the token that was stored, when the token
      has no surrounding whitespace and no line break. */
  lemma {:induction false} StoredTokenReachesGuard(store: TokenStore, baseUrlEnv: Option<string>)
    requires store.GetAccessToken().Some?
    requires var t := store.GetAccessToken().value;
             && t != []
             && !IsJsWhitespace(t[0]) && !IsJsWhitespace(t[|t| - 1])
             && NoLineTerminator(t)
    ensures var call := ListUsers(store);
            var sent := BuildRequest(baseUrlEnv, call.endpoint, call.options);
            && "Authorization" in sent.headers
            && Guard.RequestToken(Some(map["authorization" := Str(sent.headers["Authorization"])]))
               == store.GetAccessToken()
  {
    var t := store.GetAccessToken().value;
    var call := ListUsers(store);
    var sent := BuildRequest(baseUrlEnv, call.endpoint, call.options);
    assert sent.headers["Authorization"] == BearerPrefix + t;
    Guard.AuthorizationHeaderRoundTrip(t);
  }
}
