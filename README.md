# Identity boundary: a Dafny model

This project models the decision logic of a small identity system made of
four parts: a public HTTP gateway, an internal authentication service
reached over request-reply RPC, its user store, and a browser client.

- **User store** (`UsersRepo`). A class whose collection is a sequence of
  user documents. It looks users up by lower-cased email and inserts them
  under a unique email index. It lists them newest first, as a stable sort
  on `createdAt` that is proved to be a permutation.
- **Registrar** (`Users`). Registration lower-cases the email and pre-checks
  for an existing user. Then it hashes the password and inserts. An insert
  rejected by the unique index becomes the same `USER_EMAIL_EXISTS` error as
  the pre-check. Every other store error is rethrown unchanged. Registration
  is split into the pre-check and the commit, so the race between two
  requests that both pass the pre-check is a sequential interleaving of the
  two. The model proves that exactly one of N such requests wins.
- **Duplicate-key predicate** (`Users.IsDuplicateEmailMongoError`). It is
  modelled as written. If `keyPattern` or `keyValue` is a truthy primitive,
  the `in` operator throws a TypeError. The model keeps this, and
  registration then fails with that engine error (`Raised`). The database
  driver never produces such values, so it is not reported as a defect of
  the source.
- **Credential verifier** (`Auth`). Login answers an unknown email and a
  wrong password with one identical error. It issues a token only when the
  password matches. Registration followed by login with an email that
  differs only in letter case succeeds.
- **Token issuer** (`Tokens`). It checks issuer, audience, a positive TTL,
  the private key and the key import, in that order. Then it assembles the
  RFC 7519 claims and the RS256 header.
- **Gateway guard** (`Guard`). It extracts the credential with the
  `Bearer\s+(.+)` pattern, which accepts the scheme in any letter case, then
  trims it. It then runs the ordered ladder of 401 and 500 answers. The
  request's `user` is set only on success.
- **Gateway error mapper** (`GatewayAuth`). Each RPC failure becomes one of
  503, 409, 401 or 500. The error's code and message are each read from
  three possible places.
- **Configuration** (`Config`). This covers `Number.parseInt` in base 10
  with a fallback, and the environment defaults.
- **Web client** (`WebErrors`, `GatewayClient`, `WebAuthApi`,
  `TokenStorage`). This covers error-body parsing, request building and
  response classification, the auth API calls, and the one-key token store.

Cryptography, the clock, id generation and the network are parameters of
the model.

- bcrypt is a pair of functions. The one property used is
  `compare(p, hash(p, cost, salt))` (`Users.Sound`), and it is required only
  by the lemmas that need it.
- The `jose` key imports and `jwtVerify` are functions that return
  `None` where the library throws. Signing itself is not a function of the
  model: once the private key imports, the token is the header, the claims
  and the key.
- The RPC transport and `fetch` are functions from the request to its
  outcome.

The comment on the JWT block of `configuration()`
(config/configuration.ts:35) asks for explicit configuration with no
defaults, but the lines under it default every JWT setting to `""` or `0`.
Nothing fails at startup: the token issuer and the guard reject those
values on each request. The model follows the code, and
`Config.NoJwtDefaults` and `Config.GuardNeedsPublicKey` state the
consequence.

## Model

| member | source | states |
|---|---|---|
| UsersRepo.Lookup | apps/authentication/src/features/users/users.repository.ts:12 | the document found has exactly the queried email; none is found iff no document has it |
| UsersRepo.LookupFindsUnique | apps/authentication/src/features/users/users.repository.ts:12 | with unique emails, the lookup of a stored email returns that document |
| UsersRepo.Save | apps/authentication/src/features/users/users.repository.ts:15-21 | a store fault is thrown and the collection is unchanged; a taken email throws the unique index's E11000 error (code 11000, `keyPattern` and `keyValue` on `email`); otherwise the document with the lower-cased email and the unchanged hash is appended; normalised, unique emails stay so |
| UsersRepo.UsersRepository.FindByEmail | apps/authentication/src/features/users/users.repository.ts:11-13 | finds a stored document whose email is the lower-cased argument, none iff there is none, and the same for every case variant of the argument |
| UsersRepo.UsersRepository.CreateUser | apps/authentication/src/features/users/users.repository.ts:15-21 | the result and the new collection are those of `Save` on the old collection; the collection stays consistent |
| UsersRepo.SortNewestFirst | apps/authentication/src/features/users/users.repository.ts:24 | the sorted listing is a permutation of the collection |
| UsersRepo.InsertByAgeSorted | apps/authentication/src/features/users/users.repository.ts:24 | inserting into a newest-first sequence keeps it newest first |
| UsersRepo.SortNewestFirstSorted | apps/authentication/src/features/users/users.repository.ts:24 | the listing is ordered by `createdAt` descending, documents without it last |
| UsersRepo.UsersRepository.FindAll | apps/authentication/src/features/users/users.repository.ts:23-25 | returns every stored user exactly once (same multiset), newest first |
| UsersRepo.CreatedUserIsFound | apps/authentication/src/features/users/users.repository.ts:11-21 | after a successful insert, any case variant of the email finds the new document |
| Users.IsDuplicateEmailMongoError | apps/authentication/src/features/users/users.service.ts:64-83 | false unless `code` is the number 11000; true when `keyPattern` (or, when `keyPattern` does not throw, `keyValue`) has an `email` key; otherwise true iff the message string (`""` if not a string) contains "E11000" and "email"; throws a TypeError exactly when the code is 11000 and `keyPattern` is a truthy primitive, or `keyPattern` has no `email` key and `keyValue` is a truthy primitive |
| Users.DuplicateKeyErrorRecognised | apps/authentication/src/features/users/users.service.ts:73-80 | the error the unique index raises is recognised |
| Users.MessageOnlyDuplicateRecognised | apps/authentication/src/features/users/users.service.ts:82 | without structured key fields, any message that starts with "E11000" and later contains "email" is recognised |
| Users.StringCodeNotDuplicate | apps/authentication/src/features/users/users.service.ts:73 | the code as the string "11000" is not recognised, whatever the key fields say |
| Users.PrimitiveKeyPatternThrows | apps/authentication/src/features/users/users.service.ts:80 | a truthy string `keyPattern` makes the `in` test throw a TypeError |
| Users.ToUserView | apps/authentication/src/features/users/users.service.ts:55-61 | the public view keeps the id and email, and takes the stored `createdAt`, or the current time when there is none |
| Users.CommitSpec | apps/authentication/src/features/users/users.service.ts:31-47 | the collection after the commit is the one the insert leaves, and stays consistent |
| Users.CommitTakenEmail | apps/authentication/src/features/users/users.service.ts:34-43 | committing an email already stored in any letter case surfaces the unique index's rejection as exactly the pre-check's error and leaves the collection unchanged |
| Users.RegisterTakenEmail | apps/authentication/src/features/users/users.service.ts:18-27 | an email taken in any letter case is rejected with `USER_EMAIL_EXISTS`/"Email already exists" and nothing is inserted |
| Users.RegisterStoresNormalisedEmail | apps/authentication/src/features/users/users.service.ts:18-47 | a successful registration appends exactly one document with the lower-cased email and the cost-10 hash, and replies with id, email and timestamp only |
| Users.CommitFailureMapping | apps/authentication/src/features/users/users.service.ts:34-45 | a recognised duplicate becomes exactly the pre-check's error, an unrecognised store error is rethrown unchanged, a TypeError thrown by the duplicate test itself propagates, and the collection is unchanged |
| Users.RegisterTwice | apps/authentication/src/features/users/users.service.ts:17-48 | registering a case variant of a registered email is rejected with "Email already exists" |
| Users.CommitAllAfterWinner | apps/authentication/src/features/users/users.service.ts:34-43 | once the email is stored, every further commit of it is rejected with the pre-check's error and inserts nothing |
| Users.RaceExactlyOneWins | apps/authentication/src/features/users/users.service.ts:35-44 | of N attempts that all passed the pre-check, the first commit succeeds, all others get "Email already exists", and exactly one document is added |
| Users.UsersService.PreCheck | apps/authentication/src/features/users/users.service.ts:18-27 | returns the lower-cased email when no user has it, otherwise `EmailExistsError`, as the specification function says |
| Users.UsersService.Commit | apps/authentication/src/features/users/users.service.ts:29-47 | hashes with cost 10, inserts, and maps the failure as the specification function says; the collection stays consistent |
| Users.UsersService.Register | apps/authentication/src/features/users/users.service.ts:17-48 | the reply and the new collection are those of the pre-check followed by the commit |
| Users.UsersService.ListUsers | apps/authentication/src/features/users/users.service.ts:50-53 | one public view per stored user, in `findAll`'s order |
| Users.RegistrationRace | apps/authentication/src/features/users/users.service.ts:35-43 | two registrations of one email that both pass the pre-check: the first wins, the second is rejected with the pre-check's error, one document is added |
| Tokens.SignAccessToken | apps/authentication/src/features/auth/token.service.ts:9-49 | fails with the issuer, audience, TTL, private key and key-import errors in that order, each exactly when the earlier checks pass; succeeds iff all pass, with `sub`, `email`, `iss`, `aud`, `iat` = now, `exp` = `iat` + TTL > `iat`, `alg` RS256, signed with the imported key |
| Auth.Login | apps/authentication/src/features/auth/auth.service.ts:20-42 | unknown email gives `INVALID_CREDENTIALS`/"Invalid credentials"; every credential failure is that error; a token is requested iff the user exists and the password matches; success carries the token for the stored id and email and the public view; with matching credentials the call succeeds iff signing does, and a signing error is passed on as it is |
| Auth.UnknownEmailLikeWrongPassword | apps/authentication/src/features/auth/auth.service.ts:24-31 | an unknown email and a wrong password give identical results |
| Auth.RegisterThenLogin | apps/authentication/src/features/auth/auth.service.ts:20-42 | after registering, login with a case variant of the email and the same password passes the credential checks, and with a working token issuer returns the new user and a token for its id and email |
| Guard.GetHeader | apps/gateway/src/core/auth/jwt-auth.guard.ts:77-84 | only a string value is returned; when the exact key holds nothing the result is exactly the lower-cased key's value; a non-string value counts as absent |
| Guard.CaptureStart | apps/gateway/src/core/auth/jwt-auth.guard.ts:90 | the group starts after at least one and at most all of the leading whitespace, at a position whose non-empty remainder holds no line terminator, and no later position has that property; none iff no such position exists |
| Guard.MatchBearer | apps/gateway/src/core/auth/jwt-auth.guard.ts:90 | matches iff the header is "bearer" in any letter case, then at least one whitespace character, then a non-empty rest with no line terminator; the capture is that rest, taken at the latest start that works (greedy `\s+`) |
| Guard.CaptureTrimmed | apps/gateway/src/core/auth/jwt-auth.guard.ts:90-91 | whichever start of the group is taken, the trimmed capture is the same |
| Guard.ExtractBearerToken | apps/gateway/src/core/auth/jwt-auth.guard.ts:86-92 | a token iff the header is present, non-empty and of the bearer form; the token is the trimmed remainder after the scheme and whitespace, for every way of splitting them |
| Guard.LooseBearerHeader | apps/gateway/src/core/auth/jwt-auth.guard.ts:90-91 | the scheme in any letter case, any non-empty whitespace run and trailing whitespace give back the bare token |
| Guard.SchemeWithOnlyWhitespace | apps/gateway/src/core/auth/jwt-auth.guard.ts:90-91 | "Bearer" followed only by whitespace gives no token or `""` |
| Guard.BearerRoundTrip | apps/gateway/src/core/auth/jwt-auth.guard.ts:86-92 | `"Bearer " + t` gives back `t` for a non-empty `t` without surrounding whitespace or line breaks |
| Guard.AuthorizationEntry | apps/gateway/src/core/auth/jwt-auth.guard.ts:77-84 | for the lower-case name `authorization`, `getHeader` returns the string stored under it, and nothing when the entry is missing or not a string |
| Guard.RequestToken | apps/gateway/src/core/auth/jwt-auth.guard.ts:24-25 | a token iff the `authorization` entry is a string of the bearer form; the token is its trimmed remainder |
| Guard.AuthorizationHeaderRoundTrip | apps/gateway/src/core/auth/jwt-auth.guard.ts:24-25 | an `authorization` header `"Bearer " + t` gives the guard `t` |
| Guard.Authorize | apps/gateway/src/core/auth/jwt-auth.guard.ts:27-73 | a missing or empty token is 401 "Missing Bearer token" before any configuration is read; then, with a token, an unset or empty issuer, audience or public key, and a failed key import, each give their own 500, checked in that order; with all of them present, a failed verification gives 401 "Invalid token"; no other 401; success iff all checks pass, with the verified payload |
| Guard.CanActivate | apps/gateway/src/core/auth/jwt-auth.guard.ts:20-74 | returns true only after setting `user` to the verified payload; every failure leaves the request unchanged |
| GatewayAuth.MapServiceError | apps/gateway/src/features/auth/auth.service.ts:77-109 | a `TimeoutError` is 503 "timed out" whatever its code; otherwise an exception iff the first string code is `USER_EMAIL_EXISTS` (409) or `INVALID_CREDENTIALS` (401), carrying the first string message or the default; no code or `""` gives none |
| GatewayAuth.Forward | apps/gateway/src/features/auth/auth.service.ts:27-75 | a reply is returned unchanged; any ping failure is 503 "unavailable"; other failures are the mapped exception or 500 "Authentication service error" |
| GatewayAuth.ServiceErrorCrossesBoundary | apps/gateway/src/features/auth/auth.service.ts:86-108 | a ServiceError, bare or under `error`, reaches the caller with its code's status and its own message |
| GatewayAuth.TimeoutIsServiceUnavailable | apps/gateway/src/features/auth/auth.service.ts:80-84 | the timeout operator's error becomes 503 "Authentication service timed out" |
| GatewayAuth.UnrecognisedErrorIsInternal | apps/gateway/src/features/auth/auth.service.ts:45-49 | the framework's "Internal server error" reply becomes 500 "Authentication service error" |
| GatewayAuth.EmptyTopLevelCodeShadowsNested | apps/gateway/src/features/auth/auth.service.ts:86-96 | an empty string `code` is chosen over a nested code and then treated as no code |
| Config.ParseInt | config/configuration.ts:22 | a number is read iff a digit follows the leading whitespace and optional sign; a negative result needs a minus sign |
| Config.ParseSignedNumeral | config/configuration.ts:22 | an integer's decimal form, followed by any non-digit text, reads back as that integer |
| Config.ParseIntRoundTrip | config/configuration.ts:22 | the same after leading whitespace: `"42abc"` is 42, `"0x10"` is 0 |
| Config.ParseIntSignedDigits | config/configuration.ts:22 | whitespace, then an optional `+` or `-`, then digits, then text not starting with a digit reads as the digits' decimal value: `+` leaves it unchanged and `-` negates it |
| Config.AsInt | config/configuration.ts:21-24 | the parsed value, or the fallback when unset or unparsable |
| Config.AsIntFallback | config/configuration.ts:21-24 | unset, empty, or starting with a non-digit non-sign non-whitespace character gives the fallback |
| Config.Configuration | config/configuration.ts:26-45 | every text setting is its variable as set (even when empty), or its default when unset; every number setting is the integer its variable starts with, or its default when unset or not a number; the defaults are 3000, 127.0.0.1, 4001, `""` for each JWT text, 0 for the TTL and the local database URI |
| Config.EmptyEnvironmentDefaults | config/configuration.ts:26-45 | with nothing set: port 3000, host 127.0.0.1, port 4001, JWT strings empty, TTL 0, the local database URI |
| Config.PortSettings | config/configuration.ts:28-32 | a port written in decimal is used; an unset or unparsable one gives the default |
| Config.NoJwtDefaults | config/configuration.ts:34-41 | with no issuer set, signing fails with the issuer error; with issuer and audience set and no usable TTL, with the TTL error |
| Config.GuardNeedsPublicKey | config/configuration.ts:39 | with no public key set, the guard never succeeds |
| WebErrors.ParseGatewayError | apps/web/types/api/errors.ts:22-33 | an array message is joined (`""` for none, the item for one, every item contained); a string message is returned verbatim; otherwise a non-empty `error`; otherwise "An unexpected error occurred" |
| WebErrors.JoinContainsItem | apps/web/types/api/errors.ts:24 | every item appears in the joined text |
| WebErrors.MessagesJoinedInOrder | apps/web/types/api/errors.ts:23-25 | each further message follows the ones before it, behind ". " |
| WebErrors.TwoValidationMessages | apps/web/types/api/errors.ts:23-25 | two messages are shown as `a + ". " + b` |
| GatewayClient.BaseUrl | apps/web/lib/api/gatewayClient.ts:3-4 | the environment's base URL, or http://localhost:3000 when unset or empty |
| GatewayClient.BuildRequest | apps/web/lib/api/gatewayClient.ts:33-45 | URL is base plus endpoint; method defaults to GET; caller headers are kept and override `Content-Type: application/json`; no other header; the body is sent iff truthy |
| GatewayClient.NewGatewayApiError | apps/web/lib/api/gatewayClient.ts:9-17 | name "GatewayApiError", the given message and status code |
| GatewayClient.Classify | apps/web/lib/api/gatewayClient.ts:47-67 | data iff ok; non-JSON and not ok gives the status text or "Request failed"; non-JSON and ok gives undefined; a JSON `null` body on a failure throws a TypeError, and exactly then; any other JSON body on a failure gives the parsed error message; JSON and ok gives the data unchanged; the error carries the status |
| GatewayClient.GatewayFetch | apps/web/lib/api/gatewayClient.ts:29-67 | a rejected fetch propagates; a response is classified |
| GatewayClient.GatewayExceptionReachesClient | apps/web/lib/api/gatewayClient.ts:60-64 | a gateway exception's status and message reach the client's error unchanged |
| GatewayClient.ValidationFailureJoined | apps/web/lib/api/gatewayClient.ts:60-64 | a validation failure's two messages reach the client joined with ". " |
| WebAuthApi.RegisterUser | apps/web/lib/api/auth.ts:14-19 | POST /auth/register with the data as body |
| WebAuthApi.LoginUser | apps/web/lib/api/auth.ts:24-29 | POST /auth/login with the data as body |
| WebAuthApi.ListUsers | apps/web/lib/api/auth.ts:35-47 | GET /auth/users, with `Authorization: Bearer <token>` as the only header iff the stored token is non-null and non-empty |
| WebAuthApi.EmptyTokenIsNotSent | apps/web/lib/api/auth.ts:39-41 | a stored empty token counts as present, yet no header is sent and the guard sees no token |
| WebAuthApi.StoredTokenReachesGuard | apps/web/lib/api/auth.ts:40 | the guard recovers exactly the stored token from the header the client sends |
| TokenStorage.TokenStore.GetAccessToken | apps/web/lib/auth/tokenStorage.ts:14-17 | the value under "access_token" when there is a window, null otherwise |
| TokenStorage.TokenStore.HasAccessToken | apps/web/lib/auth/tokenStorage.ts:30-32 | true iff a token is stored, the empty string included |
| TokenStorage.TokenStore.SetAccessToken | apps/web/lib/auth/tokenStorage.ts:6-9 | with a window, "access_token" becomes the token and nothing else changes; without one, nothing changes |
| TokenStorage.TokenStore.ClearAccessToken | apps/web/lib/auth/tokenStorage.ts:22-25 | afterwards there is no token; only "access_token" is removed |
| TokenStorage.Session | apps/web/lib/auth/tokenStorage.ts:1-32 | a second login's token replaces the first, logging out leaves none, other entries are untouched |

## Left out

- Text.ToLower: lower-cases ASCII letters only. JavaScript's `toLowerCase` maps all of Unicode, so two emails that differ only in non-ASCII letter case are treated as distinct here.
- Cryptography: bcrypt, base64 decoding, PKCS#8 and SPKI import, signing and `jwtVerify` are parameters. Only `compare(p, hash(p))` is assumed, and only where it is stated. Expiry, issuer and audience checks happen inside the abstract verifier.
- Tokens.SignAccessToken: the result is the header, the claims and the signing key, not the compact serialised token string. `iat` and `exp` come from a single clock reading passed in. A rejection of jose's `.sign` is not modelled, because the signature is abstract, so signing always succeeds once the private key imports.
- Token error messages: the message text of each configuration `Error` is not modelled. It never leaves the authentication service: the gateway answers such a code-less failure with 500 "Authentication service error".
- Store reads: `findByEmail` and `findAll` never fail in the model. In the source they can reject, and `register`, `login` and `listUsers` pass that error on unchanged. Only the insert has a `fault` input.
- Users.ToUserView: `createdAt` is an integer instant, not its ISO string. `id` is a string given by the store, standing for `String(_id)`. The current time used as a fallback is an input.
- UsersRepo: the unique email index and the insert timestamp come from a schema file that is not part of this model. Uniqueness is the invariant `Consistent`, and every insert records `now`.
- UsersRepo.SortNewestFirst: documents with equal timestamps keep insertion order. The database does not promise any order for ties.
- Users.RaceExactlyOneWins: the race is modelled as a sequential order of commits, as the store serialises them. Real concurrency, retries and partial failures are not modelled.
- Users.UsersService.Commit: a store failure other than the unique index comes in as the `fault` input. Ids and salts are inputs too.
- GatewayAuth.Forward: the transport is a function from the call to its outcome. Time is not modelled. A timeout is the rejection with the `TimeoutError` value, so the 2000 ms and 5000 ms bounds are only recorded.
- GatewayClient.ErrorResponseView: a JSON error body that is an object is read as the declared interface (a `null` body is handled in `Classify`, where it throws). A `message` array with non-string items, and a truthy non-string `error`, are read as absent. At run time the first would be joined after string conversion, and the second returned as it is.
- GatewayClient.GatewayExceptionReachesClient: the body the framework sends for an exception is taken to be `{ message }`, as built from the object each exception is given.
- Config.ParseInt: uses unbounded integers. `parseInt` returns a double, so a digit string above 2^53 is rounded to the nearest double ("9007199254740993" gives 9007199254740992), while the model reads its exact value; a digit string so long that `parseInt` yields Infinity (and so the fallback) is likewise read exactly, and `-0` is read as 0.
- Guard.Verifier: the verified payload is the claims record the issuer produces. Claims of other shapes are not modelled.
- HTTP routing, controllers, message controllers, bootstrap, dependency injection, DTO validation rules and every React component are outside the core and are not modelled.
