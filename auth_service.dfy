/** The credential verifier: login by lower-cased email and password hash,
    one error for every way the credentials can be wrong, a token only on
    success. */
module Auth {
  import opened Wrappers
  import opened Text
  import opened JsValues
  import opened Errors
  import opened UsersRepo
  import opened Users
  import opened Tokens

  datatype LoginRequest = LoginRequest(email: string, password: string)

  datatype LoginReply = LoginReply(accessToken: SignedJwt, user: UserView)

  /** What `login` throws: the RpcException with the credentials error, or
      the token issuer's configuration error. */
  datatype LoginFailure = Denied(error: ServiceError) | TokenFailure(tokenError: TokenError)

  /** `login`, against the repository's current collection. */
  function Login(repo: UsersRepository, dto: LoginRequest, hasher: PasswordHasher, tokens: TokenService,
                 nowSeconds: int, now: int): (r: Result<LoginReply, LoginFailure>)
    reads repo
    ensures repo.FindByEmail(dto.email).None? ==> r == Err(Denied(InvalidCredentialsError))
    ensures r.Err? && r.error.Denied? ==> r.error.error == InvalidCredentialsError
    ensures r.Ok? || (r.Err? && r.error.TokenFailure?) <==>
              var user := repo.FindByEmail(dto.email);
              user.Some? && hasher.compare(dto.password, user.value.passwordHash)
    ensures r.Ok? ==>
              var user := repo.FindByEmail(dto.email).value;
              && SignAccessToken(tokens, TokenParams(user.id, user.email), nowSeconds) == Ok(r.value.accessToken)
              && r.value.user == ToUserView(user, now)
              && r.value.user.email == ToLower(dto.email)
    ensures var user := repo.FindByEmail(dto.email);
            user.Some? && hasher.compare(dto.password, user.value.passwordHash) ==>
              var t := SignAccessToken(tokens, TokenParams(user.value.id, user.value.email), nowSeconds);
              && (r.Ok? <==> t.Ok?)
              && (t.Err? ==> r == Err(TokenFailure(t.error)))
  {
    var email := ToLower(dto.email);
    ToLowerIdempotent(dto.email);
    var user := repo.FindByEmail(email);
    if user.None? then Err(Denied(InvalidCredentialsError))
    else if !hasher.compare(dto.password, user.value.passwordHash) then Err(Denied(InvalidCredentialsError))
    else
      match SignAccessToken(tokens, TokenParams(user.value.id, user.value.email), nowSeconds)
      case Err(e) => Err(TokenFailure(e))
      case Ok(token) => Ok(LoginReply(token, ToUserView(user.value, now)))
  }

  /** An unknown email and a wrong password are indistinguishable to the caller. */
  lemma UnknownEmailLikeWrongPassword(repo: UsersRepository, unknown: LoginRequest, wrong: LoginRequest,
                                      hasher: PasswordHasher, tokens: TokenService, nowSeconds: int, now: int)
    requires repo.FindByEmail(unknown.email).None?
    requires repo.FindByEmail(wrong.email).Some?
    requires !hasher.compare(wrong.password, repo.FindByEmail(wrong.email).value.passwordHash)
    ensures Login(repo, unknown, hasher, tokens, nowSeconds, now) == Login(repo, wrong, hasher, tokens, nowSeconds, now)
  {
  }

  /** Register then log in with the same password and an email that differs
      only in letter case: the credentials are accepted, and with a token
      service able to sign, the reply carries a token for the new user. */
  lemma {:induction false} RegisterThenLogin(repo: UsersRepository, docs: seq<UserRecord>, reg: RegisterRequest,
                                             hasher: PasswordHasher, salt: string, id: string, createdAt: int,
                                             loginEmail: string, tokens: TokenService, nowSeconds: int, now: int)
    requires Sound(hasher)
    requires Consistent(docs)
    requires RegisterSpec(docs, reg, hasher, salt, id, createdAt, None).outcome.Ok?
    requires repo.docs == RegisterSpec(docs, reg, hasher, salt, id, createdAt, None).docs
    requires SameIgnoringCase(loginEmail, reg.email)
    ensures var r := Login(repo, LoginRequest(loginEmail, reg.password), hasher, tokens, nowSeconds, now);
            && (r.Ok? || r.error.TokenFailure?)
            && (CanSign(tokens) ==>
                  && r.Ok?
                  && r.value.user == UserView(id, ToLower(reg.email), createdAt)
                  && r.value.accessToken.claims.sub == id
                  && r.value.accessToken.claims.email == ToLower(reg.email))
  {
    RegisterStoresNormalisedEmail(docs, reg, hasher, salt, id, createdAt, None);
    var hash := hasher.hash(reg.password, SaltRounds, salt);
    CreatedUserIsFound(docs, ToLower(reg.email), hash, id, createdAt, loginEmail);
    ToLowerIdempotent(reg.email);
    assert repo.FindByEmail(loginEmail) == Some(UserRecord(id, ToLower(reg.email), hash, Some(createdAt)));
    assert hasher.compare(reg.password, hash);
  }
}
