/** The sign-in HTTP handler (internal/handlers/signin/http.go), reduced to the
    decision it takes: which status, which message or body, and which token
    header. Decoding the request body, writing to the response and the clock are
    outside; the request arrives already decoded (None when decoding failed),
    the use case and the token signer arrive as functions. */
module SignInHandler {
  import opened Results
  import opened Domain
  import Repositories
  import Usecases
  import Bcrypt

  const StatusOK: int := 200
  const StatusBadRequest: int := 400
  const StatusForbidden: int := 403
  const StatusInternalServerError: int := 500

  const InvalidRequest: string := "Invalid request"
  const InvalidCredentials: string := "Invalid credentials"
  const UnexpectedError: string := "An unexpected error ocurred, please try again later"

  /** Durations in nanoseconds, as Go's `time.Duration` counts them. */
  const Second: int := 1000000000
  const Minute: int := 60 * Second
  const Day: int := 24 * 60 * Minute
  /** The token lifetime the handler adds to the current time: 43200 minutes. */
  const TokenLifetime: int := 43200 * Minute

  datatype SignInRequest = SignInRequest(family: string, email: string, password: string)

  /** `isValid`: family, email and password are all non-empty. */
  predicate IsValid(r: SignInRequest)
    ensures !IsValid(r) <==> "" in {r.family, r.email, r.password}
  {
    r.email != "" && r.password != "" && r.family != ""
  }

  /** A claim value: the expiry is a time, the others are text. */
  datatype Claim = TimeClaim(instant: int) | TextClaim(text: string)

  /** The claims of a token, keyed by claim name. */
  type Claims = map<string, Claim>

  /** The claims `generateJWT` sets on a token that starts with none: exactly
      the expiry, 30 days after `now`, and the user's family and email. */
  function BuildClaims(user: User, now: int): (c: Claims)
    ensures c.Keys == {"exp", "family", "email"}
    ensures c["exp"] == TimeClaim(now + 30 * Day)
    ensures c["family"] == TextClaim(user.family) && c["email"] == TextClaim(user.email)
  {
    map["exp" := TimeClaim(now + TokenLifetime), "family" := TextClaim(user.family), "email" := TextClaim(user.email)]
  }

  /** HS256 signing of a claim set with a secret, left abstract; it may fail. */
  type Signer = (Claims, string) -> Result<string>

  /** `generateJWT`: signs the user's claims with the secret read from the
      environment; a signing error is returned as is. */
  function GenerateJWT(user: User, now: int, secret: string, sign: Signer): (r: Result<string>)
    ensures r == sign(map["exp" := TimeClaim(now + 30 * Day), "family" := TextClaim(user.family),
                          "email" := TextClaim(user.email)], secret)
  {
    sign(BuildClaims(user, now), secret)
  }

  /** The use case's SignIn as the handler calls it: family, email, password. */
  type SignInPort = (string, string, string) -> Result<User>

  /** The body written to the response. */
  datatype Body = ErrorBody(message: string) | UserBody(family: string, email: string, name: string)

  /** Status, the X-Jwt-Token header if one is set, and the body. */
  datatype Response = Response(status: int, token: Option<string>, body: Body)

  /** `HTTPHandler.SignIn`: a request that did not decode or is not valid is a 400
      and the use case is not asked; a use-case error of any kind is a 403; a
      signing error is a 500; otherwise a 200 with the token in the header and
      only family, email and name in the body. */
  function HandleSignIn(decoded: Option<SignInRequest>, signIn: SignInPort, now: int, secret: string, sign: Signer)
    : (resp: Response)
    ensures resp.status in {StatusOK, StatusBadRequest, StatusForbidden, StatusInternalServerError}
    ensures resp.status == StatusBadRequest <==> decoded.None? || !IsValid(decoded.value)
    ensures resp.status == StatusBadRequest ==> resp == Response(StatusBadRequest, None, ErrorBody(InvalidRequest))
    ensures resp.status == StatusForbidden <==>
              decoded.Some? && IsValid(decoded.value)
              && signIn(decoded.value.family, decoded.value.email, decoded.value.password).Err?
    ensures resp.status == StatusForbidden ==> resp == Response(StatusForbidden, None, ErrorBody(InvalidCredentials))
    ensures resp.status == StatusInternalServerError ==> resp.token == None && resp.body == ErrorBody(UnexpectedError)
    ensures resp.status == StatusOK ==>
              var user := signIn(decoded.value.family, decoded.value.email, decoded.value.password);
              user.Ok?
              && sign(BuildClaims(user.value, now), secret).Ok?
              && resp.token == Some(sign(BuildClaims(user.value, now), secret).value)
              && resp.body == UserBody(user.value.family, user.value.email, user.value.name)
    ensures resp.status == StatusInternalServerError <==>
              decoded.Some? && IsValid(decoded.value)
              && signIn(decoded.value.family, decoded.value.email, decoded.value.password).Ok?
              && sign(BuildClaims(signIn(decoded.value.family, decoded.value.email, decoded.value.password).value, now),
                      secret).Err?
  {
    if decoded.None? || !IsValid(decoded.value) then
      Response(StatusBadRequest, None, ErrorBody(InvalidRequest))
    else
      var req := decoded.value;
      match signIn(req.family, req.email, req.password)
      case Err(_) => Response(StatusForbidden, None, ErrorBody(InvalidCredentials))
      case Ok(user) =>
        match GenerateJWT(user, now, secret, sign)
        case Err(_) => Response(StatusInternalServerError, None, ErrorBody(UnexpectedError))
        case Ok(token) => Response(StatusOK, Some(token), UserBody(user.family, user.email, user.name))
  }

  /** A request rejected as invalid gets the same answer whatever the use case,
      the clock, the secret or the signer would do: none of them is consulted. */
  lemma InvalidRequestConsultsNothing(decoded: Option<SignInRequest>, signIn1: SignInPort, signIn2: SignInPort,
                                      now1: int, now2: int, secret1: string, secret2: string, sign1: Signer, sign2: Signer)
    requires decoded.None? || !IsValid(decoded.value)
    ensures HandleSignIn(decoded, signIn1, now1, secret1, sign1) == HandleSignIn(decoded, signIn2, now2, secret2, sign2)
  {
  }

  /** End to end over the in-memory repository: a user who signed up with a
      working random source and signs in with the same family, email and password
      gets a 200 with the signed token and the body {family, email, name}. */
  lemma SignedUpUserGetsToken(digest: Bcrypt.Digest, kvs: map<string, string>, salt: Bcrypt.EncodedSalt,
                              id: string, email: string, name: string, password: string,
                              now: int, secret: string, sign: Signer)
    requires id != "" && email != "" && password != ""
    requires sign(map["exp" := TimeClaim(now + TokenLifetime), "family" := TextClaim(id), "email" := TextClaim(email)],
                  secret).Ok?
    ensures NewUserHashingPassword(digest, Ok(salt), id, email, name, password).Returned?
    ensures var stored := Repositories.Put(kvs, NewUserHashingPassword(digest, Ok(salt), id, email, name, password).result);
            HandleSignIn(Some(SignInRequest(id, email, password)),
                         (f, e, p) => Usecases.SignInDecision(digest, Repositories.Find(stored, f, e), p),
                         now, secret, sign)
              == Response(StatusOK,
                          Some(sign(map["exp" := TimeClaim(now + TokenLifetime), "family" := TextClaim(id),
                                        "email" := TextClaim(email)], secret).value),
                          UserBody(id, email, name))
  {
    Usecases.SignUpThenSignIn(digest, kvs, salt, id, email, name, password);
    var u := NewUserHashingPassword(digest, Ok(salt), id, email, name, password).result;
    assert BuildClaims(u, now)
        == map["exp" := TimeClaim(now + TokenLifetime), "family" := TextClaim(id), "email" := TextClaim(email)];
  }
}
