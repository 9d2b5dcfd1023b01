/** The HTTP face of the engine: how each service outcome becomes a status
    code and a body, and the session guard in front of the probe endpoint. */
module AuthController {
  import opened JsText
  import opened Outcomes
  import opened UserSchema
  import opened AuthService

  const StatusOk := 200
  const StatusCreated := 201
  const StatusBadRequest := 400
  const StatusUnauthorized := 401

  /** The JSON bodies the backend sends. */
  datatype Body =
    | TokenBody(token: AccessToken)           // { access_token }
    | MessageBody(message: string)            // { message }
    | ErrorBody(error: string)                // { error }
    | ValidationBody(messages: set<string>)   // the validation pipe's list of messages
    | GuardRejection                          // the guard's own 401 body

  datatype Response = Response(status: int, body: Body)

  /** What the signin handler sees from `validateUser`: a user, a falsy value,
      or a thrown error. */
  datatype Validated = Found(user: User) | Falsy | Threw(error: Error)

  /** The real service resolves to a user or throws; it never resolves falsy. */
  function FromService(r: Result<User, Error>): (v: Validated)
    ensures !v.Falsy?
    ensures v.Found? <==> r.Success?
  {
    match r
    case Success(u) => Found(u)
    case Failure(e) => Threw(e)
  }

  /** `POST /auth/signup`: 201 with the service's result, or 400 with the
      message of whatever the service threw. */
  function SignUpResponse(outcome: Result<AccessToken, Error>): (r: Response)
    ensures r.status == StatusCreated || r.status == StatusBadRequest
    ensures r.status == StatusCreated <==> outcome.Success?
    ensures outcome.Success? ==> r.body == TokenBody(outcome.value)
    ensures outcome.Failure? ==> r.body == MessageBody(outcome.error.message)
  {
    match outcome
    case Success(result) => Response(StatusCreated, TokenBody(result))
    case Failure(e) => Response(StatusBadRequest, MessageBody(e.message))
  }

  /** `POST /auth/signin`: 200 with `signIn(user)` when a user came back,
      401 `{ error }` when a falsy value came back, 401 `{ message }` when
      something was thrown. `signIn` is consulted only on the first path. */
  function SignInResponse(v: Validated, signIn: User -> AccessToken): (r: Response)
    ensures r.status == StatusOk || r.status == StatusUnauthorized
    ensures r.status == StatusOk <==> v.Found?
    ensures v.Found? ==> r.body == TokenBody(signIn(v.user))
    ensures v.Falsy? ==> r.body == ErrorBody("Invalid credentials")
    ensures v.Threw? ==> r.body == MessageBody(v.error.message)
  {
    match v
    case Found(user) => Response(StatusOk, TokenBody(signIn(user)))
    case Falsy => Response(StatusUnauthorized, ErrorBody("Invalid credentials"))
    case Threw(e) => Response(StatusUnauthorized, MessageBody(e.message))
  }

  /** On the two failure paths the answer does not depend on the signer at
      all, so signing never happens there. */
  lemma FailedSignInNeverSigns(v: Validated, f: User -> AccessToken, g: User -> AccessToken)
    requires !v.Found?
    ensures SignInResponse(v, f) == SignInResponse(v, g)
  {
  }

  /** The scheme prefix of a bearer credential. */
  const BearerScheme: JsString := Units("Bearer ")

  /** The token of an `Authorization: Bearer <token>` header, if the header is
      present and carries that scheme. */
  function BearerCredential(header: Option<JsString>): (t: Option<JsString>)
    ensures t.Some? ==> header.Some? && header.value == BearerScheme + t.value
    ensures header.None? ==> t.None?
  {
    if header.Some? && |BearerScheme| <= |header.value| && header.value[..|BearerScheme|] == BearerScheme
    then Some(header.value[|BearerScheme|..])
    else None
  }

  /** The session guard: pass only a request whose bearer token `verify`
      accepts (signature and expiry live inside `verify`). */
  predicate GuardAccepts(verify: JsString -> bool, header: Option<JsString>): (ok: bool)
    ensures ok <==> exists t :: header == Some(BearerScheme + t) && verify(t)
  {
    match BearerCredential(header)
    case Some(t) => verify(t)
    case None => false
  }

  /** `GET /auth/auth-validate`: the handler runs only when the guard
      accepts, and then answers 200 "Authenticated"; otherwise the guard
      answers 401. */
  function AuthValidateResponse(verify: JsString -> bool, header: Option<JsString>): (r: Response)
    ensures r.status == StatusOk <==> GuardAccepts(verify, header)
    ensures r.status == StatusOk ==> r.body == MessageBody("Authenticated")
    ensures r.status != StatusOk ==> r == Response(StatusUnauthorized, GuardRejection)
  {
    if GuardAccepts(verify, header) then Response(StatusOk, MessageBody("Authenticated"))
    else Response(StatusUnauthorized, GuardRejection)
  }

  /** The signin answer the real service produces: a wrong password, like
      an unknown email, is 401 `{ message: "Invalid credentials" }`, and the
      `{ error }` body is never produced. */
  lemma ServiceSignInAnswers(s: Store, email: JsString, pass: JsString, c: Crypto)
    ensures var r := SignInResponse(FromService(ValidateUser(s, email, pass, c)), u => SignIn(u, c));
      && r.body != ErrorBody("Invalid credentials")
      && (r.status == StatusOk <==> email in s.records && c.compare(pass, s.records[email].password))
      && (r.status == StatusOk ==> r.body == TokenBody(SignIn(s.records[email], c)))
      && (r.status != StatusOk ==> r == Response(StatusUnauthorized, MessageBody("Invalid credentials")))
  {
  }
}
