/** The client and the backend together: the token cookie the pages write
    and remove, the bearer credential the interceptor builds and the guard
    reads back, and the render decision of the protected route. */
module Session {
  import opened JsText
  import opened Outcomes
  import opened UserSchema
  import opened AuthService
  import opened AuthController
  import opened Backend
  import opened AxiosInstance
  import opened PrivateRoute
  import CreateUserDto
  import SignInDto
  import SignUpSchema

  /** What happens to the `token` cookie: the signup and signin pages store
      the returned access token, logout removes it. */
  datatype SlotEvent = Stored(token: JsString) | Removed

  function Apply(slot: Option<JsString>, ev: SlotEvent): (r: Option<JsString>)
    ensures r.Some? <==> ev.Stored?
    ensures r.Some? ==> r.value == ev.token
  {
    match ev
    case Stored(t) => Some(t)
    case Removed => None
  }

  /** The cookie after a sequence of page events, oldest first. */
  function ApplyAll(slot: Option<JsString>, evs: seq<SlotEvent>): Option<JsString>
    decreases |evs|
  {
    if |evs| == 0 then slot else ApplyAll(Apply(slot, evs[0]), evs[1..])
  }

  /** Each write replaces the cookie outright, so after any non-empty
      sequence of events the cookie is decided by the last one alone. */
  lemma {:induction false} LastEventDecides(slot: Option<JsString>, evs: seq<SlotEvent>)
    requires |evs| > 0
    ensures ApplyAll(slot, evs) == Apply(None, evs[|evs| - 1])
    decreases |evs|
  {
    if |evs| > 1 {
      LastEventDecides(Apply(slot, evs[0]), evs[1..]);
    }
  }

  /** The probe request the protected route sends before any header is set. */
  const ProbeConfig := Config("GET", "/auth/auth-validate", map[])

  /** The Authorization header of a request, as the backend receives it. */
  function AuthorizationOf(cfg: Config): Option<JsString> {
    if AuthorizationHeader in cfg.headers then Some(cfg.headers[AuthorizationHeader]) else None
  }

  /** The backend answering the probe with the collection `s`. */
  function Server(s: Store, env: Env): Config -> int {
    cfg => Handle(s, AuthValidateRequest(AuthorizationOf(cfg)), env).response.status
  }

  /** What the protected route shows once its probe, sent with the given
      cookie, has settled. */
  function ProbeView(s: Store, env: Env, cookie: Option<JsString>): View {
    Render(Settle(ProbeOk(Send(ProbeConfig, cookie, Server(s, env)).outcome)))
  }

  /** The view is the same with the 401 handler wired as the program wires
      it: the route looks only at whether the probe resolved. */
  lemma ProbeViewAsWired(s: Store, env: Env, cookie: Option<JsString>)
    ensures Render(Settle(ProbeOk(SendAsWritten(ProbeConfig, cookie, Server(s, env)).outcome))) ==
              ProbeView(s, env, cookie)
  {
    SendDiffersOnlyInRedirect(ProbeConfig, cookie, Server(s, env));
  }

  /** The guard reads back exactly the token the interceptor attached. */
  lemma BearerRoundTrip(t: JsString)
    ensures BearerCredential(Some(BearerHeader(t))) == Some(t)
  {
    var h := BearerHeader(t);
    assert h[..|BearerScheme|] == BearerScheme;
    assert h[|BearerScheme|..] == t;
  }

  /** The protected page is shown exactly when a non-empty token is stored
      and the backend's verifier accepts it; otherwise the route redirects to
      sign-in. */
  lemma ProbeDecision(s: Store, env: Env, cookie: Option<JsString>)
    ensures ProbeView(s, env, cookie) ==
              if Truthy(cookie) && env.verify(cookie.value) then Protected else Redirect(SignInPath)
  {
    var sent := AttachToken(ProbeConfig, cookie);
    if Truthy(cookie) {
      BearerRoundTrip(cookie.value);
      assert AuthorizationOf(sent) == Some(BearerHeader(cookie.value));
    } else {
      assert AuthorizationOf(sent) == None;
    }
  }

  /** After logout the route redirects to sign-in, whatever was stored. */
  lemma LoggedOutIsRedirected(s: Store, env: Env, slot: Option<JsString>)
    ensures ProbeView(s, env, Apply(slot, Removed)) == Redirect(SignInPath)
  {
    ProbeDecision(s, env, None);
  }

  /** The verifier accepts every token the signer issues, and none is empty. */
  ghost predicate IssuedTokensVerify(env: Env) {
    forall cl :: env.crypto.sign(cl) != [] && env.verify(env.crypto.sign(cl))
  }

  /** A valid signup for a fresh email answers 201 with a token; storing that
      token opens the protected page, and without a token the route
      redirects to sign-in. */
  lemma SignUpThenProbe(s: Store, env: Env, dto: CreateUserDto.CreateUser)
    requires CreateUserDto.Violations(dto, env.isEmail) == {}
    requires dto.email !in s.records
    requires IssuedTokensVerify(env)
    ensures var x := Handle(s, SignUpRequest(dto), env);
      && x.response.status == StatusCreated
      && x.response.body.TokenBody?
      && ProbeView(x.store, env, Apply(None, Stored(x.response.body.token.access_token))) == Protected
      && ProbeView(x.store, env, None) == Redirect(SignInPath)
  {
    var x := Handle(s, SignUpRequest(dto), env);
    var t := x.response.body.token.access_token;
    assert t == env.crypto.sign(Claims(dto.email, s.nextId));
    ProbeDecision(x.store, env, Some(t));
    ProbeDecision(x.store, env, None);
  }

  /** The signup body `a@b.com` / `A` / `Abcdef1!` passes the validation
      pipe whenever the email check accepts the address. */
  lemma ExampleSignUpIsValid(isEmail: JsString -> bool)
    requires isEmail(Units("a@b.com"))
    ensures CreateUserDto.Violations(CreateUserDto.CreateUser(Units("a@b.com"), Units("A"), Units("Abcdef1!")), isEmail) == {}
  {
    UnitsArePlain("Abcdef1!");
    var p := Units("Abcdef1!");
    assert IsAsciiLetter(p[0]) && IsAsciiDigit(p[6]) && !IsAsciiAlnum(p[7]);
  }

  /** A signup the client's form accepts, with the password `Ab1!` followed by
      two U+1F600, is refused by the validation pipe with the length message
      alone, and nothing is written. */
  lemma EmojiPasswordSignUpIsRefused(s: Store, env: Env, zodEmail: JsString -> bool)
    requires env.isEmail(Units("a@b.com")) && zodEmail(Units("a@b.com"))
    ensures var p := SignUpSchema.SmileyPassword;
      var x := Handle(s, SignUpRequest(CreateUserDto.CreateUser(Units("a@b.com"), Units("A"), p)), env);
      && SignUpSchema.Issues(SignUpSchema.Form(Units("a@b.com"), Units("A"), p), zodEmail) == {}
      && x.response == Response(StatusBadRequest, ValidationBody({CreateUserDto.Message(CreateUserDto.PasswordMinLength)}))
      && x.store == s
  {
    SignUpSchema.ClientAcceptsServerRejects();
    var p := SignUpSchema.SmileyPassword;
    var dto := CreateUserDto.CreateUser(Units("a@b.com"), Units("A"), p);
    var v := CreateUserDto.Violations(dto, env.isEmail);
    assert v * CreateUserDto.PasswordConstraints == {CreateUserDto.PasswordMinLength};
    assert CreateUserDto.EmailFormat !in v && CreateUserDto.NameNotEmpty !in v;
    assert v == {CreateUserDto.PasswordMinLength};
    assert CreateUserDto.Reported(v) == v;
    assert CreateUserDto.Messages(v) == {CreateUserDto.Message(CreateUserDto.PasswordMinLength)};
  }

  /** A well-formed signin with the wrong password for a registered email
      answers 401 `{ message: "Invalid credentials" }`, the same answer as
      for an unknown email, and writes nothing. */
  lemma WrongPasswordIsUnauthorized(s: Store, env: Env, email: JsString, password: JsString)
    requires |email| > 0 && env.isEmail(email) && |password| > 0
    requires email !in s.records || !env.crypto.compare(password, s.records[email].password)
    ensures var x := Handle(s, SignInRequest(SignInDto.SignIn(email, password)), env);
      && x.response == Response(StatusUnauthorized, MessageBody("Invalid credentials"))
      && x.store == s
  {
    ServiceSignInAnswers(s, email, password, env.crypto);
  }
}
