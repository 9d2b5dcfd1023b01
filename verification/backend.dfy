/** The backend as a whole: one request in, one response out, with the
    global validation pipe in front of the controller and the collection
    carried from request to request. */
module Backend {
  import opened JsText
  import opened Outcomes
  import opened UserSchema
  import opened AuthService
  import opened AuthController
  import CreateUserDto
  import SignInDto

  datatype Request =
    | SignUpRequest(signUpBody: CreateUserDto.CreateUser)
    | SignInRequest(signInBody: SignInDto.SignIn)
    | AuthValidateRequest(authorization: Option<JsString>)

  /** The collaborators the backend cannot see: bcrypt and JWT, the email
      syntax check, the token verifier behind the guard, and the salt bcrypt
      draws for the document that will receive a given identifier. */
  datatype Env = Env(
    crypto: Crypto,
    isEmail: JsString -> bool,
    verify: JsString -> bool,
    saltFor: ObjectId -> Salt)

  datatype Exchange = Exchange(response: Response, store: Store)

  /** Serve one request. Only a valid signup writes; every answer carries
      the status its endpoint documents, plus 400 from the validation pipe. */
  function Handle(s: Store, req: Request, env: Env): (x: Exchange)
    ensures !req.SignUpRequest? ==> x.store == s
    ensures req.SignUpRequest? ==> x.response.status == StatusCreated || x.response.status == StatusBadRequest
    ensures req.SignInRequest? ==> x.response.status in {StatusOk, StatusBadRequest, StatusUnauthorized}
    ensures req.AuthValidateRequest? ==> x.response.status == StatusOk || x.response.status == StatusUnauthorized
    ensures x.store != s ==> req.SignUpRequest? && x.response.status == StatusCreated
  {
    match req
    case SignUpRequest(dto) =>
      var v := CreateUserDto.Violations(dto, env.isEmail);
      if v != {} then
        Exchange(Response(StatusBadRequest, ValidationBody(CreateUserDto.Messages(v))), s)
      else
        var step := SignUp(s, dto.email, dto.name, dto.password, env.crypto, env.saltFor(s.nextId));
        Exchange(SignUpResponse(step.outcome), step.store)
    case SignInRequest(dto) =>
      var v := SignInDto.Violations(dto, env.isEmail);
      if v != {} then
        Exchange(Response(StatusBadRequest, ValidationBody(SignInDto.Messages(v))), s)
      else
        var validated := FromService(ValidateUser(s, dto.email, dto.password, env.crypto));
        Exchange(SignInResponse(validated, u => SignIn(u, env.crypto)), s)
    case AuthValidateRequest(header) =>
      Exchange(AuthValidateResponse(env.verify, header), s)
  }

  /** Signup's effect on a well-formed collection: it stays well-formed and
      keeps every document it had. */
  lemma FreshSignUpKeepsStore(s: Store, email: JsString, name: JsString, password: JsString, c: Crypto, salt: Salt)
    ensures var r := SignUp(s, email, name, password, c, salt);
      && (r.store != s ==> r.outcome.Success?)
      && (Valid(s) ==> Valid(r.store))
      && (Valid(s) ==> forall e | e in s.records :: e in r.store.records && r.store.records[e] == s.records[e])
  {
    if Valid(s) && email !in s.records {
      FreshSignUpAddsOneRecord(s, email, name, password, c, salt);
    }
  }

  /** The collection after serving a sequence of requests in order. */
  function Run(s: Store, reqs: seq<Request>, env: Env): Store
    decreases |reqs|
  {
    if |reqs| == 0 then s else Run(Handle(s, reqs[0], env).store, reqs[1..], env)
  }

  /** The number of signup requests in a sequence. */
  function SignUps(reqs: seq<Request>): nat {
    if |reqs| == 0 then 0 else (if reqs[0].SignUpRequest? then 1 else 0) + SignUps(reqs[1..])
  }

  /** Every document an earlier collection had, a later one still has,
      unaltered. */
  ghost predicate KeepsDocuments(s: Store, t: Store) {
    forall e | e in s.records :: e in t.records && t.records[e] == s.records[e]
  }

  /** A request keeps a well-formed collection well-formed and keeps every
      document it had. */
  lemma HandleKeepsInvariant(s: Store, req: Request, env: Env)
    requires Valid(s)
    ensures Valid(Handle(s, req, env).store)
    ensures KeepsDocuments(s, Handle(s, req, env).store)
  {
    if req.SignUpRequest? {
      var dto := req.signUpBody;
      FreshSignUpKeepsStore(s, dto.email, dto.name, dto.password, env.crypto, env.saltFor(s.nextId));
    }
  }

  /** Over any run a well-formed collection stays well-formed. */
  lemma {:induction false} RunKeepsValid(s: Store, reqs: seq<Request>, env: Env)
    requires Valid(s)
    ensures Valid(Run(s, reqs, env))
    decreases |reqs|
  {
    if |reqs| > 0 {
      HandleKeepsInvariant(s, reqs[0], env);
      RunKeepsValid(Handle(s, reqs[0], env).store, reqs[1..], env);
    }
  }

  /** Over any run no document is ever removed or altered. */
  lemma {:induction false} RunKeepsDocuments(s: Store, reqs: seq<Request>, env: Env)
    requires Valid(s)
    ensures KeepsDocuments(s, Run(s, reqs, env))
    decreases |reqs|
  {
    if |reqs| > 0 {
      HandleKeepsInvariant(s, reqs[0], env);
      RunKeepsDocuments(Handle(s, reqs[0], env).store, reqs[1..], env);
    }
  }

  /** Over any run the collection grows by at most one document per signup
      request. */
  lemma {:induction false} RunGrowsByAtMostSignUps(s: Store, reqs: seq<Request>, env: Env)
    requires Valid(s)
    ensures |Run(s, reqs, env).records| <= |s.records| + SignUps(reqs)
    decreases |reqs|
  {
    if |reqs| > 0 {
      HandleKeepsInvariant(s, reqs[0], env);
      HandleGrowsByAtMostOne(s, reqs[0], env);
      RunGrowsByAtMostSignUps(Handle(s, reqs[0], env).store, reqs[1..], env);
    }
  }

  /** One request adds at most one document, and only a signup adds any. */
  lemma HandleGrowsByAtMostOne(s: Store, req: Request, env: Env)
    requires Valid(s)
    ensures var t := Handle(s, req, env).store;
      |t.records| <= |s.records| + (if req.SignUpRequest? then 1 else 0)
  {
    var t := Handle(s, req, env).store;
    if req.SignUpRequest? && t != s {
      var dto := req.signUpBody;
      FreshSignUpAddsOneRecord(s, dto.email, dto.name, dto.password, env.crypto, env.saltFor(s.nextId));
    }
  }

  /** A sequence of signin and probe requests leaves the collection exactly
      as it was. */
  lemma {:induction false} ReadOnlyRunsChangeNothing(s: Store, reqs: seq<Request>, env: Env)
    requires forall i | 0 <= i < |reqs| :: !reqs[i].SignUpRequest?
    ensures Run(s, reqs, env) == s
    decreases |reqs|
  {
    if |reqs| > 0 {
      ReadOnlyRunsChangeNothing(s, reqs[1..], env);
    }
  }

  /** A signup the pipe refuses writes nothing and answers 400 with the
      messages of the reported failures (see `CreateUserDto.ReportedMessages`). */
  lemma RefusedSignUpMessages(s: Store, dto: CreateUserDto.CreateUser, env: Env)
    requires CreateUserDto.Violations(dto, env.isEmail) != {}
    ensures var x := Handle(s, SignUpRequest(dto), env);
      var v := CreateUserDto.Violations(dto, env.isEmail);
      && x.store == s
      && x.response == Response(StatusBadRequest, ValidationBody(CreateUserDto.Messages(v)))
      && CreateUserDto.Messages(v) != {}
  {
    var v := CreateUserDto.Violations(dto, env.isEmail);
    var c :| c in CreateUserDto.Reported(v);
    assert CreateUserDto.Message(c) in CreateUserDto.Messages(v);
  }
}
