/** The client's shared HTTP instance: a request interceptor that attaches
    the stored token as a bearer credential, and an error handler that sends
    the browser to the sign-in page on a 401 and always passes the error on. */
module AxiosInstance {
  import opened JsText
  import opened Outcomes

  const AuthorizationHeader := "Authorization"

  /** The sign-in route's path. */
  const SignInPath := "/signin"

  /** The parts of a request configuration the interceptor can see. */
  datatype Config = Config(verb: string, url: string, headers: map<string, JsString>)

  /** `Bearer ${token}`. */
  function BearerHeader(token: JsString): JsString {
    Units("Bearer ") + token
  }

  /** `if (token)`: a stored, non-empty cookie value. */
  predicate Truthy(cookie: Option<JsString>) {
    cookie.Some? && cookie.value != []
  }

  /** The request interceptor, given the value of the `token` cookie. Only the
      Authorization header can change, and only when a non-empty token is
      stored; then it carries exactly that token as a bearer credential. */
  function AttachToken(config: Config, cookie: Option<JsString>): (r: Config)
    ensures !Truthy(cookie) ==> r == config
    ensures r.verb == config.verb && r.url == config.url
    ensures r.headers.Keys == config.headers.Keys + (if Truthy(cookie) then {AuthorizationHeader} else {})
    ensures forall h | h in config.headers && h != AuthorizationHeader :: r.headers[h] == config.headers[h]
    ensures Truthy(cookie) ==> r.headers[AuthorizationHeader] == BearerHeader(cookie.value)
  {
    if Truthy(cookie) then config.(headers := config.headers[AuthorizationHeader := BearerHeader(cookie.value)])
    else config
  }

  /** Attaching twice with the same cookie is attaching once. */
  lemma AttachIsIdempotent(config: Config, cookie: Option<JsString>)
    ensures AttachToken(AttachToken(config, cookie), cookie) == AttachToken(config, cookie)
  {
  }

  /** An axios error: the status of the response, when there was one. */
  datatype AxiosError = AxiosError(responseStatus: Option<int>)

  /** What the error handler does: where it sends the browser, if anywhere,
      and the error its returned promise rejects with. */
  datatype Rejection = Rejection(navigateTo: Option<string>, error: AxiosError)

  /** The error handler: redirect to sign-in iff the response status is 401,
      and reject with the original error whatever the status. */
  function OnRejected(err: AxiosError): (r: Rejection)
    ensures r.error == err
    ensures r.navigateTo.Some? <==> err.responseStatus == Some(401)
    ensures r.navigateTo.Some? ==> r.navigateTo.value == SignInPath
  {
    Rejection(if err.responseStatus == Some(401) then Some(SignInPath) else None, err)
  }

  /** axios's default `validateStatus`: a 2xx answer resolves, anything else
      rejects. */
  predicate IsSuccessStatus(status: int) {
    200 <= status < 300
  }

  /** One request end to end: the configuration that went out, how the
      caller's promise settles, and where the browser was sent. */
  datatype Delivery = Delivery(sent: Config, outcome: Result<int, AxiosError>, navigateTo: Option<string>)

  /** A request as the instance is wired: the error handler is the request
      interceptor's rejection handler, which only sees a rejection from an
      earlier request step. The only step before it is the initial config,
      which never rejects, so a failed response reaches the caller without
      passing through the handler. `respond` is the server. */
  function SendAsWritten(config: Config, cookie: Option<JsString>, respond: Config -> int): (d: Delivery)
    ensures d.navigateTo.None?
    ensures d.sent == AttachToken(config, cookie)
    ensures d.outcome.Success? <==> IsSuccessStatus(respond(d.sent))
  {
    var sent := AttachToken(config, cookie);
    var status := respond(sent);
    if IsSuccessStatus(status) then Delivery(sent, Success(status), None)
    else Delivery(sent, Failure(AxiosError(Some(status))), None)
  }

  /** A 401 from the server does not redirect as wired. */
  lemma UnauthorizedResponseIsNotRedirected(config: Config, cookie: Option<JsString>)
    ensures var d := SendAsWritten(config, cookie, _ => 401);
      d.outcome == Failure(AxiosError(Some(401))) && d.navigateTo == None
  {
  }

  /** A request with the handler where it evidently belongs, on the response
      side: a failed response is passed through it, so a 401 anywhere sends
      the browser to sign-in and the caller still sees the original error. */
  function Send(config: Config, cookie: Option<JsString>, respond: Config -> int): (d: Delivery)
    ensures d.sent == AttachToken(config, cookie)
    ensures d.outcome.Success? <==> IsSuccessStatus(respond(d.sent))
    ensures d.outcome.Failure? ==> d.outcome.error == AxiosError(Some(respond(d.sent)))
    ensures d.navigateTo.Some? <==> respond(d.sent) == 401
    ensures d.navigateTo.Some? ==> d.navigateTo.value == SignInPath
  {
    var sent := AttachToken(config, cookie);
    var status := respond(sent);
    if IsSuccessStatus(status) then Delivery(sent, Success(status), None)
    else
      var handled := OnRejected(AxiosError(Some(status)));
      Delivery(sent, Failure(handled.error), handled.navigateTo)
  }

  /** Moving the handler changes only the redirect: the request sent and
      the caller's outcome are the same as wired. */
  lemma SendDiffersOnlyInRedirect(config: Config, cookie: Option<JsString>, respond: Config -> int)
    ensures Send(config, cookie, respond).sent == SendAsWritten(config, cookie, respond).sent
    ensures Send(config, cookie, respond).outcome == SendAsWritten(config, cookie, respond).outcome
  {
  }
}
