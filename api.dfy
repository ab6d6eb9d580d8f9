/**
 * The request pipeline of src/utils/api.js: a request stage that adds the
 * session's bearer token and the page's CSRF token to the outgoing headers,
 * a response stage that classifies failures and forces a logout on 401, and
 * `apiService`, which turns every outcome into a `{data, error}` record and
 * never throws. The network is a parameter: a function from the request
 * that was sent to its outcome.
 */
module Api {
  import opened JsValues

  /** The part of the session store the pipeline uses: the token and `logout()`. */
  class Session {
    var token: Option<string>

    constructor (token: Option<string>)
      ensures this.token == token
    {
      this.token := token;
    }

    /** `logout()`: the session no longer holds a token. */
    method Logout()
      modifies this
      ensures token == None
    {
      token := None;
    }
  }

  /** `window.location`; assigning `href` navigates. */
  class Location {
    var href: string

    constructor (href: string)
      ensures this.href == href
    {
      this.href := href;
    }
  }

  /** `if (x)` on a value that is absent or a string: present and non-empty. */
  predicate Present(x: Option<string>)
  {
    x.Some? && x.value != ""
  }

  datatype HttpMethod = Get | Post | Put | Patch | Delete

  /** What is handed to the network: the request configuration after the request stage. */
  datatype Request = Request(verb: HttpMethod, url: string, data: Option<JsValue>, headers: map<string, string>)

  /** The headers every request starts from (the instance's defaults). */
  const DefaultHeaders: map<string, string> := map["Content-Type" := "application/json"]

  const AuthorizationHeader := "Authorization"
  const CsrfHeader := "X-CSRF-Token"
  const LoginPath := "/login"

  /** The request configuration the request stage updates in place. */
  class RequestConfig {
    var verb: HttpMethod
    var url: string
    var data: Option<JsValue>
    var headers: map<string, string>

    /** A call's configuration: the instance defaults overlaid with the caller's headers. */
    constructor (verb: HttpMethod, url: string, data: Option<JsValue>, callerHeaders: map<string, string>)
      ensures this.verb == verb && this.url == url && this.data == data
      ensures headers == DefaultHeaders + callerHeaders
    {
      this.verb := verb;
      this.url := url;
      this.data := data;
      this.headers := DefaultHeaders + callerHeaders;
    }

    function Snapshot(): (r: Request)
      reads this
      ensures r.verb == verb && r.url == url && r.data == data && r.headers == headers
    {
      Request(verb, url, data, headers)
    }
  }

  /**
   * The headers after the request stage: the bearer token when the session
   * holds a non-empty one, the CSRF token when the page supplies a non-empty
   * one, everything else as it was.
   */
  function Augment(headers: map<string, string>, token: Option<string>, csrf: Option<string>): (h: map<string, string>)
    ensures Present(token) ==> AuthorizationHeader in h && h[AuthorizationHeader] == "Bearer " + token.value
    ensures !Present(token) ==>
      (AuthorizationHeader in h <==> AuthorizationHeader in headers) &&
      (AuthorizationHeader in h ==> h[AuthorizationHeader] == headers[AuthorizationHeader])
    ensures Present(csrf) ==> CsrfHeader in h && h[CsrfHeader] == csrf.value
    ensures !Present(csrf) ==>
      (CsrfHeader in h <==> CsrfHeader in headers) &&
      (CsrfHeader in h ==> h[CsrfHeader] == headers[CsrfHeader])
    ensures forall k :: k != AuthorizationHeader && k != CsrfHeader ==>
      (k in h <==> k in headers) && (k in h ==> h[k] == headers[k])
  {
    var withAuth := if Present(token) then headers[AuthorizationHeader := "Bearer " + token.value] else headers;
    if Present(csrf) then withAuth[CsrfHeader := csrf.value] else withAuth
  }

  /**
   * The request stage (lines 14-33): reads the session's token and the
   * page's CSRF meta tag (`csrf`, absent when there is no such tag), updates
   * the configuration's headers in place and hands back the same object.
   */
  method InterceptRequest(config: RequestConfig, session: Session, csrf: Option<string>) returns (r: RequestConfig)
    modifies config
    ensures r == config
    ensures config.headers == Augment(old(config.headers), session.token, csrf)
    ensures config.verb == old(config.verb) && config.url == old(config.url) && config.data == old(config.data)
  {
    var token := session.token;
    if Present(token) {
      config.headers := config.headers[AuthorizationHeader := "Bearer " + token.value];
    }
    if Present(csrf) {
      config.headers := config.headers[CsrfHeader := csrf.value];
    }
    r := config;
  }

  /**
   * How a call ended, as the HTTP client reports it: a response, an error
   * response with its status, a request that got no response, or a request
   * that could not be made. Every failure carries the client's message.
   */
  datatype Outcome =
    | Success(body: JsValue)
    | HttpError(status: int, body: JsValue, message: string)
    | NoResponse(message: string)
    | RequestError(message: string)

  /** Which branch of the response stage a failure takes. */
  datatype FailureKind = Unauthorized | Forbidden | NotFound | ServerError | OtherStatus | NetworkError | OtherError

  /** The response stage's classification (lines 41-69): by exact status, then by whether a request went out. */
  function Classify(failure: Outcome): (k: FailureKind)
    requires !failure.Success?
    ensures k == Unauthorized <==> failure.HttpError? && failure.status == 401
    ensures k == Forbidden <==> failure.HttpError? && failure.status == 403
    ensures k == NotFound <==> failure.HttpError? && failure.status == 404
    ensures k == ServerError <==> failure.HttpError? && failure.status == 500
    ensures k == OtherStatus <==> failure.HttpError? && failure.status !in {401, 403, 404, 500}
    ensures k == NetworkError <==> failure.NoResponse?
    ensures k == OtherError <==> failure.RequestError?
  {
    match failure
    case HttpError(status, _, _) =>
      if status == 401 then Unauthorized
      else if status == 403 then Forbidden
      else if status == 404 then NotFound
      else if status == 500 then ServerError
      else OtherStatus
    case NoResponse(_) => NetworkError
    case RequestError(_) => OtherError
  }

  /** Only status 500 is reported as a server error; 501 to 599 take the default branch. */
  lemma OnlyFiveHundredIsServerError(status: int, body: JsValue, message: string)
    requires 500 <= status <= 599
    ensures Classify(HttpError(status, body, message)) == (if status == 500 then ServerError else OtherStatus)
  {
  }

  /**
   * The response stage's error handler (lines 40-72): on 401 the session is
   * logged out and the page navigates to the login path; every other failure
   * is only logged. The same failure is rejected again.
   */
  method InterceptError(session: Session, location: Location, failure: Outcome) returns (rejected: Outcome, kind: FailureKind)
    requires !failure.Success?
    modifies session, location
    ensures rejected == failure
    ensures kind == Classify(failure)
    ensures session.token == if kind == Unauthorized then None else old(session.token)
    ensures location.href == if kind == Unauthorized then LoginPath else old(location.href)
  {
    kind := Classify(failure);
    if kind == Unauthorized {
      session.Logout();
      location.href := LoginPath;
    }
    rejected := failure;
  }

  /** The record every `apiService` method resolves to; `JNull` stands for `null`. */
  datatype ApiResult = ApiResult(data: JsValue, error: JsValue)

  /**
   * The `try`/`catch` of every `apiService` method (lines 92-139): the body
   * on success; otherwise the error response's body when it is truthy, and
   * the client's message when it is not.
   */
  function Normalize(outcome: Outcome): (r: ApiResult)
    ensures outcome.Success? ==> r.data == outcome.body && r.error == JNull
    ensures !outcome.Success? ==> r.data == JNull && r.error != JNull
    ensures outcome.HttpError? && Truthy(outcome.body) ==> r.error == outcome.body
    ensures !outcome.Success? && !(outcome.HttpError? && Truthy(outcome.body)) ==> r.error == JStr(outcome.message)
  {
    match outcome
    case Success(body) => ApiResult(body, JNull)
    case HttpError(_, body, message) => ApiResult(JNull, if Truthy(body) then body else JStr(message))
    case NoResponse(message) => ApiResult(JNull, JStr(message))
    case RequestError(message) => ApiResult(JNull, JStr(message))
  }

  /** `error` is `null` exactly when the call succeeded. */
  lemma ErrorNullIffSuccess(outcome: Outcome)
    ensures Normalize(outcome).error == JNull <==> outcome.Success?
  {
  }

  /** A failure whose message is not empty always yields a truthy `error`, so `if (!error)` sees it. */
  lemma FailureIsTruthy(outcome: Outcome)
    requires !outcome.Success? && outcome.message != ""
    ensures Truthy(Normalize(outcome).error)
  {
  }

  /** A success whose body is `null` yields a record whose two fields are both `null`. */
  lemma NullBodyGivesTwoNulls()
    ensures Normalize(Success(JNull)) == ApiResult(JNull, JNull)
  {
  }

  /**
   * One `apiService` call (`get`, `post`, `put`, `patch` or `delete`): build
   * the configuration, run the request stage, send, run the response stage
   * on a failure, and normalise. Returns the record and the request that was
   * sent.
   */
  method Send(session: Session, location: Location, verb: HttpMethod, url: string, data: Option<JsValue>,
              callerHeaders: map<string, string>, csrf: Option<string>, transport: Request -> Outcome)
    returns (result: ApiResult, sent: Request)
    modifies session, location
    ensures sent == Request(verb, url, data, Augment(DefaultHeaders + callerHeaders, old(session.token), csrf))
    ensures result == Normalize(transport(sent))
    ensures var failed401 := transport(sent).HttpError? && transport(sent).status == 401;
      session.token == (if failed401 then None else old(session.token)) &&
      location.href == (if failed401 then LoginPath else old(location.href))
  {
    var config := new RequestConfig(verb, url, data, callerHeaders);
    config := InterceptRequest(config, session, csrf);
    sent := config.Snapshot();
    var outcome := transport(sent);
    if !outcome.Success? {
      var kind;
      outcome, kind := InterceptError(session, location, outcome);
    }
    result := Normalize(outcome);
  }

  /** A request sent without a usable token carries an Authorization header only if the caller supplied one. */
  lemma NoTokenNoAuthorization(callerHeaders: map<string, string>, token: Option<string>, csrf: Option<string>)
    requires !Present(token) && AuthorizationHeader !in callerHeaders
    ensures AuthorizationHeader !in Augment(DefaultHeaders + callerHeaders, token, csrf)
  {
  }

  /** With a usable token, the caller's own Authorization header is overwritten. */
  lemma TokenOverridesCaller(callerHeaders: map<string, string>, token: Option<string>, csrf: Option<string>)
    requires Present(token)
    ensures Augment(DefaultHeaders + callerHeaders, token, csrf)[AuthorizationHeader] == "Bearer " + token.value
  {
  }

  /** Running the request stage twice gives the same headers as running it once. */
  lemma AugmentIdempotent(headers: map<string, string>, token: Option<string>, csrf: Option<string>)
    ensures Augment(Augment(headers, token, csrf), token, csrf) == Augment(headers, token, csrf)
  {
  }
}
