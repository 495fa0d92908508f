/** The `POST` handler of the password endpoint: it compares the submitted password with
    the configured one and, on a match, sets the session cookie. */
module AuthRoute {
  import opened Common
  import Middleware

  datatype AuthBody = Failure(error: string) | Success

  /** The JSON reply and the cookie set on it, if any. */
  datatype AuthReply = AuthReply(status: int, body: AuthBody, cookie: Option<Cookie>)

  const NOT_CONFIGURED := "Auth not configured"
  const WRONG_PASSWORD := "Wrong password"
  const INVALID_REQUEST := "Invalid request"

  /** The handler. `expected` is the configured password. The parsed request is the
      `password` property of the body: None when it is missing or not a string, which
      is then strictly unequal to any configured string. A body that cannot be read or
      destructured ends in the `catch` clause, before the configuration is looked at. */
  function Post(expected: Option<Text>, request: RequestBody<Option<Text>>): (r: AuthReply)
    ensures r.cookie.Some? <==> r.status == 200
    ensures r.status == 200 <==> request.Parsed? && Truthy(expected) && request.value == expected
    ensures r.status == 200 ==> r.body == Success && r.cookie == Some(AuthCookie(expected.value))
    ensures r.status != 200 ==> r.body.Failure?
  {
    match request
    case Unparseable(_) => AuthReply(400, Failure(INVALID_REQUEST), None)
    case Parsed(password) =>
      if !Truthy(expected) then AuthReply(500, Failure(NOT_CONFIGURED), None)
      else if password != expected then AuthReply(401, Failure(WRONG_PASSWORD), None)
      else AuthReply(200, Success, Some(AuthCookie(expected.value)))
  }

  /** Without a configured password every readable request gets the configuration
      error, whatever it submits. */
  lemma NotConfiguredRefusesAll(expected: Option<Text>, submitted: Option<Text>)
    requires !Truthy(expected)
    ensures Post(expected, Parsed(submitted)) == AuthReply(500, Failure(NOT_CONFIGURED), None)
  {
  }

  /** A different password is refused with 401 and no cookie. */
  lemma WrongPasswordRefused(expected: Option<Text>, submitted: Option<Text>)
    requires Truthy(expected) && submitted != expected
    ensures Post(expected, Parsed(submitted)) == AuthReply(401, Failure(WRONG_PASSWORD), None)
  {
  }

  /** An unreadable body is a bad request even when no password is configured. */
  lemma UnreadableBodyRefused(expected: Option<Text>, e: Thrown)
    ensures Post(expected, Unparseable(e)) == AuthReply(400, Failure(INVALID_REQUEST), None)
  {
  }

  /** A page request that only carries a cookie: outside the exempt paths, not the
      login POST, and without a `p` parameter. */
  predicate CookieOnly(r: Middleware.Request)
  {
    && !Middleware.Exempt(r.path)
    && !(r.verb == "POST" && r.path == Middleware.ROOT)
    && Middleware.FirstValue(r.query, Middleware.PASSWORD_PARAM).None?
  }

  /** The cookie this endpoint issues holds the password, but the gate, reading the same
      configuration, admits only the value `authenticated`: the issued cookie opens the
      site exactly when the password is literally `authenticated`. */
  lemma IssuedCookieAdmittedOnlyIfLiteral(env: Option<Text>, submitted: Option<Text>, r: Middleware.Request)
    requires Post(env, Parsed(submitted)).cookie.Some?
    requires CookieOnly(r) && r.authCookie == Some(Post(env, Parsed(submitted)).cookie.value.value)
    ensures Middleware.Decide(Middleware.ConfiguredPassword(env), r) == Middleware.Pass
            <==> env == Some(Middleware.AUTHENTICATED)
  {
  }

  /** A concrete case: with the password `secret`, a correct login yields a cookie with
      which a `GET /` still gets the login page from the whole gate. */
  lemma SecretLoginStillLocked()
    ensures var env := Some(Ascii("secret"));
            var reply := Post(env, Parsed(env));
            && reply.status == 200
            && Middleware.Gate(Middleware.ConfiguredPassword(env),
                               Middleware.Request("GET", Middleware.ROOT, [], Some(reply.cookie.value.value)))
               == Middleware.LoginPage(Middleware.LOGIN_STATUS, Middleware.LOGIN_CONTENT_TYPE)
  {
    var s := Ascii("secret");
    assert s == [115, 101, 99, 114, 101, 116];
    assert Middleware.AUTHENTICATED[0] == 97;
    assert !Middleware.Exempt(Middleware.ROOT);
    assert Middleware.MatcherIncludes(Middleware.ROOT) by {
      assert Middleware.ROOT == [47];
      assert Middleware.ROOT[1..] == [];
    }
  }

  /** The handler as evidently intended: the same checks and replies, but the cookie it
      sets carries the value the gate admits. */
  function CorrectedPost(expected: Option<Text>, request: RequestBody<Option<Text>>): (r: AuthReply)
    ensures r.status == Post(expected, request).status && r.body == Post(expected, request).body
    ensures r.cookie.Some? <==> r.status == 200
    ensures r.cookie.Some? ==> r.cookie.value == AuthCookie(Middleware.AUTHENTICATED)
  {
    var reply := Post(expected, request);
    if reply.cookie.Some? then reply.(cookie := Some(AuthCookie(Middleware.AUTHENTICATED))) else reply
  }

  /** Every cookie the corrected handler issues opens every page. */
  lemma CorrectedCookieAdmitted(env: Option<Text>, submitted: Option<Text>, r: Middleware.Request)
    requires CorrectedPost(env, Parsed(submitted)).cookie.Some?
    requires r.authCookie == Some(CorrectedPost(env, Parsed(submitted)).cookie.value.value)
    ensures Middleware.Gate(Middleware.ConfiguredPassword(env), r) == Middleware.Pass
  {
  }
}
