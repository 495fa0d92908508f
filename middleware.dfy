/** The access gate run before every page request: a first-match-wins decision over the
    configured password, the path, the method, the session cookie and the query
    parameter `p`, and the matcher that decides which paths reach it at all. */
module Middleware {
  import opened Common

  /** One `name=value` pair of the query string, already decoded. */
  datatype Param = Param(name: Text, value: Text)

  /** What the gate reads of a request. `authCookie` is the value of the
      `luminary_auth` cookie, None when the request carries none. */
  datatype Request = Request(verb: string, path: Text, query: seq<Param>, authCookie: Option<Text>)

  /** `NextResponse.next()`; a redirect to the cloned URL with a new path and query
      that sets a cookie; or the login page. */
  datatype Decision =
    | Pass
    | Redirect(status: int, path: Text, query: seq<Param>, cookie: Cookie)
    | LoginPage(status: int, contentType: string)

  const AUTHENTICATED: Text := Ascii("authenticated")
  const PASSWORD_PARAM: Text := Ascii("p")
  const ROOT: Text := Ascii("/")
  const LOGIN_STATUS := 401
  /** The status `NextResponse.redirect` uses when none is given: 307 Temporary Redirect. */
  const REDIRECT_STATUS := 307
  const LOGIN_CONTENT_TYPE := "text/html; charset=utf-8"

  /** `process.env.AUTH_PASSWORD || ""`: a missing variable reads as the empty password. */
  function ConfiguredPassword(env: Option<Text>): (p: Text)
    ensures p == [] <==> !Truthy(env)
    ensures p != [] ==> env == Some(p)
  {
    if Truthy(env) then env.value else []
  }

  /** `searchParams.get(name)`: the value of the first pair with that name. */
  function FirstValue(query: seq<Param>, name: Text): (r: Option<Text>)
    ensures r.None? <==> forall i | 0 <= i < |query| :: query[i].name != name
    ensures r.Some? ==> exists i | 0 <= i < |query| ::
                          && query[i] == Param(name, r.value)
                          && forall j | 0 <= j < i :: query[j].name != name
  {
    if |query| == 0 then None
    else if query[0].name == name then Some(query[0].value)
    else
      FirstValue(query[1..], name)
  }

  /** `searchParams.delete(name)`: every pair with that name removed, the others kept in
      their order. */
  function Without(query: seq<Param>, name: Text): (r: seq<Param>)
    ensures |r| <= |query|
    ensures forall x :: x in r <==> x in query && x.name != name
  {
    if |query| == 0 then []
    else if query[0].name == name then Without(query[1..], name)
    else
      var rest := Without(query[1..], name);
      assert forall x :: x in query <==> x == query[0] || x in query[1..];
      [query[0]] + rest
  }

  /** Removing pairs works pair by pair: a single pair goes exactly when it has the name... */
  lemma WithoutSingle(x: Param, name: Text)
    ensures Without([x], name) == if x.name == name then [] else [x]
  {
    assert [x][1..] == [];
  }

  /** ... and the pairs of two parts of a query are filtered independently, so the kept
      pairs stay in their order and keep their repetitions. */
  lemma {:induction false} WithoutAppend(a: seq<Param>, b: seq<Param>, name: Text)
    ensures Without(a + b, name) == Without(a, name) + Without(b, name)
    decreases |a|
  {
    if |a| > 0 {
      assert (a + b)[0] == a[0];
      assert (a + b)[1..] == a[1..] + b;
      WithoutAppend(a[1..], b, name);
    } else {
      assert a + b == b;
    }
  }

  /** The paths that are never gated: the API routes and the framework's assets. */
  predicate Exempt(path: Text)
  {
    StartsWith(path, Ascii("/api/")) || StartsWith(path, Ascii("/_next/"))
  }

  /** The rules in order; the first that applies decides. */
  function Decide(password: Text, r: Request): (d: Decision)
    ensures d.Pass? <==>
              || password == [] || Exempt(r.path) || r.authCookie == Some(AUTHENTICATED)
              || (r.verb == "POST" && r.path == ROOT)
    ensures d.Redirect? <==> !d.Pass? && password != [] && FirstValue(r.query, PASSWORD_PARAM) == Some(password)
    ensures d.Redirect? ==>
              && d.path == ROOT
              && (forall i | 0 <= i < |d.query| :: d.query[i].name != PASSWORD_PARAM)
              && d.status == REDIRECT_STATUS
              && d.query == Without(r.query, PASSWORD_PARAM)
              && (forall x :: x in d.query <==> x in r.query && x.name != PASSWORD_PARAM)
              && d.cookie == AuthCookie(AUTHENTICATED)
    ensures d.LoginPage? ==> d == LoginPage(LOGIN_STATUS, LOGIN_CONTENT_TYPE)
  {
    if password == [] then Pass
    else if Exempt(r.path) then Pass
    else if r.authCookie == Some(AUTHENTICATED) then Pass
    else if r.verb == "POST" && r.path == ROOT then Pass
    else
      var p := FirstValue(r.query, PASSWORD_PARAM);
      if Truthy(p) && p.value == password then
        var q := Without(r.query, PASSWORD_PARAM);
        assert forall i | 0 <= i < |q| :: q[i] in q;
        Redirect(REDIRECT_STATUS, ROOT, q, AuthCookie(AUTHENTICATED))
      else
        LoginPage(LOGIN_STATUS, LOGIN_CONTENT_TYPE)
  }

  /** The `.` of `favicon.ico` in the matcher is a regular-expression wildcard: any
      byte but a line break. */
  predicate FaviconLike(rest: Text)
  {
    && |rest| >= 11 && rest[..7] == Ascii("favicon")
    && rest[7] != CR && rest[7] != LF
    && rest[8..11] == Ascii("ico")
  }

  /** `/((?!_next/static|_next/image|favicon.ico).*)`: a path of one line whose text after
      the leading `/` starts with none of the three excluded patterns. */
  predicate MatcherIncludes(path: Text)
  {
    && |path| > 0 && path[0] == ROOT[0] && !HasLineBreak(path)
    && !StartsWith(path[1..], Ascii("_next/static"))
    && !StartsWith(path[1..], Ascii("_next/image"))
    && !FaviconLike(path[1..])
  }

  /** The whole gate: a path the matcher leaves out is served without the middleware. */
  function Gate(password: Text, r: Request): (d: Decision)
    ensures !MatcherIncludes(r.path) ==> d == Pass
    ensures MatcherIncludes(r.path) ==> d == Decide(password, r)
    ensures !d.Pass? ==> MatcherIncludes(r.path) && password != [] && !Exempt(r.path)
  {
    if MatcherIncludes(r.path) then Decide(password, r) else Pass
  }

  /** With no password configured every request is let through. */
  lemma NoPasswordAllowsAll(r: Request)
    ensures Gate([], r) == Pass
  {
  }

  /** The exact cookie value `authenticated` admits a request even when `p` is wrong; any
      other cookie value, the password itself included, admits nothing by itself. */
  lemma CookieDecides(password: Text, r: Request)
    requires password != [] && !Exempt(r.path) && !(r.verb == "POST" && r.path == ROOT)
    ensures Decide(password, r) == Pass <==> r.authCookie == Some(AUTHENTICATED)
  {
  }

  /** An empty `p` never authenticates, whatever the password. */
  lemma EmptyParamNeverAuthenticates(password: Text, r: Request)
    requires FirstValue(r.query, PASSWORD_PARAM) == Some([])
    ensures !Decide(password, r).Redirect?
  {
  }

  /** A request without the cookie and without the right `p`, outside the exempt
      paths and the login POST, gets the 401 login page. */
  lemma LoginPageOtherwise(password: Text, r: Request)
    requires password != [] && !Exempt(r.path) && r.authCookie != Some(AUTHENTICATED)
    requires !(r.verb == "POST" && r.path == ROOT)
    requires FirstValue(r.query, PASSWORD_PARAM) != Some(password)
    ensures Decide(password, r) == LoginPage(401, "text/html; charset=utf-8")
  {
  }

  /** The framework's static files, image endpoint and favicon never reach the gate. */
  lemma AssetsBypassGate(password: Text, r: Request)
    requires || StartsWith(r.path, Ascii("/_next/static"))
             || StartsWith(r.path, Ascii("/_next/image"))
             || StartsWith(r.path, Ascii("/favicon.ico"))
    ensures !MatcherIncludes(r.path)
    ensures Gate(password, r) == Pass
  {
    var rest := r.path[1..];
    if StartsWith(r.path, Ascii("/_next/static")) {
      assert Ascii("/_next/static") == ROOT + Ascii("_next/static");
      StartsWithTail(r.path, Ascii("_next/static"));
    } else if StartsWith(r.path, Ascii("/_next/image")) {
      assert Ascii("/_next/image") == ROOT + Ascii("_next/image");
      StartsWithTail(r.path, Ascii("_next/image"));
    } else {
      assert Ascii("/favicon.ico") == ROOT + Ascii("favicon.ico");
      StartsWithTail(r.path, Ascii("favicon.ico"));
      assert rest[..11] == Ascii("favicon.ico");
      assert rest[..7] == rest[..11][..7] == Ascii("favicon");
      assert rest[8..11] == rest[..11][8..] == Ascii("ico");
    }
  }

  /** A path that starts with `/` followed by `x` has `x` at the start of what follows
      the `/`. */
  lemma StartsWithTail(path: Text, x: Text)
    requires StartsWith(path, ROOT + x)
    ensures StartsWith(path[1..], x)
  {
    assert path[1..][..|x|] == path[..|x| + 1][1..];
  }

  /** Because the `.` is a wildcard, the matcher also leaves out `/favicon-ico`; without
      the matcher that path would get the login page. */
  lemma FaviconWildcard(password: Text)
    requires password != []
    ensures var r := Request("GET", Ascii("/favicon-ico"), [], None);
            Gate(password, r) == Pass && Decide(password, r).LoginPage?
  {
    var path := Ascii("/favicon-ico");
    DashedFaviconMatchesPattern(path);
    DashedFaviconNotExempt(path);
    assert path != ROOT by { assert |path| != |ROOT|; }
  }

  lemma DashedFaviconMatchesPattern(path: Text)
    requires path == Ascii("/favicon-ico")
    ensures FaviconLike(path[1..])
  {
    assert path == [47, 102, 97, 118, 105, 99, 111, 110, 45, 105, 99, 111];
  }

  lemma DashedFaviconNotExempt(path: Text)
    requires path == Ascii("/favicon-ico")
    ensures !Exempt(path)
  {
    assert path[1] == 102;
    assert !StartsWith(path, Ascii("/api/")) by { assert Ascii("/api/")[1] == 97; }
    assert !StartsWith(path, Ascii("/_next/")) by { assert Ascii("/_next/")[1] == 95; }
  }
}
