/**
 * The route gate of src/middleware.ts.
 *
 * For every request whose path the matcher selects, the gate reads the
 * `token` cookie and the path and either lets the request through or
 * redirects it: signed-in users away from the sign-in and sign-up pages,
 * anonymous users to the sign-in page. Paths the matcher does not select
 * never reach the gate.
 */
module AuthGate {
  import opened Wrappers

  datatype Response = Next | RedirectTo(path: string)

  const Home: string := "/"
  const SignIn: string := "/signin"
  const SignUp: string := "/signup"

  predicate StartsWith(s: string, prefix: string) {
    |prefix| <= |s| && s[..|prefix|] == prefix
  }

  /** A present but empty cookie value is falsy, like an absent one. */
  predicate HasToken(cookie: Option<string>) {
    cookie.Some? && cookie.value != ""
  }

  predicate IsAuthRoute(pathname: string) {
    StartsWith(pathname, SignIn) || StartsWith(pathname, SignUp)
  }

  function Middleware(cookie: Option<string>, pathname: string): (r: Response)
    ensures r == RedirectTo(Home) <==> HasToken(cookie) && IsAuthRoute(pathname)
    ensures r == RedirectTo(SignIn) <==> !HasToken(cookie) && !IsAuthRoute(pathname)
    ensures r == Next <==> HasToken(cookie) != IsAuthRoute(pathname)
  {
    assert SignIn != Home by { assert |SignIn| != |Home|; }
    var token := HasToken(cookie);
    var isAuthRoute := IsAuthRoute(pathname);
    if token && isAuthRoute then RedirectTo(Home)
    else if !token && !isAuthRoute then RedirectTo(SignIn)
    else Next
  }

  /**
   * The matcher `/((?!_next|api|static|favicon.ico|images|public).*)`: a
   * leading slash not followed by one of the excluded words. The lookahead
   * is a prefix test on the rest of the path, and the `.` in `favicon.ico`
   * matches any character.
   */
  predicate Excluded(rest: string) {
    || StartsWith(rest, "_next")
    || StartsWith(rest, "api")
    || StartsWith(rest, "static")
    || (StartsWith(rest, "favicon") && |rest| >= 11 && rest[8..11] == "ico")
    || StartsWith(rest, "images")
    || StartsWith(rest, "public")
  }

  predicate InMatcherScope(pathname: string) {
    |pathname| >= 1 && pathname[0] == '/' && !Excluded(pathname[1..])
  }

  /** What the application sees for a request: the gate's answer, or a pass-through outside its scope. */
  function Route(cookie: Option<string>, pathname: string): (r: Response)
    ensures !InMatcherScope(pathname) ==> r == Next
    ensures InMatcherScope(pathname) ==> r == Middleware(cookie, pathname)
  {
    if InMatcherScope(pathname) then Middleware(cookie, pathname) else Next
  }

  // ---------- Properties ----------

  /** The auth-route test is a bare prefix test: `/signinX` and `/signup/...` count, `/sign` does not. */
  lemma AuthRouteIsPrefix(suffix: string)
    ensures IsAuthRoute(SignIn + suffix) && IsAuthRoute(SignUp + suffix)
    ensures !IsAuthRoute("/sign") && !IsAuthRoute(Home) && !IsAuthRoute("/exam")
  {
    assert (SignIn + suffix)[..|SignIn|] == SignIn;
    assert (SignUp + suffix)[..|SignUp|] == SignUp;
  }

  /** An empty cookie behaves as no cookie at all. */
  lemma EmptyCookieIsAnonymous(pathname: string)
    ensures Middleware(Some(""), pathname) == Middleware(None, pathname)
  {
  }

  /** Both redirect targets are in the gate's scope. */
  lemma RedirectTargetsInScope()
    ensures InMatcherScope(Home) && InMatcherScope(SignIn)
  {
    assert Home[1..] == "";
    var rest := SignIn[1..];
    assert rest == "signin";
    assert rest[..1] == "s";
    assert !StartsWith(rest, "_next") && !StartsWith(rest, "api") && !StartsWith(rest, "favicon");
    assert !StartsWith(rest, "images") && !StartsWith(rest, "public");
    assert !StartsWith(rest, "static") by { assert rest[1] != "static"[1]; }
  }

  /** Following a redirect with the same cookie is let through: no redirect loop. */
  lemma NoRedirectLoop(cookie: Option<string>, pathname: string)
    ensures Route(cookie, pathname).RedirectTo? ==>
      Route(cookie, Route(cookie, pathname).path) == Next
  {
    RedirectTargetsInScope();
  }

  /** Every path the gate lets through for one side is redirected for the other, inside its scope. */
  lemma TokenDecidesSide(pathname: string, token: string)
    requires token != "" && InMatcherScope(pathname)
    ensures Route(Some(token), pathname) == Next <==> Route(None, pathname) != Next
  {
  }

  /** Framework, API and asset paths bypass the gate whatever the cookie. */
  lemma AssetPathsBypass(cookie: Option<string>, rest: string)
    ensures Route(cookie, "/_next" + rest) == Next
    ensures Route(cookie, "/api" + rest) == Next
    ensures Route(cookie, "/images" + rest) == Next
    ensures Route(cookie, "/favicon.ico") == Next
  {
    assert ("/_next" + rest)[1..] == "_next" + rest;
    assert ("/_next" + rest)[1..][..5] == "_next";
    assert ("/api" + rest)[1..] == "api" + rest;
    assert ("/api" + rest)[1..][..3] == "api";
    assert ("/images" + rest)[1..] == "images" + rest;
    assert ("/images" + rest)[1..][..6] == "images";
    assert "/favicon.ico"[1..][..7] == "favicon";
  }

  /** The exclusion is by prefix only: `/apiary` and `/publications` bypass the gate too. */
  lemma ExclusionByPrefixOnly()
    ensures Route(None, "/apiary") == Next
    ensures Route(None, "/publications") == Next
    ensures Route(None, "/exam") == RedirectTo(SignIn)
  {
    assert "/apiary"[1..][..3] == "api";
    assert "/publications"[1..][..6] == "public";
    assert !StartsWith("/exam", SignIn);
    var rest := "/exam"[1..];
    assert rest == "exam";
    assert !StartsWith(rest, "api") by { assert rest[..3][0] != "api"[0]; }
  }
}
