/** The route guard run by the web framework before every matched request
    (middleware.js). Its inputs are whether a `user` cookie is present and the
    request's path; its answer is one of three responses. */
module Middleware {

  datatype Response = RedirectToLogin | RedirectToDashboard | PassThrough

  const LoginPath: string := "/login"
  const DashboardPath: string := "/dashboard"
  const AuthApiPrefix: string := "/api/auth"

  predicate IsLoginPage(path: string) {
    path == LoginPath
  }

  /** The root page and everything under the authentication API are public. */
  predicate IsPublicRoute(path: string) {
    path == "/" || AuthApiPrefix <= path
  }

  /** The three-way decision of the guard. */
  function Decide(hasUser: bool, path: string): (d: Response)
    ensures d == RedirectToLogin <==>
              !hasUser && path != "/login" && path != "/" && !("/api/auth" <= path)
    ensures d == RedirectToDashboard <==> hasUser && path == "/login"
    ensures d == PassThrough <==>
              (hasUser && path != "/login") || (!hasUser && (path == "/login" || path == "/" || "/api/auth" <= path))
  {
    if !hasUser && !IsLoginPage(path) && !IsPublicRoute(path) then RedirectToLogin
    else if hasUser && IsLoginPage(path) then RedirectToDashboard
    else PassThrough
  }

  /** The path exclusion of the guard's matcher, `/((?!_next/static|_next/image|favicon.ico).*)`:
      after the leading slash the path must not start with `_next/static`, `_next/image`,
      or `favicon`, one character that is not a line terminator (the regular-expression
      dot), `ico`. */
  predicate ExcludedAfterSlash(rest: string): (b: bool)
    ensures "_next/static" <= rest || "_next/image" <= rest || "favicon.ico" <= rest ==> b
    ensures b ==> |rest| >= 11 && (rest[..5] == "_next" || rest[..7] == "favicon")
  {
    "_next/static" <= rest
    || "_next/image" <= rest
    || (|rest| >= 11 && rest[..7] == "favicon" && !IsLineTerminator(rest[7])
        && rest[8..11] == "ico")
  }

  /** A path starts with `/` + `p` exactly when what follows its slash starts with `p`. */
  lemma PrefixAfterSlash(p: string, path: string)
    requires |path| >= 1 && path[0] == '/'
    ensures "/" + p <= path <==> p <= path[1..]
  {
    if "/" + p <= path {
      assert path[1..|p| + 1] == ("/" + p)[1..] == p;
    }
    if p <= path[1..] {
      assert path[..|p| + 1] == "/" + p;
    }
  }

  /** The characters the regular-expression dot does not match. */
  predicate IsLineTerminator(c: char) {
    c in {'\n', '\r', '\U{2028}', '\U{2029}'}
  }

  /** The matcher: the whole path must match the pattern. After the leading slash the
      lookahead must not see an excluded prefix, and `.*` must consume the rest, so no
      character of it may be a line terminator. */
  predicate MatcherApplies(path: string): (b: bool)
    ensures b ==> |path| >= 1 && path[0] == '/'
    ensures b ==> !("/_next/static" <= path) && !("/_next/image" <= path) && !("/favicon.ico" <= path)
    ensures path == LoginPath || path == DashboardPath || path == "/" ==> b
  {
    if |path| >= 1 && path[0] == '/' then
      assert "/_next/static" == "/" + "_next/static" && "/_next/image" == "/" + "_next/image";
      assert "/favicon.ico" == "/" + "favicon.ico";
      PrefixAfterSlash("_next/static", path);
      PrefixAfterSlash("_next/image", path);
      PrefixAfterSlash("favicon.ico", path);
      && !ExcludedAfterSlash(path[1..])
      && (forall i :: 1 <= i < |path| ==> !IsLineTerminator(path[i]))
    else false
  }

  /** What a request on `path` gets: framework assets never reach the guard, and a
      request is sent to the login page exactly when the matcher lets it through to a
      guard that finds no cookie on a protected path. */
  function Handle(hasUser: bool, path: string): (d: Response)
    ensures "/_next/static" <= path || "/_next/image" <= path || "/favicon.ico" <= path ==>
              d == PassThrough
    ensures d == RedirectToLogin <==>
              MatcherApplies(path) && !hasUser && path != "/login" && path != "/" && !("/api/auth" <= path)
    ensures d == RedirectToDashboard <==> hasUser && path == "/login"
  {
    if MatcherApplies(path) then Decide(hasUser, path) else PassThrough
  }

  /** The root page and the authentication API are never sent to the login page,
      whatever the cookie state. */
  lemma PublicRoutesNeverSentToLogin(hasUser: bool, path: string)
    requires path == "/" || "/api/auth" <= path
    ensures Handle(hasUser, path) != RedirectToLogin
  {
  }

  /** No self-redirect: the login page is never redirected to itself, and the only
      path sent to the dashboard is the login page. */
  lemma NoSelfRedirect(hasUser: bool, path: string)
    ensures Handle(hasUser, "/login") != RedirectToLogin
    ensures Handle(hasUser, path) == RedirectToDashboard ==> path == "/login"
  {
  }

  /** No redirect loop: with the cookie state unchanged, the request that follows a
      redirect passes through. */
  lemma RedirectTargetPassesThrough(hasUser: bool, path: string)
    ensures Handle(hasUser, path) == RedirectToLogin ==> Handle(hasUser, LoginPath) == PassThrough
    ensures Handle(hasUser, path) == RedirectToDashboard ==> Handle(hasUser, DashboardPath) == PassThrough
  {
  }

  /** Framework assets bypass the guard, so they load without a cookie. */
  lemma StaticAssetsBypassGuard(hasUser: bool, rest: string)
    requires "_next/static" <= rest || "_next/image" <= rest || "favicon.ico" <= rest
    ensures Handle(hasUser, "/" + rest) == PassThrough
  {
  }

  /** The unescaped dot in the matcher: `/faviconXico` is excluded too, so it also
      bypasses the guard without a cookie. */
  lemma MatcherDotMatchesAnyCharacter()
    ensures !MatcherApplies("/faviconXico")
    ensures Handle(false, "/faviconXico") == PassThrough
    ensures Decide(false, "/faviconXico") == RedirectToLogin
  {
    assert "/faviconXico"[1..] == "faviconXico";
    assert "faviconXico"[..7] == "favicon";
    assert "faviconXico"[8..11] == "ico";
    assert "/faviconXico"[1] != "/api/auth"[1];
  }

  /** The pattern's `.*` does not cross a line break: a path holding one is not
      matched, so it bypasses the guard without a cookie. */
  lemma LineBreakBypassesGuard()
    ensures !MatcherApplies("/x\nb")
    ensures Handle(false, "/x\nb") == PassThrough
    ensures Decide(false, "/x\nb") == RedirectToLogin
  {
    assert IsLineTerminator("/x\nb"[2]);
    assert "/x\nb"[1] != "/api/auth"[1];
  }

  /** Without a cookie, every matched path that is neither the login page nor public
      is redirected to the login page. */
  lemma ProtectedPathsRequireCookie(path: string)
    requires MatcherApplies(path)
    requires !IsLoginPage(path) && !IsPublicRoute(path)
    ensures Handle(false, path) == RedirectToLogin
    ensures Handle(true, path) == PassThrough
  {
  }
}
