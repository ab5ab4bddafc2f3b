/**
 * The edge middleware's redirect decision (frontend/middleware.ts): a
 * logged-in visitor of the home page or the auth pages goes to the profile,
 * a logged-out visitor of a protected page goes to the auth page with the
 * page to come back to, and everything else passes through.
 */
module Middleware {
  import opened Text
  import opened Wrappers

  /** `PROTECTED_ROUTES`. */
  const ProtectedRoutes: seq<string> := ["/profile", "/portfolios", "/report", "/settings", "/account"]

  /**
   * What the middleware reads from a request: the path, the query as
   * `searchParams.toString()` gives it, and the `logged_in` cookie's value.
   */
  datatype Request = Request(pathname: string, query: string, loggedInCookie: Option<string>)

  datatype Decision =
    | RedirectTo(path: string)
    | RedirectToAuth(next: string)
    | PassThrough

  /** Only the exact cookie value `true` counts as logged in. */
  predicate LoggedIn(req: Request) {
    req.loggedInCookie == Some("true")
  }

  /** The home page or any path starting with `/auth` (so `/authors` too). */
  predicate IsPublicEntry(path: string) {
    path == "/" || StartsWith(path, "/auth")
  }

  /** A protected root itself, or a path below it. */
  predicate UnderRoot(path: string, root: string) {
    path == root || StartsWith(path, root + "/")
  }

  /** `PROTECTED_ROUTES.some(...)`, searched in order. */
  function NeedsAuthFrom(path: string, roots: seq<string>): (b: bool)
    ensures b <==> exists k :: 0 <= k < |roots| && UnderRoot(path, roots[k])
  {
    if |roots| == 0 then false
    else if UnderRoot(path, roots[0]) then true
    else
      var b := NeedsAuthFrom(path, roots[1..]);
      assert forall k :: 1 <= k < |roots| ==> roots[k] == roots[1..][k - 1];
      b
  }

  function NeedsAuth(path: string): (b: bool)
    ensures b <==> exists root :: root in ProtectedRoutes && UnderRoot(path, root)
  {
    NeedsAuthFrom(path, ProtectedRoutes)
  }

  /** The path with `?query` appended only when the query is non-empty. */
  function WithQuery(path: string, query: string): (r: string)
    ensures query == "" ==> r == path
    ensures query != "" ==> r == path + "?" + query
    ensures StartsWith(r, path)
  {
    if query != "" then path + "?" + query else path
  }

  /** `middleware`. */
  function Decide(req: Request): (d: Decision)
    ensures d.RedirectTo? <==> LoggedIn(req) && IsPublicEntry(req.pathname)
    ensures d.RedirectTo? ==> d.path == "/profile"
    ensures d.RedirectToAuth? <==> !LoggedIn(req) && NeedsAuth(req.pathname)
    ensures d.RedirectToAuth? ==> d.next == WithQuery(req.pathname, req.query)
    ensures d.PassThrough? <==> (LoggedIn(req) && !IsPublicEntry(req.pathname)) || (!LoggedIn(req) && !NeedsAuth(req.pathname))
  {
    var loggedIn := req.loggedInCookie == Some("true");
    var isPublicRoot := req.pathname == "/";
    var isAuth := StartsWith(req.pathname, "/auth");
    if loggedIn && (isPublicRoot || isAuth) then RedirectTo("/profile")
    else if !loggedIn && NeedsAuth(req.pathname) then RedirectToAuth(WithQuery(req.pathname, req.query))
    else PassThrough
  }

  /** A sibling of a protected root is not protected: `/profiles` passes, `/profile/x` does not. */
  lemma RootPrefixIsNotEnough()
    ensures !NeedsAuth("/profiles")
    ensures NeedsAuth("/profile/edit")
    ensures NeedsAuth("/report")
  {
    assert UnderRoot("/profile/edit", "/profile") by {
      assert "/profile/edit"[..|"/profile/"|] == "/profile/";
    }
    forall root | root in ProtectedRoutes ensures !UnderRoot("/profiles", root) {
      assert "/profiles"[1] == 'p' && "/profiles"[8] == 's';
      if root == "/profile" {
        assert "/profiles"[..9] != "/profile/" by { assert "/profiles"[8] != "/profile/"[8]; }
      }
    }
  }

  /** A cookie of any value other than exactly `true` (say `True` or `1`) counts as logged out. */
  lemma OnlyExactCookie(path: string, query: string, v: string)
    requires v != "true"
    ensures Decide(Request(path, query, Some(v))) == Decide(Request(path, query, None))
  {
  }

  /**
   * No redirect loops: following a redirect with the same cookie reaches a
   * page that passes through.
   */
  lemma RedirectTargetsPassThrough(req: Request, query: string)
    ensures Decide(req).RedirectTo? ==> Decide(Request("/profile", query, req.loggedInCookie)).PassThrough?
    ensures Decide(req).RedirectToAuth? ==> Decide(Request("/auth", query, req.loggedInCookie)).PassThrough?
  {
    assert !StartsWith("/profile", "/auth") by { assert "/profile"[1] != "/auth"[1]; }
    assert !NeedsAuth("/auth") by {
      forall root | root in ProtectedRoutes ensures !UnderRoot("/auth", root) {
        assert |root| >= 7;
      }
    }
  }

  /** A logged-in user is never sent to the auth page, and a logged-out one never to the profile. */
  lemma LoggedInNeverAskedToLogIn(req: Request)
    ensures LoggedIn(req) ==> !Decide(req).RedirectToAuth?
    ensures !LoggedIn(req) ==> !Decide(req).RedirectTo?
  {
  }
}
