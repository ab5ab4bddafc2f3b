/**
 * The post-login redirect guard (frontend/src/components/auth/RequireAuth.tsx):
 * only internal paths free of script-like schemes and backslashes are
 * followed, anything else falls back to a fixed page; and the login URL that
 * carries the page to come back to.
 *
 * `decodeURIComponent` and `encodeURIComponent` are parameters; decoding
 * malformed text throws, which is `None`.
 */
module AuthRedirect {
  import opened Text
  import opened Wrappers
  import Middleware

  type DecodeFn = string -> Option<string>
  type EncodeFn = string -> string

  /** One of `dangerousPatterns`: a case-insensitive literal, or the backslash. */
  datatype Pattern = NoCase(text: string) | Backslash

  const DangerousPatterns: seq<Pattern> := [NoCase("javascript:"), NoCase("data:"), NoCase("vbscript:"), Backslash]

  /** `pattern.test(path)`; the patterns' letters are ASCII, so lower-casing the path is case-insensitive matching. */
  function Test(p: Pattern, path: string): (b: bool)
    ensures p.NoCase? ==> (b <==> Contains(Lower(path), p.text))
    ensures p.Backslash? ==> (b <==> '\\' in path)
  {
    match p
    case NoCase(t) => ContainsDec(Lower(path), t)
    case Backslash => '\\' in path
  }

  /** `patterns.some(pattern => pattern.test(path))`. */
  function SomeTest(ps: seq<Pattern>, path: string): (b: bool)
    ensures b <==> exists k :: 0 <= k < |ps| && Test(ps[k], path)
  {
    if |ps| == 0 then false
    else if Test(ps[0], path) then true
    else
      var b := SomeTest(ps[1..], path);
      assert forall k :: 1 <= k < |ps| ==> ps[k] == ps[1..][k - 1];
      b
  }

  /** The guard's intent, stated on its own: an internal path with nothing that could change the scheme. */
  predicate SafeInternal(path: string) {
    |path| >= 1 && path[0] == '/' && (|path| == 1 || path[1] != '/')
    && !Contains(Lower(path), "javascript:")
    && !Contains(Lower(path), "data:")
    && !Contains(Lower(path), "vbscript:")
    && forall i :: 0 <= i < |path| ==> path[i] != '\\'
  }

  /** `isValidInternalPath`. */
  function IsValidInternalPath(path: string): (b: bool)
    ensures b <==> SafeInternal(path)
  {
    if !StartsWith(path, "/") || StartsWith(path, "//") then false
    else
      assert Test(DangerousPatterns[0], path) <==> Contains(Lower(path), "javascript:");
      assert Test(DangerousPatterns[1], path) <==> Contains(Lower(path), "data:");
      assert Test(DangerousPatterns[2], path) <==> Contains(Lower(path), "vbscript:");
      assert Test(DangerousPatterns[3], path) <==> '\\' in path;
      !SomeTest(DangerousPatterns, path)
  }

  /** A text without some character of `p` cannot contain `p`. */
  lemma MissingCharNoMatch(s: string, p: string, j: nat)
    requires j < |p| && p[j] !in s
    ensures !Contains(s, p)
  {
    if Contains(s, p) {
      var i: nat :| i <= |s| && MatchAt(s, p, i);
      MatchAtChar(s, p, i, j);
    }
  }

  /** Anything not starting with a single `/` is refused: absolute and scheme-relative URLs alike. */
  lemma RefusesNonInternal(path: string)
    requires |path| == 0 || path[0] != '/' || (|path| >= 2 && path[1] == '/')
    ensures !IsValidInternalPath(path)
  {
  }

  /** A script-like scheme is refused wherever it appears and in whatever case. */
  lemma RefusesScriptScheme(path: string, scheme: string)
    requires scheme in {"javascript:", "data:", "vbscript:"}
    requires Contains(Lower(path), scheme)
    ensures !IsValidInternalPath(path)
  {
  }

  /** A backslash anywhere is refused. */
  lemma RefusesBackslash(path: string, i: nat)
    requires i < |path| && path[i] == '\\'
    ensures !IsValidInternalPath(path)
  {
  }

  /** `"/JavaScript:"` lower-cased holds `javascript:` after its slash. */
  lemma LowerHoldsScheme(s: string)
    requires s == "/JavaScript:"
    ensures MatchAt(Lower(s), "javascript:", 1)
  {
    var l := Lower(s);
    forall k | 0 <= k < 11 ensures l[1 + k] == "javascript:"[k] {
      assert l[1 + k] == LowerChar(s[1 + k]);
    }
    assert l[1..12] == "javascript:";
  }

  /** Scheme-relative and absolute URLs are refused, whatever their case, and so is a backslash. */
  lemma RefusesExternal(schemeRelative: string, absolute: string, script: string, backslashed: string)
    requires schemeRelative == "//evil.example" && absolute == "https://evil.example"
    requires script == "/JavaScript:" && backslashed == "/\\evil.example"
    ensures !IsValidInternalPath(schemeRelative) && !IsValidInternalPath(absolute)
    ensures !IsValidInternalPath(script) && !IsValidInternalPath(backslashed)
  {
    RefusesNonInternal(schemeRelative);
    RefusesNonInternal(absolute);
    LowerHoldsScheme(script);
    RefusesScriptScheme(script, "javascript:");
    RefusesBackslash(backslashed, 1);
  }

  /** `safeAuthRedirect`'s default fallback. */
  const DefaultFallback: string := "/profile"

  /**
   * A path that starts with a single `/` and holds neither a colon nor a
   * backslash is safe: no scheme can match without its colon.
   */
  lemma NoColonIsSafe(s: string)
    requires |s| >= 1 && s[0] == '/' && (|s| == 1 || s[1] != '/')
    requires forall i :: 0 <= i < |s| ==> s[i] != ':' && s[i] != '\\'
    ensures SafeInternal(s)
  {
    var l := Lower(s);
    assert forall i :: 0 <= i < |l| ==> l[i] != ':';
    MissingCharNoMatch(l, "javascript:", 10);
    MissingCharNoMatch(l, "data:", 4);
    MissingCharNoMatch(l, "vbscript:", 8);
  }

  /** The default fallback is itself a safe internal path. */
  lemma ProfileIsSafe()
    ensures SafeInternal(DefaultFallback)
  {
    var s := DefaultFallback;
    assert forall i :: 0 <= i < |s| ==> s[i] != ':' && s[i] != '\\';
    NoColonIsSafe(s);
  }

  /**
   * `safeAuthRedirect`: the path pushed to the router. The decoded target
   * when it is a safe internal path, the fallback otherwise; decoding
   * malformed text throws.
   */
  function SafeAuthRedirect(decode: DecodeFn, nextUrl: string, fallback: string): (r: Result<string, string>)
    ensures r.Failure? <==> decode(nextUrl).None?
    ensures r.Success? && SafeInternal(decode(nextUrl).value) ==> r.value == decode(nextUrl).value
    ensures r.Success? && !SafeInternal(decode(nextUrl).value) ==> r.value == fallback
    ensures r.Success? ==> SafeInternal(r.value) || r.value == fallback
  {
    match decode(nextUrl)
    case None => Failure("URIError: URI malformed")
    case Some(decodedUrl) => Success(if IsValidInternalPath(decodedUrl) then decodedUrl else fallback)
  }

  /** With the default fallback, whatever is pushed is a safe internal path. */
  lemma DefaultFallbackIsSafe(decode: DecodeFn, nextUrl: string)
    ensures SafeAuthRedirect(decode, nextUrl, DefaultFallback).Success? ==>
      SafeInternal(SafeAuthRedirect(decode, nextUrl, DefaultFallback).value)
  {
    ProfileIsSafe();
  }

  /** `createLoginUrl`'s default login page. */
  const DefaultLoginPath: string := "/auth"

  /** `createLoginUrl`: the login page with the current page (and its query, if any) as `next`. */
  function CreateLoginUrl(encode: EncodeFn, currentPath: string, currentSearch: string, loginPath: string): (r: string)
    ensures r == loginPath + "?next=" + encode(Middleware.WithQuery(currentPath, currentSearch))
  {
    var currentUrl := currentPath + (if currentSearch != "" then "?" + currentSearch else "");
    assert currentUrl == Middleware.WithQuery(currentPath, currentSearch);
    loginPath + "?next=" + encode(currentUrl)
  }

  /** The `next` value carried by a login URL. */
  function NextOf(loginPath: string, url: string): (r: Option<string>)
    ensures r.Some? ==> url == loginPath + "?next=" + r.value
  {
    var prefix := loginPath + "?next=";
    if StartsWith(url, prefix) then
      assert url == prefix + url[|prefix|..];
      Some(url[|prefix|..])
    else None
  }

  /** Decoding undoes encoding. */
  ghost predicate CodecRoundTrips(encode: EncodeFn, decode: DecodeFn) {
    forall s {:trigger encode(s)} :: decode(encode(s)) == Some(s)
  }

  /**
   * A login URL brings the user back to the page it was made for exactly
   * when that page is a safe internal path, and to the fallback otherwise.
   */
  lemma LoginUrlRoundTrip(encode: EncodeFn, decode: DecodeFn, path: string, search: string, loginPath: string, fallback: string)
    requires CodecRoundTrips(encode, decode)
    ensures var url := CreateLoginUrl(encode, path, search, loginPath);
      && NextOf(loginPath, url).Some?
      && SafeAuthRedirect(decode, NextOf(loginPath, url).value, fallback)
         == Success(if SafeInternal(Middleware.WithQuery(path, search)) then Middleware.WithQuery(path, search) else fallback)
  {
    var target := Middleware.WithQuery(path, search);
    var url := CreateLoginUrl(encode, path, search, loginPath);
    var prefix := loginPath + "?next=";
    assert url == prefix + encode(target);
    assert url[..|prefix|] == prefix;
    assert url[|prefix|..] == encode(target);
    assert decode(encode(target)) == Some(target);
  }

  /** Every protected root starts with `/` followed by a letter. */
  lemma ProtectedRootsAreInternal(root: string)
    requires root in Middleware.ProtectedRoutes
    ensures |root| >= 7 && root[0] == '/' && root[1] != '/'
  {
  }

  /**
   * The page the middleware sends a logged-out visitor back to after login
   * is followed exactly when it has no script-like scheme and no backslash:
   * a protected path is always internal.
   */
  lemma MiddlewareNextIsInternal(req: Middleware.Request)
    requires Middleware.Decide(req).RedirectToAuth?
    ensures var next := Middleware.Decide(req).next;
      IsValidInternalPath(next) <==>
        !Contains(Lower(next), "javascript:") && !Contains(Lower(next), "data:")
        && !Contains(Lower(next), "vbscript:") && '\\' !in next
  {
    var next := Middleware.Decide(req).next;
    var path := req.pathname;
    assert Middleware.NeedsAuth(path);
    var root :| root in Middleware.ProtectedRoutes && Middleware.UnderRoot(path, root);
    ProtectedRootsAreInternal(root);
    assert |path| >= 2 && path[0] == '/' && path[1] != '/' by {
      if path != root {
        assert path[..|root| + 1] == root + "/";
        assert path[0] == (root + "/")[0] && path[1] == (root + "/")[1];
      }
    }
    assert next[..|path|] == path;
    assert next[0] == path[0] && next[1] == path[1];
  }
}
