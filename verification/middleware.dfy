/**
 The route guard that runs before a page is rendered. It looks only at the
 request path and at the `auth_token` cookie, and either lets the request
 through or redirects it.
 */
module Middleware {
  import opened Wrappers
  import opened Js

  const LoginPath := "/login"
  const HomePath := "/home"

  /** The paths that need a session, matched as raw string prefixes. */
  const ProtectedRoutes: seq<string> := ["/home", "/profile", "/settings"]

  /** `NextResponse.next()` or `NextResponse.redirect(new URL(target, ...))`. */
  datatype Action = Continue | Redirect(target: string)

  /** `protectedRoutes.some(route => pathname.startsWith(route))`. */
  predicate IsProtected(pathname: string) {
    exists i :: 0 <= i < |ProtectedRoutes| && StartsWith(pathname, ProtectedRoutes[i])
  }

  /**
   The guard. The protected-route check comes first; the login-page check
   second; everything else continues. The token is judged by truthiness only.
   */
  function Guard(pathname: string, authToken: Option<string>): (a: Action)
    ensures a.Redirect? ==> a.target == LoginPath || a.target == HomePath
    ensures a == Redirect(LoginPath) ==> !Truthy(authToken) && IsProtected(pathname)
    ensures a == Redirect(HomePath) ==> Truthy(authToken) && pathname == LoginPath
    ensures a == Continue ==> (IsProtected(pathname) ==> Truthy(authToken))
  {
    if IsProtected(pathname) && !Truthy(authToken) then Redirect(LoginPath)
    else if pathname == LoginPath && Truthy(authToken) then Redirect(HomePath)
    else Continue
  }

  /** Protection spelled out route by route. */
  lemma ProtectedIffListedPrefix(pathname: string)
    ensures IsProtected(pathname) <==>
      StartsWith(pathname, "/home") || StartsWith(pathname, "/profile") || StartsWith(pathname, "/settings")
  {
    if StartsWith(pathname, "/home") {
      assert StartsWith(pathname, ProtectedRoutes[0]);
    } else if StartsWith(pathname, "/profile") {
      assert StartsWith(pathname, ProtectedRoutes[1]);
    } else if StartsWith(pathname, "/settings") {
      assert StartsWith(pathname, ProtectedRoutes[2]);
    }
  }

  /** The login page is not protected, and the home page is. */
  lemma LoginUnprotectedHomeProtected()
    ensures !IsProtected(LoginPath)
    ensures IsProtected(HomePath)
  {
    ProtectedIffListedPrefix(LoginPath);
    ProtectedIffListedPrefix(HomePath);
    assert LoginPath[1] == 'l';
    assert StartsWith(HomePath, "/home");
  }

  /** The prefix test is not segment-aware: these paths count as protected. */
  lemma RawPrefixProtection()
    ensures IsProtected("/homework")
    ensures IsProtected("/settingsX")
    ensures IsProtected("/profile-public")
  {
    ProtectedIffListedPrefix("/homework");
    ProtectedIffListedPrefix("/settingsX");
    ProtectedIffListedPrefix("/profile-public");
    assert "/homework"[..5] == "/home";
    assert "/settingsX"[..9] == "/settings";
    assert "/profile-public"[..8] == "/profile";
  }

  /** The classes of path the guard distinguishes: protected, the login page, the rest. */
  datatype RouteClass = ProtectedRoute | LoginPage | Unclassified

  /** Classifies a path, looking at the login page first. */
  function Classify(pathname: string): RouteClass {
    if pathname == LoginPath then LoginPage
    else if IsProtected(pathname) then ProtectedRoute
    else Unclassified
  }

  /** The guard as a decision table over (route class, truthy session). */
  function Table(c: RouteClass, session: bool): Action {
    match c
    case ProtectedRoute => if session then Continue else Redirect(LoginPath)
    case LoginPage => if session then Redirect(HomePath) else Continue
    case Unclassified => Continue
  }

  /**
   The guard is its decision table. Since `Classify` tests the login page
   first while the guard tests protection first, this also shows that the
   order of the two checks never changes the outcome.
   */
  lemma GuardIsTable(pathname: string, authToken: Option<string>)
    ensures Guard(pathname, authToken) == Table(Classify(pathname), Truthy(authToken))
  {
    LoginUnprotectedHomeProtected();
  }

  /** The two conditions of the guard never hold together. */
  lemma ChecksExclusive(pathname: string)
    ensures !(IsProtected(pathname) && pathname == LoginPath)
  {
    LoginUnprotectedHomeProtected();
  }

  /**
   No redirect loop: for the same cookie, the target of a redirect is let
   through.
   */
  lemma RedirectTargetIsFixedPoint(pathname: string, authToken: Option<string>)
    ensures Guard(pathname, authToken).Redirect? ==>
      Guard(Guard(pathname, authToken).target, authToken) == Continue
  {
    LoginUnprotectedHomeProtected();
  }

  /** An empty `auth_token` is the same as no cookie at all. */
  lemma EmptyTokenIsAbsent(pathname: string)
    ensures Guard(pathname, Some("")) == Guard(pathname, None)
  {
  }

  /** The guard never looks inside a non-empty token. */
  lemma TokenContentIgnored(pathname: string, t1: string, t2: string)
    requires t1 != "" && t2 != ""
    ensures Guard(pathname, Some(t1)) == Guard(pathname, Some(t2))
  {
  }

  /**
   `base/:path*` of the matcher configuration: the base itself or the base
   followed by a slash and more segments.
   */
  predicate MatchesPathPattern(pathname: string, base: string) {
    pathname == base || StartsWith(pathname, base + "/")
  }

  /** The paths the framework hands to the guard. */
  predicate Matched(pathname: string) {
    || MatchesPathPattern(pathname, "/home")
    || MatchesPathPattern(pathname, "/profile")
    || MatchesPathPattern(pathname, "/settings")
    || pathname == LoginPath
  }

  /**
   On the paths the matcher lets through, the raw prefix test agrees with a
   segment-aware one: every matched path except the login page is protected.
   */
  lemma MatchedPathsProtectedUnlessLogin(pathname: string)
    requires Matched(pathname)
    ensures IsProtected(pathname) <==> pathname != LoginPath
  {
    LoginUnprotectedHomeProtected();
    ProtectedIffListedPrefix(pathname);
    if pathname != LoginPath {
      if MatchesPathPattern(pathname, "/home") {
        if pathname != "/home" {
          StartsWithTransitive(pathname, "/home/", "/home");
        }
      } else if MatchesPathPattern(pathname, "/profile") {
        if pathname != "/profile" {
          StartsWithTransitive(pathname, "/profile/", "/profile");
        } else {
          assert StartsWith(pathname, "/profile");
        }
      } else {
        if pathname != "/settings" {
          StartsWithTransitive(pathname, "/settings/", "/settings");
        } else {
          assert StartsWith(pathname, "/settings");
        }
      }
    }
  }
}
