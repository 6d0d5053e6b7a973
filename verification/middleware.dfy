/**
 * The request middleware: sends a visitor without a session away from the
 * protected pages to the login page, and a visitor with a session away from
 * the login and registration pages to the home page.
 */
module Middleware {
  import opened Text

  /** Pages that need a session, matched as prefixes of the path. */
  const ProtectedRoutes: seq<string> := ["/dashboard", "/profile", "/settings"]

  /** Pages for visitors without a session, matched exactly. */
  const AuthRoutes: seq<string> := ["/auth/login", "/auth/register"]

  const LoginPath := "/auth/login"
  const HomePath := "/"

  /** `protectedRoutes.some(route => pathname.startsWith(route))`. */
  function IsProtected(path: string): (r: bool)
    ensures r <==> StartsWith(path, "/dashboard") || StartsWith(path, "/profile") || StartsWith(path, "/settings")
  {
    assert ProtectedRoutes[0] == "/dashboard" && ProtectedRoutes[1] == "/profile" && ProtectedRoutes[2] == "/settings";
    exists i :: 0 <= i < |ProtectedRoutes| && StartsWith(path, ProtectedRoutes[i])
  }

  /** `authRoutes.includes(pathname)`. */
  function IsAuthRoute(path: string): (r: bool)
    ensures r <==> path == "/auth/login" || path == "/auth/register"
  {
    path in AuthRoutes
  }

  /** What the middleware answers: a redirect, or passing the request on. */
  datatype Decision =
    | RedirectToLogin(callbackUrl: string)
    | RedirectHome
    | PassThrough

  /** `middleware`, with `getToken`'s answer reduced to whether a session token exists. */
  function Decide(path: string, hasToken: bool): (d: Decision)
    ensures d.RedirectToLogin? <==> IsProtected(path) && !hasToken
    ensures d.RedirectToLogin? ==> d.callbackUrl == path
    ensures d.RedirectHome? <==> IsAuthRoute(path) && hasToken
    ensures d.PassThrough? <==> (!IsProtected(path) || hasToken) && (!IsAuthRoute(path) || !hasToken)
  {
    ProtectedIsNotAuth(path);
    if IsProtected(path) && !hasToken then RedirectToLogin(path)
    else if IsAuthRoute(path) && hasToken then RedirectHome
    else PassThrough
  }

  /** No path is both protected and an authentication page, so at most one redirect applies. */
  lemma ProtectedIsNotAuth(path: string)
    ensures !(IsProtected(path) && IsAuthRoute(path))
  {
    forall j, i | 0 <= j < |AuthRoutes| && 0 <= i < |ProtectedRoutes|
      ensures !StartsWith(AuthRoutes[j], ProtectedRoutes[i])
    {
      assert AuthRoutes[j][..|ProtectedRoutes[i]|][1] == 'a' != ProtectedRoutes[i][1];
    }
  }

  /** Every path below a protected one is protected too: `/dashboardX` counts. */
  lemma ProtectedByPrefix(i: nat, rest: string)
    requires i < |ProtectedRoutes|
    ensures IsProtected(ProtectedRoutes[i] + rest)
  {
    assert (ProtectedRoutes[i] + rest)[..|ProtectedRoutes[i]|] == ProtectedRoutes[i];
  }

  /** Authentication pages match exactly: a longer path is not one. */
  lemma AuthIsExact(rest: string)
    requires rest != []
    ensures forall a :: a in AuthRoutes ==> !IsAuthRoute(a + rest)
  {
    assert (AuthRoutes[0] + rest)[6] == 'l' != AuthRoutes[1][6];
    assert |AuthRoutes[1] + rest| > |AuthRoutes[1]| > |AuthRoutes[0]|;
  }

  /** Neither redirect leads to another redirect: the targets pass through. */
  lemma RedirectTargetsPass(hasToken: bool)
    ensures Decide(LoginPath, false) == PassThrough
    ensures Decide(HomePath, hasToken) == PassThrough
  {
    assert !IsProtected(LoginPath) by {
      forall i | 0 <= i < |ProtectedRoutes|
        ensures !StartsWith(LoginPath, ProtectedRoutes[i])
      {
        if |ProtectedRoutes[i]| <= |LoginPath| {
          assert LoginPath[..|ProtectedRoutes[i]|][1] == 'a' != ProtectedRoutes[i][1];
        }
      }
    }
    assert !IsProtected(HomePath) by {
      forall i | 0 <= i < |ProtectedRoutes|
        ensures !StartsWith(HomePath, ProtectedRoutes[i])
      {
        assert |ProtectedRoutes[i]| > |HomePath|;
      }
    }
    assert !IsAuthRoute(HomePath);
  }
}
