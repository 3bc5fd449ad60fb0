/**
 * The route guard of middleware.ts: for a request path, whether an auth-token
 * cookie is present and the value of the user-role cookie, whether the request
 * passes through, is sent to /login or is sent to the home page.
 */
module Middleware {
  import opened Wrappers
  import opened Text

  datatype Response = Next | RedirectLogin | RedirectHome

  /** The paths that need a signed-in user, matched with startsWith. */
  const ProtectedRoutes: seq<string> := ["/admin", "/admin/(.*)"]

  /** The paths that need the admin role, matched with startsWith. */
  const AdminRoutes: seq<string> := ["/admin"]

  /** routes.some(route => pathname.startsWith(route)) */
  predicate MatchesSome(routes: seq<string>, pathname: string)
  {
    exists k :: 0 <= k < |routes| && StartsWith(pathname, routes[k])
  }

  /**
   * The decision for one request. `authToken` says whether the auth-token cookie is
   * set (a cookie object is truthy whatever its value); `userRole` is the value of
   * the user-role cookie, if any.
   */
  function Decide(pathname: string, authToken: bool, userRole: Option<string>): Response
  {
    if MatchesSome(ProtectedRoutes, pathname) then
      if !authToken && !StartsWith(pathname, "/login") then RedirectLogin
      else if MatchesSome(AdminRoutes, pathname) && userRole != Some("admin") then RedirectHome
      else Next
    else Next
  }

  /** A path starting with "/admin/" also starts with "/admin". */
  lemma AdminPrefix(pathname: string)
    requires StartsWith(pathname, "/admin/(.*)")
    ensures StartsWith(pathname, "/admin")
  {
    assert pathname[..6] == pathname[..11][..6];
  }

  /** The second protected pattern is read literally and adds nothing: protection is the "/admin" prefix. */
  lemma ProtectedIsAdminPrefix(pathname: string)
    ensures MatchesSome(ProtectedRoutes, pathname) <==> StartsWith(pathname, "/admin")
  {
    if StartsWith(pathname, "/admin/(.*)") {
      AdminPrefix(pathname);
    }
    if StartsWith(pathname, "/admin") {
      assert StartsWith(pathname, ProtectedRoutes[0]);
    }
  }

  /** Every protected path is an admin path and the other way round. */
  lemma AdminIsProtected(pathname: string)
    ensures MatchesSome(AdminRoutes, pathname) <==> MatchesSome(ProtectedRoutes, pathname)
  {
    ProtectedIsAdminPrefix(pathname);
    if StartsWith(pathname, "/admin") {
      assert StartsWith(pathname, AdminRoutes[0]);
    }
  }

  /** Paths under "/admin" never start with "/login", so the login exemption never applies. */
  lemma LoginExemptionUnused(pathname: string)
    requires StartsWith(pathname, "/admin")
    ensures !StartsWith(pathname, "/login")
  {
    assert pathname[1] == 'a';
  }

  /** The whole decision: what passes, what is sent to sign in and what is sent home. */
  lemma DecisionCases(pathname: string, authToken: bool, userRole: Option<string>)
    ensures Decide(pathname, authToken, userRole) == Next
      <==> !StartsWith(pathname, "/admin") || (authToken && userRole == Some("admin"))
    ensures Decide(pathname, authToken, userRole) == RedirectLogin
      <==> StartsWith(pathname, "/admin") && !authToken
    ensures Decide(pathname, authToken, userRole) == RedirectHome
      <==> StartsWith(pathname, "/admin") && authToken && userRole != Some("admin")
  {
    ProtectedIsAdminPrefix(pathname);
    AdminIsProtected(pathname);
    if StartsWith(pathname, "/admin") {
      LoginExemptionUnused(pathname);
    }
  }

  /** "/administrator" starts with "/admin" and is guarded like the admin pages. */
  lemma AdministratorIsGuarded(authToken: bool)
    ensures Decide("/administrator", authToken, None) == if authToken then RedirectHome else RedirectLogin
  {
    assert StartsWith("/administrator", "/admin") by {
      assert "/administrator"[..6] == "/admin";
    }
    DecisionCases("/administrator", authToken, None);
  }
}
