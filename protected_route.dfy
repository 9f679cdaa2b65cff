/**
 * The two route gates: a spinner while the context is loading, then the
 * protected page or a redirect.
 */
module ProtectedRoutes {
  import opened Wrappers
  import opened SessionJson
  import opened AuthResponses
  import AuthContext

  datatype Render = Spinner | Outlet | Redirect(to: string)

  /** ProtectedRoute: the page for a signed-in user, otherwise the login page. */
  function ProtectedRoute(loading: bool, isAuthenticated: bool): (r: Render)
    ensures loading <==> r == Spinner
    ensures r == Outlet <==> !loading && isAuthenticated
    ensures !loading && !isAuthenticated ==> r == Redirect("/login")
  {
    if loading then Spinner else if isAuthenticated then Outlet else Redirect("/login")
  }

  /** AdminRoute: the page for a signed-in admin, otherwise the home page, signed in or not. */
  function AdminRoute(loading: bool, isAuthenticated: bool, isAdmin: bool): (r: Render)
    ensures loading <==> r == Spinner
    ensures r == Outlet <==> !loading && isAuthenticated && isAdmin
    ensures !loading && !(isAuthenticated && isAdmin) ==> r == Redirect("/")
  {
    if loading then Spinner else if isAuthenticated && isAdmin then Outlet else Redirect("/")
  }

  /** Whatever the admin gate lets through, the plain gate lets through. */
  lemma AdminImpliesProtected(loading: bool, user: Option<SessionUser>)
    ensures AdminRoute(loading, AuthContext.IsAuthenticated(user), AuthContext.IsAdmin(user)) == Outlet
      ==> ProtectedRoute(loading, AuthContext.IsAuthenticated(user)) == Outlet
  {
  }

  /** With the client as written, the admin pages turn away every user, admins included. */
  lemma AsWrittenAdminShutOut(loading: bool, r: AuthResponse)
    ensures var user := Some(SessionUserOfAsWritten(Body(r)));
      AdminRoute(loading, AuthContext.IsAuthenticated(user), AuthContext.IsAdmin(user)) != Outlet
  {
    AuthContext.AsWrittenNeverAdmin(r);
  }

  /** Reading the server's names, the admin pages open exactly for users the server marks as admins. */
  lemma AdminPagesForServerAdmins(r: AuthResponse)
    ensures var user := Some(SessionUserOf(Body(r)));
      AdminRoute(false, AuthContext.IsAuthenticated(user), AuthContext.IsAdmin(user)) == Outlet <==> r.isAdmin
  {
    AuthContext.SignedInFromAnswer(r);
  }
}
