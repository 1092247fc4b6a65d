/** The route guard (`src/components/ProtectedRoute.jsx`): what a protected page shows
    for a given authentication context. */
module RouteGuard {
  import opened Session
  import AuthContext
  import Gateway
  import AuthService

  /** A spinner, a navigation (with `replace` saying whether history is rewritten), or
      the protected page itself. */
  datatype View = Spinner | Redirect(path: string, replace: bool) | Children

  const LoginPath: string := "/login"

  /** The guard's decision. While loading it shows the spinner whatever the flag says;
      once loaded it shows the page exactly when authenticated and otherwise replaces
      the current entry with `/login`. */
  function Guard(ctx: AuthContext.Ctx): (v: View)
    ensures ctx.loading <==> v == Spinner
    ensures v.Redirect? ==> v == Redirect(LoginPath, true)
    ensures v == Children <==> !ctx.loading && ctx.isAuthenticated
    ensures v.Redirect? <==> !ctx.loading && !ctx.isAuthenticated
  {
    if ctx.loading then Spinner
    else if !ctx.isAuthenticated then Redirect(LoginPath, true)
    else Children
  }

  /** Before the first `checkAuth` the guard waits; after it, the page is shown exactly
      when storage holds a session. */
  lemma GuardAfterLoad(st: Storage)
    ensures Guard(AuthContext.Initial) == Spinner
    ensures Guard(AuthContext.CheckAuth(AuthContext.Initial, st)) ==
      (if IsAuthenticated(st) then Children else Redirect(LoginPath, true))
  {
  }

  /** After a failed token refresh has emptied storage, reloading the application lands
      on the login page instead of the protected page. */
  lemma FailedRefreshThenReloadRedirects(req: Gateway.Request, st: Storage, server: Gateway.Server,
                                         refresh: Gateway.RefreshEndpoint, n: nat)
    requires var sent := Gateway.AttachToken(req, st); Gateway.ShouldRefresh(server(n, sent), sent)
    requires Holds(st, RefreshToken) && refresh(st[RefreshToken]) == Gateway.RefreshFailed
    ensures var l := Gateway.Dispatch(req, st, server, refresh, n);
      Guard(AuthContext.CheckAuth(AuthContext.Initial, l.storage)) == Redirect(LoginPath, true)
  {
    Gateway.FailedRefreshTearsDown(req, st, server, refresh, n);
  }

  /** Signing out from a protected page sends the guard to the login page. */
  lemma LogoutLeavesProtectedPage<T>(ctx: AuthContext.Ctx, st: Storage, call: AuthService.Call<T>)
    requires !ctx.loading
    ensures Guard(AuthContext.Logout(ctx, st, call).0) == Redirect(LoginPath, true)
  {
  }
}
