/** The two route guards of the application shell (App.tsx): `RequireAuth`,
    which lets a signed-in, permitted and unblocked user through, and
    `RequireNoAuth`, which keeps signed-in users off the login page. Each is
    an ordered sequence of checks over the authentication state. */
module RouteGuards {

  /** What `useAuth()` reports. */
  datatype AuthState = AuthState(loading: bool, hasUser: bool, isAdmin: bool, isBlocked: bool)

  /** What a guard renders: the loading screen, a redirect, or the guarded
      page. */
  datatype GuardView = Spinner | RedirectTo(path: string) | Children

  const LoginPath: string := "/login"
  const HomePath: string := "/"
  const BlockedPath: string := "/blocked"
  const AdminPath: string := "/admin"

  /** `RequireAuth({ children, isAdminRequired })`. */
  function RequireAuth(s: AuthState, isAdminRequired: bool): (v: GuardView)
    ensures s.loading ==> v == Spinner
    ensures v == Children <==>
      !s.loading && s.hasUser && (!isAdminRequired || s.isAdmin) && (!s.isBlocked || s.isAdmin)
    ensures v == RedirectTo(LoginPath) <==> !s.loading && !s.hasUser
    ensures v == RedirectTo(HomePath) <==> !s.loading && s.hasUser && isAdminRequired && !s.isAdmin
    ensures v == RedirectTo(BlockedPath) <==>
      !s.loading && s.hasUser && !isAdminRequired && !s.isAdmin && s.isBlocked
    ensures v in {Spinner, Children, RedirectTo(LoginPath), RedirectTo(HomePath), RedirectTo(BlockedPath)}
  {
    if s.loading then Spinner
    else if !s.hasUser then RedirectTo(LoginPath)
    else if isAdminRequired && !s.isAdmin then RedirectTo(HomePath)
    else if s.isBlocked && !s.isAdmin then RedirectTo(BlockedPath)
    else Children
  }

  /** `RequireNoAuth({ children })`. */
  function RequireNoAuth(s: AuthState): (v: GuardView)
    ensures s.loading ==> v == Spinner
    ensures v == Children <==> !s.loading && !s.hasUser
    ensures v == RedirectTo(AdminPath) <==> !s.loading && s.hasUser && s.isAdmin
    ensures v == RedirectTo(HomePath) <==> !s.loading && s.hasUser && !s.isAdmin
    ensures v in {Spinner, Children, RedirectTo(AdminPath), RedirectTo(HomePath)}
  {
    if s.loading then Spinner
    else if s.hasUser then (if s.isAdmin then RedirectTo(AdminPath) else RedirectTo(HomePath))
    else Children
  }

  /** An admin is never sent to the blocked page, blocked or not. */
  lemma AdminIsNeverBlocked(s: AuthState, isAdminRequired: bool)
    requires s.isAdmin
    ensures RequireAuth(s, isAdminRequired) != RedirectTo(BlockedPath)
  {
  }

  /** The admin check comes first: a blocked non-admin on an admin route is
      sent home, not to the blocked page. */
  lemma AdminCheckPrecedesBlockedCheck(s: AuthState)
    requires !s.loading && s.hasUser && !s.isAdmin && s.isBlocked
    ensures RequireAuth(s, true) == RedirectTo(HomePath)
    ensures RequireAuth(s, false) == RedirectTo(BlockedPath)
  {
  }

  /** The two guards never both render their page: the login page is for
      signed-out users, the guarded pages for signed-in ones. */
  lemma GuardsAreExclusive(s: AuthState, isAdminRequired: bool)
    ensures !(RequireAuth(s, isAdminRequired) == Children && RequireNoAuth(s) == Children)
  {
  }

  /** Whatever the guard on the login page redirects a signed-in user to,
      the guard there lets an unblocked user through: `/admin` for an
      admin, `/` for anyone else. No redirect loop starts at the login
      page. */
  lemma LoginRedirectIsAccepted(s: AuthState)
    requires !s.loading && s.hasUser && (!s.isBlocked || s.isAdmin)
    ensures RequireNoAuth(s) == RedirectTo(AdminPath) ==> RequireAuth(s, true) == Children
    ensures RequireNoAuth(s) == RedirectTo(HomePath) ==> RequireAuth(s, false) == Children
  {
  }
}
