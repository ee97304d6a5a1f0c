/**
 * The route guard wrapped around the protected pages: what it renders for
 * the current session, and the effect that remembers the requested path
 * and asks for the sign-in modal.
 */
module ProtectedRoute {
  import opened Wrappers
  import opened Js
  import opened AuthSlice
  import opened UiSlice

  /** `location.pathname + location.search` */
  function CurrentPath(pathname: string, search: string): string {
    pathname + search
  }

  datatype View = Placeholder | Fallback | Outlet

  /** Which of the three branches renders. */
  function RouteView(hasUser: bool, status: Status): (v: View)
    ensures v == Placeholder <==> status == Checking
    ensures v == Outlet <==> (status != Checking && hasUser)
    ensures v == Fallback <==> (status != Checking && !hasUser)
  {
    if status == Checking then Placeholder
    else if !hasUser then Fallback
    else Outlet
  }

  /** What one run of the guard effect dispatches. */
  datatype GuardDispatch = GuardDispatch(redirect: Option<string>, openLogin: bool)

  function GuardDecision(hasUser: bool, status: Status, modalOpen: bool, dismissedPath: Option<string>, path: string): (d: GuardDispatch)
    ensures d.redirect.Some? <==> (!hasUser && status != Checking)
    ensures d.redirect.Some? ==> d.redirect.value == path
    ensures d.openLogin <==> (!hasUser && status != Checking && !modalOpen && dismissedPath != Some(path))
  {
    if !hasUser && status != Checking then
      GuardDispatch(Some(path), !modalOpen && dismissedPath != Some(path))
    else
      GuardDispatch(None, false)
  }

  /** The effect, run with the values of the render that scheduled it. */
  method GuardEffect(auth: AuthStore, ui: UiStore, user: Option<Record>, status: Status,
                     modalOpen: bool, dismissedPath: Option<string>, path: string)
    returns (prompted: bool)
    modifies auth, ui
    ensures var d := GuardDecision(user.Some?, status, modalOpen, dismissedPath, path);
      && prompted == d.openLogin
      && auth.State() == (if d.redirect.Some? then old(auth.State()).SetPostAuthRedirect(path) else old(auth.State()))
      && ui.State() == (if prompted then old(ui.State()).OpenAuthModal(Some(LoginMode)) else old(ui.State()))
  {
    prompted := false;
    if user.None? && status != Checking {
      auth.SetPostAuthRedirect(path);
      var alreadyDismissed := dismissedPath == Some(path);
      if !modalOpen && !alreadyDismissed {
        ui.OpenAuthModal(Some(LoginMode));
        prompted := true;
      }
    }
  }

  /** The fallback's button: opens the modal on the login tab whatever the dismissal state. */
  method FallbackButton(ui: UiStore)
    modifies ui
    ensures ui.State() == old(ui.State()).OpenAuthModal(Some(LoginMode))
    ensures ui.authModalOpen && ui.authModalMode == LoginMode && ui.dismissedPath.None?
  {
    ui.OpenAuthModal(Some(LoginMode));
  }

  /** While checking, the guard shows the placeholder and dispatches nothing, user or not. */
  lemma CheckingIsInert(hasUser: bool, modalOpen: bool, dismissedPath: Option<string>, path: string)
    ensures RouteView(hasUser, Checking) == Placeholder
    ensures GuardDecision(hasUser, Checking, modalOpen, dismissedPath, path) == GuardDispatch(None, false)
  {
  }

  /**
   * The effect settles: once it has run, running it again on the resulting
   * state (same path, still no user) records the same redirect and never
   * opens the modal a second time.
   */
  lemma GuardOpensOnce(a: AuthState, u: UiState, path: string)
    requires a.user.None?
    ensures var d := GuardDecision(false, a.status, u.authModalOpen, u.dismissedPath, path);
      var u' := if d.openLogin then u.OpenAuthModal(Some(LoginMode)) else u;
      !GuardDecision(false, a.status, u'.authModalOpen, u'.dismissedPath, path).openLogin
  {
  }

  /** The session before start-up finishes is the placeholder state: nothing is dispatched. */
  lemma InitialStateIsInert(ui: UiState, path: string)
    ensures RouteView(AuthSlice.Initial().user.Some?, AuthSlice.Initial().status) == Placeholder
    ensures GuardDecision(AuthSlice.Initial().user.Some?, AuthSlice.Initial().status, ui.authModalOpen, ui.dismissedPath, path).redirect.None?
  {
  }
}
