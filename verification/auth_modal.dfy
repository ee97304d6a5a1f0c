/** The shared sign-in / registration modal and its handlers. */
module AuthModal {
  import opened Wrappers
  import opened UiSlice
  import opened ProtectedRoute

  datatype Body = Nothing | LoginFormBody | RegisterFormBody

  /** Nothing while closed; the login form only on the "login" tab, the registration form on any other. */
  function ModalBody(s: UiState): (b: Body)
    ensures b == Nothing <==> !s.authModalOpen
    ensures b == LoginFormBody <==> (s.authModalOpen && s.authModalMode == LoginMode)
    ensures b == RegisterFormBody <==> (s.authModalOpen && s.authModalMode != LoginMode)
  {
    if !s.authModalOpen then Nothing
    else if s.authModalMode == LoginMode then LoginFormBody
    else RegisterFormBody
  }

  /** The X button: close, then record the current path as dismissed. */
  method HandleClose(ui: UiStore, path: string)
    modifies ui
    ensures ui.State() == old(ui.State()).CloseAuthModal().DismissAuthPrompt(Some(path))
  {
    ui.CloseAuthModal();
    ui.DismissAuthPrompt(Some(path));
  }

  /** A successful sign-in or registration inside the modal: close only, no dismissal recorded. */
  method HandleAuthSuccess(ui: UiStore)
    modifies ui
    ensures ui.State() == old(ui.State()).CloseAuthModal()
  {
    ui.CloseAuthModal();
  }

  /** The two tabs. */
  method SelectTab(ui: UiStore, register: bool)
    modifies ui
    ensures ui.State() == old(ui.State()).SetAuthModalMode(if register then RegisterMode else LoginMode)
  {
    ui.SetAuthModalMode(if register then RegisterMode else LoginMode);
  }

  /**
   * Dismissing the modal on a protected path keeps the guard from reopening
   * it there, while any other path still prompts.
   */
  lemma DismissSuppressesReprompt(s: UiState, status: AuthSlice.Status, path: string, other: string)
    requires status != AuthSlice.Checking && path != "" && other != path
    ensures var s' := s.CloseAuthModal().DismissAuthPrompt(Some(path));
      && !GuardDecision(false, status, s'.authModalOpen, s'.dismissedPath, path).openLogin
      && GuardDecision(false, status, s'.authModalOpen, s'.dismissedPath, other).openLogin
  {
  }

  /** After a successful sign-in the dismissal state is whatever it was: success never records one. */
  lemma SuccessRecordsNoDismissal(s: UiState)
    ensures s.CloseAuthModal().dismissedPath == s.dismissedPath
    ensures ModalBody(s.CloseAuthModal()) == Nothing
  {
  }
}
