/**
 * The `ui` slice: whether the shared sign-in modal is open, which tab it
 * shows, and the last path on which the visitor dismissed it.
 */
module UiSlice {
  import opened Wrappers
  import opened Js

  const LoginMode := "login"
  const RegisterMode := "register"

  datatype UiState = UiState(authModalOpen: bool, authModalMode: string, dismissedPath: Option<string>)
  {
    /** `openAuthModal(mode)`: opens on the requested tab ("login" when none is given) and forgets any dismissal. */
    function OpenAuthModal(mode: Option<string>): (r: UiState)
      ensures r.authModalOpen && r.dismissedPath.None?
      ensures mode.Some? && mode.value != "" ==> r.authModalMode == mode.value
      ensures (mode.None? || mode.value == "") ==> r.authModalMode == LoginMode
    {
      UiState(true, OrText(mode, LoginMode), None)
    }

    /** `closeAuthModal()`: closes and nothing else; recording a dismissal is the caller's job. */
    function CloseAuthModal(): (r: UiState)
      ensures !r.authModalOpen && r.authModalMode == authModalMode && r.dismissedPath == dismissedPath
    {
      this.(authModalOpen := false)
    }

    /** `setAuthModalMode(mode)` */
    function SetAuthModalMode(mode: string): (r: UiState)
      ensures r.authModalMode == mode
      ensures r.authModalOpen == authModalOpen && r.dismissedPath == dismissedPath
    {
      this.(authModalMode := mode)
    }

    /** `dismissAuthPrompt(path)`: an empty or missing path is stored as `null`. */
    function DismissAuthPrompt(path: Option<string>): (r: UiState)
      ensures r.dismissedPath.Some? <==> (path.Some? && path.value != "")
      ensures r.dismissedPath.Some? ==> r.dismissedPath == path
      ensures r.authModalOpen == authModalOpen && r.authModalMode == authModalMode
    {
      this.(dismissedPath := NonEmpty(path))
    }
  }

  function Initial(): (s: UiState)
    ensures !s.authModalOpen && s.authModalMode == LoginMode && s.dismissedPath.None?
  {
    UiState(false, LoginMode, None)
  }

  /** Opening then closing the modal leaves it closed with no dismissed path: closing alone records none. */
  lemma OpenThenCloseRecordsNoDismissal(s: UiState, mode: Option<string>)
    ensures !s.OpenAuthModal(mode).CloseAuthModal().authModalOpen
    ensures s.OpenAuthModal(mode).CloseAuthModal().dismissedPath.None?
  {
  }

  class UiStore {
    var authModalOpen: bool
    var authModalMode: string
    var dismissedPath: Option<string>

    function State(): UiState
      reads this
    {
      UiState(authModalOpen, authModalMode, dismissedPath)
    }

    constructor ()
      ensures State() == Initial()
    {
      authModalOpen, authModalMode, dismissedPath := false, LoginMode, None;
    }

    method OpenAuthModal(mode: Option<string>)
      modifies this
      ensures State() == old(State()).OpenAuthModal(mode)
    {
      authModalOpen := true;
      authModalMode := OrText(mode, LoginMode);
      dismissedPath := None;
    }

    method CloseAuthModal()
      modifies this
      ensures State() == old(State()).CloseAuthModal()
    {
      authModalOpen := false;
    }

    method SetAuthModalMode(mode: string)
      modifies this
      ensures State() == old(State()).SetAuthModalMode(mode)
    {
      authModalMode := mode;
    }

    method DismissAuthPrompt(path: Option<string>)
      modifies this
      ensures State() == old(State()).DismissAuthPrompt(path)
    {
      dismissedPath := NonEmpty(path);
    }
  }
}
