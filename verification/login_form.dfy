/**
 * The sign-in form: its validation schema, what a successful response does
 * to storage and to the session, and where the visitor is sent afterwards.
 * The form is rendered in the modal (where `onSuccess` closes the modal) or
 * on the standalone page (where there is no `onSuccess`).
 */
module LoginForm {
  import opened Wrappers
  import opened Js
  import opened AuthSlice
  import opened UiSlice
  import opened BrowserStorage

  datatype Variant = ModalVariant | PageVariant

  /** Paths of the schema issues, in field order; the email format check is an input. */
  function LoginIssues(emailValid: bool, password: string): (issues: seq<string>)
    ensures issues == [] <==> (emailValid && |password| >= 6)
    ensures "password" in issues <==> |password| < 6
    ensures "email" in issues <==> !emailValid
  {
    (if emailValid then [] else ["email"]) + (if |password| < 6 then ["password"] else [])
  }

  /** The body of a successful sign-in or registration: `access_token` and `data`, either possibly missing. */
  datatype AuthResponse = AuthResponse(accessToken: Json, data: Option<Record>)

  /** `{...(response?.data || {}), access_token: response?.access_token}` */
  function CredentialsPayload(r: AuthResponse): (u: Record)
    ensures u.Keys == r.data.GetOr(map[]).Keys + {"access_token"}
    ensures u["access_token"] == r.accessToken
    ensures forall k :: k in r.data.GetOr(map[]) && k != "access_token" ==> u[k] == r.data.value[k]
  {
    Spread(r.data.GetOr(map[]), map["access_token" := r.accessToken])
  }

  /**
   * A response without a token still signs in, and writes `undefined` over
   * the token of the session it merges into.
   */
  lemma MissingTokenErasesSessionToken(s: AuthState, data: Option<Record>)
    ensures var r := s.SetCredentials(Some(CredentialsPayload(AuthResponse(JUndef, data))));
      r.status == Authenticated && !Truthy(Get(r.user.value, "access_token"))
  {
  }

  /** Where the success flow navigates: the pending redirect, else the router's origin, else home on the page. */
  function LoginSuccessTarget(redirectPath: Option<string>, fromState: Option<string>, variant: Variant): (nav: Option<string>)
    ensures NonEmpty(redirectPath).Some? ==> nav == redirectPath
    ensures NonEmpty(redirectPath).None? && NonEmpty(fromState).Some? ==> nav == fromState
    ensures NonEmpty(redirectPath).None? && NonEmpty(fromState).None? ==>
              nav == (if variant == PageVariant then Some("/") else None)
    ensures nav.Some? ==> nav.value != ""
  {
    if NonEmpty(redirectPath).Some? then redirectPath
    else if NonEmpty(fromState).Some? then fromState
    else if variant == PageVariant then Some("/")
    else None
  }

  /** `error?.data?.message || "Giriş işlemi başarısız"` */
  function LoginFailureMessage(serverMessage: Option<string>): (m: string)
    ensures m != ""
    ensures serverMessage.Some? && serverMessage.value != "" ==> m == serverMessage.value
    ensures NonEmpty(serverMessage).None? ==> m == "Giriş işlemi başarısız"
  {
    OrText(serverMessage, "Giriş işlemi başarısız")
  }

  /** The page variant leaves for home as soon as a user is present. */
  function PageEffectTarget(hasUser: bool, variant: Variant): (nav: Option<string>)
    ensures nav.Some? <==> (hasUser && variant == PageVariant)
    ensures nav.Some? ==> nav.value == "/"
  {
    if hasUser && variant == PageVariant then Some("/") else None
  }

  /** The storage writes of a successful response: only when it carries a truthy token. */
  method PersistSession(storage: LocalStorage, r: AuthResponse)
    modifies storage
    ensures Truthy(r.accessToken) ==>
              && storage.accessToken == Some(Display(r.accessToken))
              && storage.authUser == Some(Snapshot(r.data.GetOr(map[])))
              && storage.legacyToken.None?
    ensures !Truthy(r.accessToken) ==>
              && storage.accessToken == old(storage.accessToken)
              && storage.authUser == old(storage.authUser)
              && storage.legacyToken == old(storage.legacyToken)
  {
    if Truthy(r.accessToken) {
      storage.accessToken := Some(Display(r.accessToken));
      storage.authUser := Some(Snapshot(r.data.GetOr(map[])));
      storage.legacyToken := None;
    }
  }

  datatype SubmitOutcome = Succeeded(response: AuthResponse) | Rejected(serverMessage: Option<string>)

  /**
   * `onSubmit` after the schema passed, followed by the success flow. The
   * modal variant's `onSuccess` is the modal's success handler.
   */
  method LoginSubmit(auth: AuthStore, ui: UiStore, storage: LocalStorage, outcome: SubmitOutcome,
                     variant: Variant, fromState: Option<string>)
    returns (nav: Option<string>, toast: string)
    modifies auth, ui, storage
    ensures outcome.Rejected? ==>
              && auth.State() == old(auth.State()).SetAuthError(LoginFailureMessage(outcome.serverMessage))
              && toast == LoginFailureMessage(outcome.serverMessage)
              && nav.None? && ui.State() == old(ui.State())
              && storage.accessToken == old(storage.accessToken) && storage.authUser == old(storage.authUser)
              && storage.legacyToken == old(storage.legacyToken)
    ensures outcome.Succeeded? ==>
              var signedIn := old(auth.State()).SetCredentials(Some(CredentialsPayload(outcome.response)));
              && auth.State() == (if NonEmpty(old(auth.redirectPath)).Some? then signedIn.ClearPostAuthRedirect() else signedIn)
              && nav == LoginSuccessTarget(old(auth.redirectPath), fromState, variant)
              && ui.State() == (if variant == ModalVariant then old(ui.State()).CloseAuthModal() else old(ui.State()))
              && toast == "Hoş geldin!"
    ensures outcome.Succeeded? && Truthy(outcome.response.accessToken) ==>
              && storage.accessToken == Some(Display(outcome.response.accessToken))
              && storage.authUser == Some(Snapshot(outcome.response.data.GetOr(map[])))
              && storage.legacyToken.None?
    ensures outcome.Succeeded? && !Truthy(outcome.response.accessToken) ==>
              && storage.accessToken == old(storage.accessToken) && storage.authUser == old(storage.authUser)
              && storage.legacyToken == old(storage.legacyToken)
  {
    var redirectPath := auth.redirectPath;
    match outcome
    case Rejected(serverMessage) =>
      var message := LoginFailureMessage(serverMessage);
      auth.SetAuthError(message);
      return None, message;
    case Succeeded(response) =>
      PersistSession(storage, response);
      auth.SetCredentials(Some(CredentialsPayload(response)));
      toast := "Hoş geldin!";
      if variant == ModalVariant {
        ui.CloseAuthModal();
      }
      if NonEmpty(redirectPath).Some? {
        nav := redirectPath;
        auth.ClearPostAuthRedirect();
        return;
      }
      if NonEmpty(fromState).Some? {
        nav := fromState;
        return;
      }
      nav := if variant == PageVariant then Some("/") else None;
  }

  /**
   * A sign-in that follows a redirect consumes it: the next success flow
   * from the same place no longer goes there.
   */
  lemma RedirectIsConsumed(s: AuthState, r: AuthResponse, fromState: Option<string>, variant: Variant)
    requires NonEmpty(s.redirectPath).Some?
    ensures var s' := s.SetCredentials(Some(CredentialsPayload(r))).ClearPostAuthRedirect();
      && LoginSuccessTarget(s.redirectPath, fromState, variant) == s.redirectPath
      && LoginSuccessTarget(s'.redirectPath, fromState, variant) == LoginSuccessTarget(None, fromState, variant)
  {
  }
}
