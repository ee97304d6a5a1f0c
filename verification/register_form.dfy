/**
 * The registration form: its schema with the role-dependent refinement, and
 * its success flow, which has no fallback to the router's origin and, on
 * failure, only notifies.
 */
module RegisterForm {
  import opened Wrappers
  import opened Js
  import opened AuthSlice
  import opened UiSlice
  import opened BrowserStorage
  import opened LoginForm

  const StudentRole := "student"
  const TeacherRole := "teacher"

  /** The form's values; the optional fields may be absent. The default role is "student". */
  datatype RegisterValues = RegisterValues(
    name: string, email: string, password: string, role: string,
    department: Option<string>, branch: Option<string>)

  function DefaultValues(): (v: RegisterValues)
    ensures v.role == StudentRole && v.department == Some("") && v.branch == Some("")
  {
    RegisterValues("", "", "", StudentRole, Some(""), Some(""))
  }

  /** The refinement: a student names a department, a teacher a branch. */
  predicate RoleDetailsGiven(v: RegisterValues) {
    && !(v.role == StudentRole && NonEmpty(v.department).None?)
    && !(v.role == TeacherRole && NonEmpty(v.branch).None?)
  }

  /**
   * Paths of the schema issues in order. A role outside the enumeration
   * aborts the object, so the refinement is not consulted; field issues
   * of the other kinds leave it running.
   */
  function RegisterIssues(v: RegisterValues, emailValid: bool): (issues: seq<string>)
    ensures issues == [] <==>
              (|v.name| >= 2 && emailValid && |v.password| >= 6
               && (v.role == StudentRole || v.role == TeacherRole) && RoleDetailsGiven(v))
    ensures "name" in issues <==> |v.name| < 2
    ensures "password" in issues <==> |v.password| < 6
    ensures "role" in issues <==> !(v.role == StudentRole || v.role == TeacherRole)
    ensures "email" in issues <==> !emailValid
    ensures "department" in issues <==> ((v.role == StudentRole || v.role == TeacherRole) && !RoleDetailsGiven(v))
  {
    var roleOk := v.role == StudentRole || v.role == TeacherRole;
    (if |v.name| < 2 then ["name"] else [])
    + (if emailValid then [] else ["email"])
    + (if |v.password| < 6 then ["password"] else [])
    + (if roleOk then [] else ["role"])
    + (if roleOk && !RoleDetailsGiven(v) then ["department"] else [])
  }

  /** The refinement's issue is reported on "department" even when the teacher's branch is what is missing. */
  lemma TeacherWithoutBranchFlagsDepartment(v: RegisterValues, emailValid: bool)
    requires v.role == TeacherRole && NonEmpty(v.branch).None?
    ensures "department" in RegisterIssues(v, emailValid)
    ensures "branch" !in RegisterIssues(v, emailValid)
  {
    var issues := RegisterIssues(v, emailValid);
    assert issues[|issues| - 1] == "department";
  }

  /** The untouched form never passes: the default student has no department. */
  lemma DefaultsRejected(emailValid: bool)
    ensures "department" in RegisterIssues(DefaultValues(), emailValid)
  {
    var issues := RegisterIssues(DefaultValues(), emailValid);
    assert issues[|issues| - 1] == "department";
  }

  /** The registration success flow's destination. */
  function RegisterSuccessTarget(redirectPath: Option<string>, variant: Variant): (nav: Option<string>)
    ensures NonEmpty(redirectPath).Some? ==> nav == redirectPath
    ensures NonEmpty(redirectPath).None? ==> nav == (if variant == PageVariant then Some("/") else None)
  {
    if NonEmpty(redirectPath).Some? then redirectPath
    else if variant == PageVariant then Some("/")
    else None
  }

  /** Registration goes where sign-in would go if the router carried no origin. */
  lemma RegisterTargetIsLoginWithoutOrigin(redirectPath: Option<string>, fromState: Option<string>, variant: Variant)
    ensures RegisterSuccessTarget(redirectPath, variant) == LoginSuccessTarget(redirectPath, None, variant)
    ensures NonEmpty(fromState).None? ==>
              RegisterSuccessTarget(redirectPath, variant) == LoginSuccessTarget(redirectPath, fromState, variant)
  {
  }

  /** `error?.data?.message || "Kayıt başarısız"` */
  function RegisterFailureMessage(serverMessage: Option<string>): (m: string)
    ensures m != ""
    ensures serverMessage.Some? && serverMessage.value != "" ==> m == serverMessage.value
    ensures NonEmpty(serverMessage).None? ==> m == "Kayıt başarısız"
  {
    OrText(serverMessage, "Kayıt başarısız")
  }

  /** `onSubmit` after the schema passed, followed by the success flow; a failure leaves every store alone. */
  method RegisterSubmit(auth: AuthStore, ui: UiStore, storage: LocalStorage, outcome: SubmitOutcome, variant: Variant)
    returns (nav: Option<string>, toast: string)
    modifies auth, ui, storage
    ensures outcome.Rejected? ==>
              && auth.State() == old(auth.State()) && ui.State() == old(ui.State())
              && storage.accessToken == old(storage.accessToken) && storage.authUser == old(storage.authUser)
              && storage.legacyToken == old(storage.legacyToken)
              && nav.None? && toast == RegisterFailureMessage(outcome.serverMessage)
    ensures outcome.Succeeded? ==>
              var signedIn := old(auth.State()).SetCredentials(Some(CredentialsPayload(outcome.response)));
              && auth.State() == (if NonEmpty(old(auth.redirectPath)).Some? then signedIn.ClearPostAuthRedirect() else signedIn)
              && nav == RegisterSuccessTarget(old(auth.redirectPath), variant)
              && ui.State() == (if variant == ModalVariant then old(ui.State()).CloseAuthModal() else old(ui.State()))
              && toast == "Hesap oluşturuldu, hoş geldin!"
    ensures outcome.Succeeded? && Truthy(outcome.response.accessToken) ==>
              && storage.accessToken == Some(Display(outcome.response.accessToken))
              && storage.authUser == Some(Snapshot(outcome.response.data.GetOr(map[])))
              && storage.legacyToken.None?
    ensures outcome.Succeeded? && !Truthy(outcome.response.accessToken) ==>
              && storage.accessToken == old(storage.accessToken) && storage.authUser == old(storage.authUser)
              && storage.legacyToken == old(storage.legacyToken)
  {
    var redirectPath := auth.redirectPath;
    match outcome
    case Rejected(serverMessage) =>
      return None, RegisterFailureMessage(serverMessage);
    case Succeeded(response) =>
      PersistSession(storage, response);
      auth.SetCredentials(Some(CredentialsPayload(response)));
      toast := "Hesap oluşturuldu, hoş geldin!";
      if variant == ModalVariant {
        ui.CloseAuthModal();
      }
      if NonEmpty(redirectPath).Some? {
        nav := redirectPath;
        auth.ClearPostAuthRedirect();
        return;
      }
      nav := if variant == PageVariant then Some("/") else None;
  }
}
