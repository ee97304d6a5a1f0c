/**
 * The invisible component that starts the session: it restores the cached
 * session from storage once, verifies the token against the profile
 * endpoint and reconciles the session with the answer. Every effect runs
 * with the values of the render that scheduled it (`currentUser`,
 * `hasToken`, the query state); the store reducers see the live state.
 * The effects' action on the session is specified by pure functions over
 * `AuthState`, and the `Gate` methods are proved against them.
 */
module AuthGate {
  import opened Wrappers
  import opened Js
  import opened AuthSlice
  import opened BrowserStorage

  /** `Boolean(currentUser?.access_token)` */
  predicate HasToken(user: Option<Record>) {
    Truthy(GetOpt(user, "access_token"))
  }

  /** `localStorage.getItem(key)` as a value: a string, or `null` when absent. */
  function StorageValue(v: Option<string>): (j: Json)
    ensures v.None? ==> j == JNull
    ensures v.Some? ==> j == JStr(v.value)
  {
    match v
    case None => JNull
    case Some(t) => JStr(t)
  }

  /** The state of the profile query as the hook reports it in one render. */
  datatype ProfileResponse = ProfileResponse(data: Option<Record>)
  datatype ProfileQuery = ProfileQuery(
    data: Option<ProfileResponse>,
    isFetching: bool,
    isError: bool,
    errorMessage: Option<string>)
  {
    /** `data?.data` */
    function Profile(): (p: Option<Record>)
      ensures p.Some? ==> data.Some?
    {
      if data.Some? then data.value.data else None
    }
  }

  /** The session restored from storage: the cached user with the stored token written over it. */
  function HydratedUser(storedUser: Option<StoredUser>, token: string): (u: Record)
    ensures u.Keys == ParseStoredUser(storedUser).GetOr(map[]).Keys + {"access_token"}
    ensures u["access_token"] == JStr(token)
    ensures forall k :: k in ParseStoredUser(storedUser).GetOr(map[]) && k != "access_token" ==>
              u[k] == ParseStoredUser(storedUser).value[k]
  {
    Spread(ParseStoredUser(storedUser).GetOr(map[]), map["access_token" := JStr(token)])
  }

  /** The hydration effect's dispatches. */
  function HydrateOn(a: AuthState, storedToken: Option<string>, storedUser: Option<StoredUser>): (r: AuthState)
    ensures NonEmpty(storedToken).Some? ==>
              r.status == Checking && r.user.Some? && Get(r.user.value, "access_token") == JStr(storedToken.value)
    ensures NonEmpty(storedToken).Some? ==>
              r.user == a.SetCredentials(Some(HydratedUser(storedUser, storedToken.value))).user
    ensures NonEmpty(storedToken).None? ==> r.user.None? && r.status == Anonymous
    ensures r.error.None? && r.redirectPath == a.redirectPath
  {
    match NonEmpty(storedToken)
    case Some(t) => a.SetCredentials(Some(HydratedUser(storedUser, t))).SetAuthStatus(Checking)
    case None => a.ClearCredentials()
  }

  /**
   * Restored from the initial state, the session user is exactly the hydrated
   * user; with no readable cached user it holds the token alone.
   */
  lemma HydrateFromInitial(storedToken: string, storedUser: Option<StoredUser>)
    requires storedToken != ""
    ensures HydrateOn(Initial(), Some(storedToken), storedUser).user == Some(HydratedUser(storedUser, storedToken))
    ensures ParseStoredUser(storedUser).None? ==>
              HydrateOn(Initial(), Some(storedToken), storedUser).user == Some(map["access_token" := JStr(storedToken)])
  {
    var u := HydratedUser(storedUser, storedToken);
    assert Spread(map[], u) == u;
    if ParseStoredUser(storedUser).None? {
      assert u == map["access_token" := JStr(storedToken)];
    }
  }

  /** The fetching effect's dispatch. */
  function FetchingOn(a: AuthState, isFetching: bool): (r: AuthState)
    ensures isFetching ==> r.status == Checking
    ensures r.user == a.user && r.error == a.error && r.redirectPath == a.redirectPath
    ensures !isFetching ==> r == a
  {
    if isFetching then a.SetAuthStatus(Checking) else a
  }

  /**
   * The verified user: the profile from the server with the session token
   * kept, from the render's user or else from storage; a token inside the
   * profile never replaces it.
   */
  function VerifiedUser(profile: Record, currentUser: Option<Record>, storedToken: Option<string>): (u: Record)
    ensures u.Keys == profile.Keys + {"access_token"}
    ensures forall k :: k in profile && k != "access_token" ==> u[k] == profile[k]
    ensures HasToken(currentUser) ==> u["access_token"] == GetOpt(currentUser, "access_token")
    ensures !HasToken(currentUser) ==> u["access_token"] == StorageValue(storedToken)
  {
    Spread(profile, map["access_token" := Or(GetOpt(currentUser, "access_token"), StorageValue(storedToken))])
  }

  datatype DataOutcome = Verified(profile: Record) | MarkStatus(status: Status) | NoChange

  /** Which branch of the data effect applies. */
  function DataDecision(q: ProfileQuery, hasToken: bool): (o: DataOutcome)
    ensures o.Verified? <==> q.Profile().Some?
    ensures o.Verified? ==> o.profile == q.Profile().value
    ensures o.MarkStatus? <==> (q.data.None? && !q.isFetching && !q.isError)
    ensures o.MarkStatus? ==> o.status == (if hasToken then Authenticated else Anonymous)
  {
    match q.Profile()
    case Some(p) => Verified(p)
    case None =>
      if q.data.None? && !q.isFetching && !q.isError then
        MarkStatus(if hasToken then Authenticated else Anonymous)
      else NoChange
  }

  /** The data effect's dispatches. */
  function DataEffectOn(a: AuthState, q: ProfileQuery, currentUser: Option<Record>, storedToken: Option<string>): (r: AuthState)
    ensures q.Profile().Some? ==> r.Paired() && r.status == Authenticated && r.error.None?
    ensures q.Profile().Some? ==>
              r.user == a.SetCredentials(Some(VerifiedUser(q.Profile().value, currentUser, storedToken))).user
    ensures DataDecision(q, HasToken(currentUser)).MarkStatus? ==>
              r.status == DataDecision(q, HasToken(currentUser)).status
    ensures DataDecision(q, HasToken(currentUser)).NoChange? ==> r == a
    ensures r.redirectPath == a.redirectPath
    ensures q.Profile().None? ==> r.user == a.user && r.error == a.error
  {
    match DataDecision(q, HasToken(currentUser))
    case Verified(p) => a.SetCredentials(Some(VerifiedUser(p, currentUser, storedToken))).SetAuthStatus(Authenticated)
    case MarkStatus(s) => a.SetAuthStatus(s)
    case NoChange => a
  }

  /** `error?.data?.message || "Authentication required"` */
  function FailureMessage(q: ProfileQuery): (m: string)
    ensures m != ""
    ensures q.errorMessage.Some? && q.errorMessage.value != "" ==> m == q.errorMessage.value
    ensures NonEmpty(q.errorMessage).None? ==> m == "Authentication required"
  {
    OrText(q.errorMessage, "Authentication required")
  }

  /** The error effect's dispatches, as written: the session is cleared only when no user was rendered. */
  function ErrorEffectOn(a: AuthState, q: ProfileQuery, currentUser: Option<Record>): (r: AuthState)
    ensures q.isError && currentUser.None? ==>
              r.user.None? && r.status == Anonymous && r.error == Some(FailureMessage(q))
    ensures r.redirectPath == a.redirectPath
    ensures !(q.isError && currentUser.None?) ==> r == a
  {
    if q.isError && currentUser.None? then
      a.ClearCredentials().SetAuthError(FailureMessage(q)).SetAuthStatus(Anonymous)
    else a
  }

  /** The error effect with the guard on `currentUser` removed: a failed verification always signs out. */
  function CorrectedErrorEffectOn(a: AuthState, q: ProfileQuery): (r: AuthState)
    ensures q.isError ==> r.user.None? && r.status == Anonymous && r.error == Some(FailureMessage(q))
    ensures r.redirectPath == a.redirectPath
    ensures !q.isError ==> r == a
  {
    if q.isError then a.ClearCredentials().SetAuthError(FailureMessage(q)).SetAuthStatus(Anonymous)
    else a
  }

  /** One commit after mount in which the fetching, data and error effects all run, in that order. */
  function Commit(a: AuthState, q: ProfileQuery, currentUser: Option<Record>, storedToken: Option<string>): (r: AuthState)
    ensures r.redirectPath == a.redirectPath
    ensures q.isError && currentUser.None? ==>
              r.user.None? && r.status == Anonymous && r.error == Some(FailureMessage(q))
    ensures q.isError && currentUser.Some? && q.Profile().None? ==> r.user == a.user && r.error == a.error
  {
    ErrorEffectOn(DataEffectOn(FetchingOn(a, q.isFetching), q, currentUser, storedToken), q, currentUser)
  }

  function CorrectedCommit(a: AuthState, q: ProfileQuery, currentUser: Option<Record>, storedToken: Option<string>): AuthState {
    CorrectedErrorEffectOn(DataEffectOn(FetchingOn(a, q.isFetching), q, currentUser, storedToken), q)
  }

  /** The three query states of a start-up whose verification fails. */
  function Idle(): ProfileQuery { ProfileQuery(None, false, false, None) }
  function InFlight(): ProfileQuery { ProfileQuery(None, true, false, None) }
  function Failed(message: Option<string>): ProfileQuery { ProfileQuery(None, false, true, message) }

  /**
   * Start-up with a stored token and a failing profile request, as written.
   * The mount commit hydrates and, having rendered no user, marks the
   * session anonymous; the next commit starts the request and marks it
   * "checking"; when the request fails, a user was rendered, so the error
   * effect leaves the session alone and it stays "checking" with the
   * unverified user.
   */
  lemma FailedVerificationStaysChecking(token: string, cached: Option<StoredUser>, message: Option<string>)
    requires token != ""
    ensures var a1 := Commit(HydrateOn(Initial(), Some(token), cached), Idle(), None, Some(token));
      var a2 := Commit(a1, InFlight(), a1.user, Some(token));
      var a3 := Commit(a2, Failed(message), a2.user, None);
      a3.status == Checking && a3.user.Some? && !a3.Paired()
  {
    var a0 := HydrateOn(Initial(), Some(token), cached);
    assert a0.user.Some?;
    var a1 := Commit(a0, Idle(), None, Some(token));
    assert a1.user == a0.user;
    var a2 := Commit(a1, InFlight(), a1.user, Some(token));
    assert a2.status == Checking && a2.user.Some?;
  }

  /** The same start-up with the corrected error effect ends signed out. */
  lemma CorrectedFailedVerificationSignsOut(token: string, cached: Option<StoredUser>, message: Option<string>)
    requires token != ""
    ensures var a1 := CorrectedCommit(HydrateOn(Initial(), Some(token), cached), Idle(), None, Some(token));
      var a2 := CorrectedCommit(a1, InFlight(), a1.user, Some(token));
      var a3 := CorrectedCommit(a2, Failed(message), a2.user, None);
      a3.status == Anonymous && a3.user.None? && a3.Paired() && a3.error == Some(FailureMessage(Failed(message)))
  {
  }

  /** With the correction, any commit that sees a failed request leaves the session paired and signed out. */
  lemma CorrectedCommitOnErrorSignsOut(a: AuthState, q: ProfileQuery, currentUser: Option<Record>, storedToken: Option<string>)
    requires q.isError
    ensures CorrectedCommit(a, q, currentUser, storedToken).Paired()
    ensures CorrectedCommit(a, q, currentUser, storedToken).user.None?
  {
  }

  /** A commit that receives the profile always leaves an authenticated, paired session carrying a token. */
  lemma ProfileCommitAuthenticates(a: AuthState, q: ProfileQuery, currentUser: Option<Record>, storedToken: Option<string>)
    requires q.Profile().Some? && !q.isError
    ensures var r := Commit(a, q, currentUser, storedToken);
      r.status == Authenticated && r.Paired() && "access_token" in r.user.value
  {
  }

  /**
   * A commit that receives the profile leaves a session user holding every
   * profile field but the token, and the token the verified user carries.
   */
  lemma ProfileCommitHoldsProfile(a: AuthState, q: ProfileQuery, currentUser: Option<Record>, storedToken: Option<string>)
    requires q.Profile().Some? && !q.isError
    ensures var r := Commit(a, q, currentUser, storedToken);
      var p := q.Profile().value;
      && r.user.Some?
      && (forall k :: k in p && k != "access_token" ==> k in r.user.value && r.user.value[k] == p[k])
      && r.user.value["access_token"] == VerifiedUser(p, currentUser, storedToken)["access_token"]
  {
    var mid := DataEffectOn(FetchingOn(a, q.isFetching), q, currentUser, storedToken);
    assert Commit(a, q, currentUser, storedToken) == mid;
  }

  /** Hydration with a stored token turns verification on for the next render; without one it stays off. */
  lemma HydrationEnablesVerification(a: AuthState, storedToken: Option<string>, cached: Option<StoredUser>)
    ensures HasToken(HydrateOn(a, storedToken, cached).user) <==> NonEmpty(storedToken).Some?
  {
    if NonEmpty(storedToken).Some? {
      assert Get(HydrateOn(a, storedToken, cached).user.value, "access_token") == JStr(storedToken.value);
    }
  }

  /** The component: its one piece of local state, and its effects. */
  class Gate {
    var isHydrated: bool

    constructor ()
      ensures !isHydrated
    {
      isHydrated := false;
    }

    /** The profile query runs, and the five-minute re-verification is scheduled, exactly when this holds. */
    function VerificationActive(currentUser: Option<Record>): (active: bool)
      reads this
      ensures active <==> isHydrated && currentUser.Some? && Truthy(Get(currentUser.value, "access_token"))
    {
      isHydrated && HasToken(currentUser)
    }

    /** Mount effect: drop the legacy key, restore the cached session, mark hydrated. */
    method Hydrate(auth: AuthStore, storage: LocalStorage)
      modifies this, auth, storage
      ensures isHydrated
      ensures auth.State() == HydrateOn(old(auth.State()), old(storage.accessToken), old(storage.authUser))
      ensures storage.legacyToken.None?
      ensures storage.accessToken == old(storage.accessToken) && storage.authUser == old(storage.authUser)
    {
      storage.legacyToken := None;
      var storedToken := storage.accessToken;
      var storedUser := storage.authUser;
      if NonEmpty(storedToken).Some? {
        var parsed := ParseStoredUser(storedUser);
        auth.SetCredentials(Some(Spread(parsed.GetOr(map[]), map["access_token" := JStr(storedToken.value)])));
        auth.SetAuthStatus(Checking);
      } else {
        auth.ClearCredentials();
      }
      storage.legacyToken := None;
      isHydrated := true;
    }

    method FetchingEffect(auth: AuthStore, isFetching: bool)
      modifies auth
      ensures auth.State() == FetchingOn(old(auth.State()), isFetching)
    {
      if isFetching {
        auth.SetAuthStatus(Checking);
      }
    }

    /** Data effect: on a profile, refresh the session and the cached snapshot. */
    method DataEffect(auth: AuthStore, storage: LocalStorage, q: ProfileQuery, currentUser: Option<Record>)
      modifies auth, storage
      ensures auth.State() == DataEffectOn(old(auth.State()), q, currentUser, old(storage.accessToken))
      ensures storage.authUser == (if q.Profile().Some? then Some(Snapshot(q.Profile().value)) else old(storage.authUser))
      ensures storage.accessToken == old(storage.accessToken) && storage.legacyToken == old(storage.legacyToken)
    {
      var hasToken := HasToken(currentUser);
      if q.Profile().Some? {
        var profile := q.Profile().value;
        var userData := Spread(profile, map["access_token" := Or(GetOpt(currentUser, "access_token"), StorageValue(storage.accessToken))]);
        auth.SetCredentials(Some(userData));
        storage.authUser := Some(Snapshot(profile));
        auth.SetAuthStatus(Authenticated);
      } else if !q.isFetching && q.data.None? && !q.isError && hasToken {
        auth.SetAuthStatus(Authenticated);
      } else if !q.isFetching && q.data.None? && !q.isError && !hasToken {
        auth.SetAuthStatus(Anonymous);
      }
    }

    /** Error effect: clear the session if none was rendered, and clear the stored credentials. */
    method ErrorEffect(auth: AuthStore, storage: LocalStorage, q: ProfileQuery, currentUser: Option<Record>)
      modifies auth, storage
      ensures auth.State() == ErrorEffectOn(old(auth.State()), q, currentUser)
      ensures q.isError ==> storage.accessToken.None? && storage.authUser.None?
      ensures !q.isError ==> storage.accessToken == old(storage.accessToken) && storage.authUser == old(storage.authUser)
      ensures storage.legacyToken == old(storage.legacyToken)
    {
      if q.isError && currentUser.None? {
        auth.ClearCredentials();
        auth.SetAuthError(OrText(q.errorMessage, "Authentication required"));
        auth.SetAuthStatus(Anonymous);
      }
      if q.isError {
        storage.accessToken := None;
        storage.authUser := None;
      }
    }
  }
}
