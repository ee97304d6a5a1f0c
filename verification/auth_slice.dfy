/**
 * The `auth` slice of the store: the signed-in user, the verification
 * status, the last authentication error and the path to resume after a
 * successful sign-in. `AuthState` and its member functions specify the
 * reducers; `AuthStore` performs them field by field, in place.
 */
module AuthSlice {
  import opened Wrappers
  import opened Js

  datatype Status = Checking | Authenticated | Anonymous | Error

  datatype AuthState = AuthState(
    user: Option<Record>,
    status: Status,
    error: Option<string>,
    redirectPath: Option<string>)
  {
    /**
     * `setCredentials(payload)`: a missing payload signs out; an object is
     * shallow-merged over the current user (its properties win) and the
     * session becomes authenticated.
     */
    function SetCredentials(incoming: Option<Record>): (r: AuthState)
      ensures incoming.None? ==> r.user.None? && r.status == Anonymous
      ensures incoming.Some? ==> r.user.Some? && r.status == Authenticated
      ensures incoming.Some? ==> r.user.value.Keys == user.GetOr(map[]).Keys + incoming.value.Keys
      ensures incoming.Some? ==> forall k :: k in incoming.value ==> r.user.value[k] == incoming.value[k]
      ensures incoming.Some? && user.Some? ==>
                forall k :: k in user.value && k !in incoming.value ==> r.user.value[k] == user.value[k]
      ensures r.error.None? && r.redirectPath == redirectPath
    {
      match incoming
      case None => this.(user := None, status := Anonymous, error := None)
      case Some(u) => this.(user := Some(Spread(user.GetOr(map[]), u)), status := Authenticated, error := None)
    }

    /** `clearCredentials()` */
    function ClearCredentials(): (r: AuthState)
      ensures r == SetCredentials(None)
    {
      this.(user := None, status := Anonymous, error := None)
    }

    /** `setAuthError(message)`: records the message; user and redirect path are untouched. */
    function SetAuthError(message: string): (r: AuthState)
      ensures r.error == Some(message) && r.status == Error
      ensures r.user == user && r.redirectPath == redirectPath
    {
      this.(error := Some(message), status := Error)
    }

    /** `setAuthStatus(status)`: changes nothing but the status. */
    function SetAuthStatus(s: Status): (r: AuthState)
      ensures r.status == s && r.user == user && r.error == error && r.redirectPath == redirectPath
    {
      this.(status := s)
    }

    /** `setPostAuthRedirect(path)` */
    function SetPostAuthRedirect(path: string): (r: AuthState)
      ensures r.redirectPath == Some(path)
      ensures r.user == user && r.status == status && r.error == error
    {
      this.(redirectPath := Some(path))
    }

    /** `clearPostAuthRedirect()` */
    function ClearPostAuthRedirect(): (r: AuthState)
      ensures r.redirectPath.None?
      ensures r.user == user && r.status == status && r.error == error
    {
      this.(redirectPath := None)
    }

    /** The pairing the session is meant to keep: authenticated exactly when a user is present. */
    predicate Paired() {
      status == Authenticated <==> user.Some?
    }
  }

  /** The state before anything has been dispatched. */
  function Initial(): (s: AuthState)
    ensures s.user.None? && s.status == Checking && s.error.None? && s.redirectPath.None?
  {
    AuthState(None, Checking, None, None)
  }

  /** Two sign-ins in a row from a signed-out state leave exactly `{...u1, ...u2}`. */
  lemma TwoSetCredentials(s: AuthState, u1: Record, u2: Record)
    requires s.user.None?
    ensures s.SetCredentials(Some(u1)).SetCredentials(Some(u2)).user == Some(Spread(u1, u2))
  {
    assert Spread(map[], u1) == u1;
  }

  /** `setCredentials` and `clearCredentials` always re-establish the pairing, from any state. */
  lemma CredentialOpsPair(s: AuthState, incoming: Option<Record>)
    ensures s.SetCredentials(incoming).Paired()
    ensures s.ClearCredentials().Paired()
  {
  }

  /** `setAuthStatus` can break the pairing: a signed-in user put back to "checking". */
  lemma SetAuthStatusBreaksPairing()
    ensures !Initial().SetCredentials(Some(map[])).SetAuthStatus(Checking).Paired()
    ensures !Initial().SetAuthStatus(Authenticated).Paired()
  {
  }

  class AuthStore {
    var user: Option<Record>
    var status: Status
    var error: Option<string>
    var redirectPath: Option<string>

    function State(): AuthState
      reads this
    {
      AuthState(user, status, error, redirectPath)
    }

    constructor ()
      ensures State() == Initial()
    {
      user, status, error, redirectPath := None, Checking, None, None;
    }

    method SetCredentials(incoming: Option<Record>)
      modifies this
      ensures State() == old(State()).SetCredentials(incoming)
    {
      if incoming.None? {
        user := None;
        status := Anonymous;
        error := None;
        return;
      }
      user := Some(Spread(user.GetOr(map[]), incoming.value));
      status := Authenticated;
      error := None;
    }

    method ClearCredentials()
      modifies this
      ensures State() == old(State()).ClearCredentials()
    {
      user := None;
      status := Anonymous;
      error := None;
    }

    method SetAuthError(message: string)
      modifies this
      ensures State() == old(State()).SetAuthError(message)
    {
      error := Some(message);
      status := Error;
    }

    method SetAuthStatus(s: Status)
      modifies this
      ensures State() == old(State()).SetAuthStatus(s)
    {
      status := s;
    }

    method SetPostAuthRedirect(path: string)
      modifies this
      ensures State() == old(State()).SetPostAuthRedirect(path)
    {
      redirectPath := Some(path);
    }

    method ClearPostAuthRedirect()
      modifies this
      ensures State() == old(State()).ClearPostAuthRedirect()
    {
      redirectPath := None;
    }
  }
}
