/**
 * The three `localStorage` entries the session code reads and writes:
 * "access_token", "auth_user" (a JSON snapshot of the user) and the legacy
 * "token". JSON text is not modelled: a snapshot written by the
 * application is kept as the record it serialises.
 */
module BrowserStorage {
  import opened Wrappers
  import opened Js

  /** The text under "auth_user": a record the application serialised, or anything else. */
  datatype StoredUser = Serialized(user: Record) | Unparseable(text: string)

  class LocalStorage {
    var accessToken: Option<string>   // "access_token"
    var authUser: Option<StoredUser>  // "auth_user"
    var legacyToken: Option<string>   // "token"

    constructor (accessToken: Option<string>, authUser: Option<StoredUser>, legacyToken: Option<string>)
      ensures this.accessToken == accessToken && this.authUser == authUser && this.legacyToken == legacyToken
    {
      this.accessToken := accessToken;
      this.authUser := authUser;
      this.legacyToken := legacyToken;
    }
  }

  /** `JSON.stringify(r)` as stored: properties whose value is `undefined` are not written. */
  function Snapshot(r: Record): (v: StoredUser)
    ensures v.Serialized? && v.user.Keys <= r.Keys
    ensures forall k :: k in r && r[k] != JUndef ==> k in v.user && v.user[k] == r[k]
  {
    Serialized(DropUndefined(r))
  }

  /** `stored ? JSON.parse(stored) : null`, with a parse failure caught as `null`. */
  function ParseStoredUser(v: Option<StoredUser>): (r: Option<Record>)
    ensures r.Some? <==> (v.Some? && v.value.Serialized?)
  {
    match v
    case Some(Serialized(u)) => Some(u)
    case _ => None
  }

  /** Reading back a snapshot gives the record minus its `undefined` properties. */
  lemma SnapshotRoundTrip(r: Record)
    ensures ParseStoredUser(Some(Snapshot(r))) == Some(DropUndefined(r))
  {
  }
}
