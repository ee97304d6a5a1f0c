/**
 * The shared HTTP client configuration: the base URL and the headers
 * prepared for every request. Header names are kept lower-case, as the
 * `Headers` object compares them without regard to case.
 */
module ApiSlice {
  import opened Wrappers
  import opened Js

  const DefaultBaseUrl := "http://localhost:5002/api"

  /** `process.env.REACT_APP_API_URL || "http://localhost:5002/api"` */
  function BaseUrl(configured: Option<string>): (url: string)
    ensures configured.Some? && configured.value != "" ==> url == configured.value
    ensures (configured.None? || configured.value == "") ==> url == DefaultBaseUrl
  {
    OrText(configured, DefaultBaseUrl)
  }

  /** The endpoints whose body is multipart form data. */
  function SendsFormData(endpoint: string): (multipart: bool)
    ensures multipart <==> endpoint in {"askQuestion", "addAnswer", "uploadProfileImage", "editQuestion"}
  {
    endpoint == "askQuestion" || endpoint == "addAnswer" || endpoint == "uploadProfileImage" || endpoint == "editQuestion"
  }

  /** `user?.access_token || user?.token` */
  function SessionToken(user: Option<Record>): (t: Json)
    ensures Truthy(GetOpt(user, "access_token")) ==> t == GetOpt(user, "access_token")
    ensures !Truthy(GetOpt(user, "access_token")) ==> t == GetOpt(user, "token")
  {
    Or(GetOpt(user, "access_token"), GetOpt(user, "token"))
  }

  /** `prepareHeaders`: the content type and the bearer token; every other header passes through. */
  function PrepareHeaders(headers: map<string, string>, endpoint: string, user: Option<Record>): (h: map<string, string>)
    ensures SendsFormData(endpoint) ==> "content-type" !in h
    ensures !SendsFormData(endpoint) ==> "content-type" in h && h["content-type"] == "application/json"
    ensures "authorization" in h <==> (Truthy(SessionToken(user)) || "authorization" in headers)
    ensures Truthy(SessionToken(user)) ==> h["authorization"] == "Bearer " + Display(SessionToken(user))
    ensures !Truthy(SessionToken(user)) && "authorization" in headers ==> h["authorization"] == headers["authorization"]
    ensures forall k :: k in headers && k != "content-type" && k != "authorization" ==> k in h && h[k] == headers[k]
    ensures forall k :: k in h ==> k in headers || k == "content-type" || k == "authorization"
  {
    var typed := if SendsFormData(endpoint) then headers - {"content-type"} else headers["content-type" := "application/json"];
    var token := SessionToken(user);
    if Truthy(token) then typed["authorization" := "Bearer " + Display(token)] else typed
  }

  /** A signed-in session sends its own token, and the legacy `token` property is used only when `access_token` is falsy. */
  lemma AccessTokenPreferred(user: Record, endpoint: string, headers: map<string, string>)
    requires "access_token" in user && Truthy(user["access_token"])
    ensures PrepareHeaders(headers, endpoint, Some(user))["authorization"] == "Bearer " + Display(user["access_token"])
  {
  }

  /** A session whose `access_token` is falsy falls back to a truthy legacy `token`. */
  lemma LegacyTokenFallback(user: Record, endpoint: string, headers: map<string, string>)
    requires !Truthy(Get(user, "access_token")) && "token" in user && Truthy(user["token"])
    ensures PrepareHeaders(headers, endpoint, Some(user))["authorization"] == "Bearer " + Display(user["token"])
  {
  }

  /** Without a session nothing is added but the content type. */
  lemma AnonymousRequestUnauthenticated(endpoint: string)
    ensures "authorization" !in PrepareHeaders(map[], endpoint, None)
  {
  }
}
