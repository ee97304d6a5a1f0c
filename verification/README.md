# EduQA front end — a Dafny model of its session and request logic

EduQA is a campus question-and-answer forum whose browser front end is a
React/Redux application over a REST API. This project models the parts of
that front end that decide something, leaving the markup aside:

- **The session.** This covers the `auth` slice (user, verification status,
  last error, the path to resume after sign-in) and the `ui` slice (the
  shared sign-in modal). It also covers the three `localStorage` entries
  the session lives in.
- **Session coordination.** `AuthGate` restores the stored session and
  verifies it against the profile endpoint. `ProtectedRoute` guards pages
  and asks for the modal. `AuthModal` closes or dismisses that modal.
  `LoginForm` and `RegisterForm` validate input, write storage and choose
  where to go after sign-in. `Navbar` signs out.
- **Request shaping.** The headers attached to every request, the cache
  tags the question endpoints provide and invalidate, and `parseApiError`,
  which turns any failed request into one message.
- **Pages and cards.** The pagination strip, the image lightbox, the home
  feed's statistics, ranking and search controls, and the comma-separated
  tag field. Also attachment picking (five files of 5 MB at most), the
  multipart bodies of the ask, answer and edit forms, and upload URLs. The
  rest is like, save and owner checks, bookmarks, the profile page,
  answer and question cards, the filter panel and the notification badge.

Most modules follow one source file: `AuthSlice` is
`src/features/auth/authSlice.js`, `Home` is `src/pages/Home.jsx`, and so
on. Four modules instead gather one concern that several pages repeat:
`Attachments` (file picking and multipart bodies in `AskQuestion.jsx`,
`QuestionDetail.jsx` and `Profile.jsx`), `FileUrls` (upload URLs in
`QuestionDetail.jsx`, `Profile.jsx`, `QuestionCard.jsx` and `Navbar.js`),
`TagInput` (the tag field of `AskQuestion.jsx` and `Profile.jsx`) and
`SavedItems` (bookmarks in `QuestionDetail.jsx` and `AnswerCard.jsx`).
`StableSort` is the comparator sort `Home` ranks with, and `Seqs` holds
one list fact. `Js`, `Strings`, `Wrappers` and `BrowserStorage` model
JavaScript values, string built-ins, optional values and `localStorage`.

State that the source updates in place is
a `class` whose methods assign its fields. A pure datatype function
specifies each such method's effect, and the method's `ensures` ties the
new state to that function; the properties are lemmas about the function.
Code that only computes is a function with a named result. JavaScript
values are `Js.Json`, which keeps `undefined` as a value of its own,
because object spreads copy `undefined` and `===` finds two missing
properties equal. Server replies, the clock and the router's location are
parameters. Toasts and navigation targets are results.

Some consequences of the code as written, each stated by a member:

- `src/components/AuthGate.jsx:91-98` clears the session on a failed
  profile request only when `currentUser` is null. Hydration
  (`AuthGate.jsx:42-55`) has already rendered the stored user, so a
  stored token that fails verification leaves status "checking" with
  that user (`AuthGate.FailedVerificationStaysChecking`, and the
  findings below).
- `setAuthStatus` (`src/features/auth/authSlice.js:43-45`) sets the
  status alone, so "authenticated" without a user, or a user with
  "checking", is reachable (`AuthSlice.SetAuthStatusBreaksPairing`).
  `setCredentials` and `clearCredentials` always leave the two paired
  (`AuthSlice.CredentialOpsPair`).
- `setCredentials({})` signs in with an empty user: the guard at
  `authSlice.js:17` tests `!incomingUser`, and an empty object is truthy.
- The error effect (`AuthGate.jsx:92-97`) dispatches `clearCredentials`,
  then `setAuthError`, then `setAuthStatus("anonymous")`, so the session
  ends "anonymous" with the message still set
  (`AuthGate.ErrorEffectOn`).

## Model

| member | source | states |
|---|---|---|
| `AuthSlice.AuthState.SetCredentials` | src/features/auth/authSlice.js:14-30 | a missing payload signs out (no user, "anonymous", no error); a payload is shallow-merged over the current user with its own properties winning and the old ones kept, status "authenticated", error cleared; the redirect path is never touched |
| `AuthSlice.AuthState.ClearCredentials` | src/features/auth/authSlice.js:32-36 | the same state as `setCredentials` with no payload: no user, "anonymous", no error, redirect path kept |
| `AuthSlice.AuthState.SetAuthError` | src/features/auth/authSlice.js:38-41 | stores the message and status "error"; user and redirect path untouched |
| `AuthSlice.AuthState.SetAuthStatus` | src/features/auth/authSlice.js:43-45 | changes the status and nothing else |
| `AuthSlice.AuthState.SetPostAuthRedirect` | src/features/auth/authSlice.js:47-49 | changes only the redirect path, to the given path |
| `AuthSlice.AuthState.ClearPostAuthRedirect` | src/features/auth/authSlice.js:51-53 | changes only the redirect path, to none |
| `AuthSlice.Initial` | src/features/auth/authSlice.js:3-8 | no user, "checking", no error, no redirect path |
| `AuthSlice.TwoSetCredentials` | src/features/auth/authSlice.js:24-27 | two sign-ins from a signed-out state leave exactly `{...u1, ...u2}` |
| `AuthSlice.CredentialOpsPair` | src/features/auth/authSlice.js:14-36 | after `setCredentials` or `clearCredentials`, from any state, the status is "authenticated" exactly when a user is present |
| `AuthSlice.SetAuthStatusBreaksPairing` | src/features/auth/authSlice.js:43-45 | `setAuthStatus` alone can leave a user with "checking", or "authenticated" with no user |
| `AuthSlice.AuthStore.constructor` | src/features/auth/authSlice.js:3-12 | the store starts in the initial state |
| `AuthSlice.AuthStore.SetCredentials` | src/features/auth/authSlice.js:14-30 | the in-place field assignments end in the state `AuthState.SetCredentials` specifies |
| `AuthSlice.AuthStore.ClearCredentials` | src/features/auth/authSlice.js:32-36 | the field assignments end in `AuthState.ClearCredentials` of the old state |
| `AuthSlice.AuthStore.SetAuthError` | src/features/auth/authSlice.js:38-41 | the field assignments end in `AuthState.SetAuthError` of the old state |
| `AuthSlice.AuthStore.SetAuthStatus` | src/features/auth/authSlice.js:43-45 | the assignment ends in `AuthState.SetAuthStatus` of the old state |
| `AuthSlice.AuthStore.SetPostAuthRedirect` | src/features/auth/authSlice.js:47-49 | the assignment ends in `AuthState.SetPostAuthRedirect` of the old state |
| `AuthSlice.AuthStore.ClearPostAuthRedirect` | src/features/auth/authSlice.js:51-53 | the assignment ends in `AuthState.ClearPostAuthRedirect` of the old state |
| `UiSlice.UiState.OpenAuthModal` | src/features/ui/uiSlice.js:13-17 | opens the modal, on the requested tab or "login" for a falsy one, and clears the dismissed path |
| `UiSlice.UiState.CloseAuthModal` | src/features/ui/uiSlice.js:18-20 | only closes; tab and dismissed path unchanged |
| `UiSlice.UiState.SetAuthModalMode` | src/features/ui/uiSlice.js:21-23 | changes only the tab |
| `UiSlice.UiState.DismissAuthPrompt` | src/features/ui/uiSlice.js:24-26 | stores the path, or none for a missing or empty one; nothing else changes |
| `UiSlice.Initial` | src/features/ui/uiSlice.js:3-7 | closed, "login", no dismissed path |
| `UiSlice.OpenThenCloseRecordsNoDismissal` | src/features/ui/uiSlice.js:13-20 | opening then closing leaves the modal closed with no dismissed path |
| `UiSlice.UiStore.constructor` | src/features/ui/uiSlice.js:3-11 | the store starts in the initial state |
| `UiSlice.UiStore.OpenAuthModal` | src/features/ui/uiSlice.js:13-17 | the assignments end in `UiState.OpenAuthModal` of the old state |
| `UiSlice.UiStore.CloseAuthModal` | src/features/ui/uiSlice.js:18-20 | the assignment ends in `UiState.CloseAuthModal` of the old state |
| `UiSlice.UiStore.SetAuthModalMode` | src/features/ui/uiSlice.js:21-23 | the assignment ends in `UiState.SetAuthModalMode` of the old state |
| `UiSlice.UiStore.DismissAuthPrompt` | src/features/ui/uiSlice.js:24-26 | the assignment ends in `UiState.DismissAuthPrompt` of the old state |
| `ProtectedRoute.RouteView` | src/components/ProtectedRoute.jsx:38-66 | the placeholder exactly while "checking"; otherwise the protected outlet exactly when a user is present, else the sign-in fallback |
| `ProtectedRoute.GuardDecision` | src/components/ProtectedRoute.jsx:23-35 | a redirect to the current path is recorded exactly when there is no user and the status is not "checking"; the login modal is requested exactly when, in addition, it is not open and the path is not the dismissed one |
| `ProtectedRoute.GuardEffect` | src/components/ProtectedRoute.jsx:23-35 | the effect's dispatches leave the auth and UI stores as `GuardDecision` says, and it reports whether it opened the modal |
| `ProtectedRoute.FallbackButton` | src/components/ProtectedRoute.jsx:55-61 | the fallback's button opens the modal on the login tab whatever was dismissed before |
| `ProtectedRoute.CheckingIsInert` | src/components/ProtectedRoute.jsx:24-44 | while "checking" the placeholder renders and nothing is dispatched, with or without a user |
| `ProtectedRoute.GuardOpensOnce` | src/components/ProtectedRoute.jsx:29-33 | after one run of the effect, a second run on the resulting state never opens the modal again |
| `ProtectedRoute.InitialStateIsInert` | src/components/ProtectedRoute.jsx:24-38 | in the store's initial state the guard shows the placeholder and records no redirect |
| `AuthModal.ModalBody` | src/components/AuthModal.jsx:29-83 | nothing while closed; when open, the login form exactly on the "login" tab and the registration form on any other |
| `AuthModal.HandleClose` | src/components/AuthModal.jsx:20-23 | the X button closes the modal, then records the current path as dismissed |
| `AuthModal.HandleAuthSuccess` | src/components/AuthModal.jsx:25-27 | a successful sign-in only closes the modal |
| `AuthModal.SelectTab` | src/components/AuthModal.jsx:55-74 | the tabs set the mode to "login" or "register" |
| `AuthModal.DismissSuppressesReprompt` | src/components/AuthModal.jsx:20-23 | after the X button on a path the guard no longer opens the modal there, but still does on any other path |
| `AuthModal.SuccessRecordsNoDismissal` | src/components/AuthModal.jsx:25-27 | a success leaves the dismissed path as it was and the modal rendering nothing |
| `AuthGate.HydratedUser` | src/components/AuthGate.jsx:42-55 | the restored user is the parsed cached user, or nothing, with the stored token written over its `access_token` and every other field kept |
| `AuthGate.HydrateOn` | src/components/AuthGate.jsx:33-62 | with a non-empty stored token the user becomes exactly `setCredentials` of the restored user (the cached user with the token written over `access_token`) over the old session, and the status "checking"; with no token or an empty one the session is signed out and "anonymous"; the error is cleared and the redirect path kept |
| `AuthGate.HydrateFromInitial` | src/components/AuthGate.jsx:33-62 | from the store's initial state, hydration with a stored token leaves exactly the restored user, and `{ access_token }` alone when no cached user parses |
| `AuthGate.FetchingOn` | src/components/AuthGate.jsx:64-68 | while the profile request is in flight the status is "checking" and nothing else changes; otherwise nothing changes |
| `AuthGate.VerifiedUser` | src/components/AuthGate.jsx:71-75 | the server's profile with `access_token` set to the rendered user's token, or else the stored token; every other profile field kept |
| `AuthGate.DataDecision` | src/components/AuthGate.jsx:70-88 | a profile in the reply verifies; with no reply, not fetching and no error the status becomes "authenticated" exactly when a token was rendered, else "anonymous"; otherwise nothing |
| `AuthGate.DataEffectOn` | src/components/AuthGate.jsx:70-89 | a profile leaves the user exactly `setCredentials` of the verified user over the old one, "authenticated", paired and without error; on the two `setAuthStatus` branches only the status changes, to the decided one; when no branch applies nothing changes; the redirect path always stays |
| `AuthGate.FailureMessage` | src/components/AuthGate.jsx:95 | the server's message when it is non-empty, otherwise "Authentication required"; never empty |
| `AuthGate.ErrorEffectOn` | src/components/AuthGate.jsx:91-98 | a failed request with no rendered user signs out with the failure message and "anonymous"; anything else changes nothing; the redirect path always stays |
| `AuthGate.CorrectedErrorEffectOn` | src/components/AuthGate.jsx:91-98 | any failed request signs out with the failure message and "anonymous"; otherwise nothing changes; the redirect path always stays |
| `AuthGate.Commit` | src/components/AuthGate.jsx:64-98 | one render's effects in order: the redirect path stays; a failed request with no rendered user ends signed out, "anonymous", with the failure message; a failed request with a rendered user and no profile keeps the user and the error |
| `AuthGate.FailedVerificationStaysChecking` | src/components/AuthGate.jsx:22-103 | start-up with a stored token whose verification fails ends "checking" with the unverified user kept |
| `AuthGate.CorrectedFailedVerificationSignsOut` | src/components/AuthGate.jsx:91-98 | the same start-up with the corrected error effect ends signed out, "anonymous", with the failure message |
| `AuthGate.CorrectedCommitOnErrorSignsOut` | src/components/AuthGate.jsx:91-98 | with the correction any commit that sees a failed request leaves no user and a paired session |
| `AuthGate.ProfileCommitAuthenticates` | src/components/AuthGate.jsx:64-98 | a commit that receives the profile leaves an "authenticated", paired session whose user carries `access_token` |
| `AuthGate.ProfileCommitHoldsProfile` | src/components/AuthGate.jsx:71-76 | after a commit that receives the profile, the session user holds every profile property except `access_token`, which is the verified token |
| `AuthGate.HydrationEnablesVerification` | src/components/AuthGate.jsx:23-59 | after hydration the profile query is enabled exactly when a non-empty token was stored |
| `AuthGate.Gate.constructor` | src/components/AuthGate.jsx:22 | the gate starts not hydrated |
| `AuthGate.Gate.VerificationActive` | src/components/AuthGate.jsx:23-28 | the profile query runs, and the five-minute re-verification is scheduled, exactly when the gate is hydrated and the rendered user has a truthy `access_token`; it is skipped otherwise |
| `AuthGate.Gate.Hydrate` | src/components/AuthGate.jsx:33-62 | the mount effect removes the legacy key, leaves the other keys, marks hydrated and ends in `HydrateOn` of the old session and storage |
| `AuthGate.Gate.FetchingEffect` | src/components/AuthGate.jsx:64-68 | the dispatch ends in `FetchingOn` of the old session |
| `AuthGate.Gate.DataEffect` | src/components/AuthGate.jsx:70-89 | the dispatches end in `DataEffectOn`; the cached snapshot becomes the profile when there is one, and the token keys stay |
| `AuthGate.Gate.ErrorEffect` | src/components/AuthGate.jsx:91-103 | the dispatches end in `ErrorEffectOn`; any failed request removes the stored token and user, and nothing else in storage changes |
| `BrowserStorage.Snapshot` | src/components/AuthGate.jsx:78-81 | the stored snapshot keeps every property whose value is defined, and no other key |
| `BrowserStorage.ParseStoredUser` | src/components/AuthGate.jsx:43-48 | a record exactly when the stored text is a serialised record; missing or unparseable text gives none |
| `BrowserStorage.SnapshotRoundTrip` | src/components/AuthGate.jsx:45-81 | reading back a snapshot gives the record without its `undefined` properties |
| `LoginForm.LoginIssues` | src/components/auth/LoginForm.jsx:17-20 | no issue exactly when the email is valid and the password has at least 6 characters; each field is reported exactly when its own check fails |
| `LoginForm.CredentialsPayload` | src/components/auth/LoginForm.jsx:80-85 | the response's `data`, or nothing, with `access_token` set to the response's token, every other field kept |
| `LoginForm.MissingTokenErasesSessionToken` | src/components/auth/LoginForm.jsx:80-85 | a response without a token still authenticates and leaves a user whose token is falsy |
| `LoginForm.LoginSuccessTarget` | src/components/auth/LoginForm.jsx:52-67 | the pending redirect, else the router's origin, else home for the page variant and nowhere for the modal; never an empty path |
| `LoginForm.LoginFailureMessage` | src/components/auth/LoginForm.jsx:89 | the server's message when non-empty, else "Giriş işlemi başarısız" |
| `LoginForm.PageEffectTarget` | src/components/auth/LoginForm.jsx:46-50 | navigates home exactly when a user is present on the page variant |
| `LoginForm.PersistSession` | src/components/auth/LoginForm.jsx:72-79 | with a truthy token the token, the user snapshot and the removal of the legacy key are written; otherwise storage is unchanged |
| `LoginForm.LoginSubmit` | src/components/auth/LoginForm.jsx:52-93 | a rejection stores the failure message as the auth error and toasts it, changing nothing else; a success persists, signs in, closes the modal for the modal variant, navigates by `LoginSuccessTarget` and consumes the redirect |
| `LoginForm.RedirectIsConsumed` | src/components/auth/LoginForm.jsx:54-57 | a success that follows a pending redirect goes there, and the next success from the same place does not |
| `RegisterForm.DefaultValues` | src/components/auth/RegisterForm.jsx:50-57 | the form starts as a student with empty department and branch |
| `RegisterForm.RegisterIssues` | src/components/auth/RegisterForm.jsx:16-36 | no issue exactly when name has 2+ characters, the email is valid, the password 6+, the role is student or teacher and the role's detail is given; each path is reported exactly when its own check fails, the refinement only for a valid role and always on "department" |
| `RegisterForm.TeacherWithoutBranchFlagsDepartment` | src/components/auth/RegisterForm.jsx:29-35 | a teacher without a branch is reported on "department", never on "branch" |
| `RegisterForm.DefaultsRejected` | src/components/auth/RegisterForm.jsx:26-57 | the untouched form always has a "department" issue |
| `RegisterForm.RegisterSuccessTarget` | src/components/auth/RegisterForm.jsx:74-84 | the pending redirect, else home for the page variant and nowhere for the modal |
| `RegisterForm.RegisterTargetIsLoginWithoutOrigin` | src/components/auth/RegisterForm.jsx:74-84 | registration goes where sign-in goes with no router origin |
| `RegisterForm.RegisterFailureMessage` | src/components/auth/RegisterForm.jsx:106 | the server's message when non-empty, else "Kayıt başarısız" |
| `RegisterForm.RegisterSubmit` | src/components/auth/RegisterForm.jsx:74-108 | a rejection changes no store and only toasts; a success persists, signs in, closes the modal for the modal variant, navigates by `RegisterSuccessTarget` and consumes the redirect |
| `ApiSlice.BaseUrl` | src/features/api/apiSlice.js:4 | the configured URL when it is non-empty, else "http://localhost:5002/api" |
| `ApiSlice.SendsFormData` | src/features/api/apiSlice.js:19 | exactly the four multipart endpoints: `askQuestion`, `addAnswer`, `uploadProfileImage`, `editQuestion` |
| `ApiSlice.SessionToken` | src/features/api/apiSlice.js:25 | the user's `access_token` when truthy, else its legacy `token` |
| `ApiSlice.PrepareHeaders` | src/features/api/apiSlice.js:17-30 | the four multipart endpoints send no content type and every other endpoint JSON; a bearer header exactly from a truthy session token; every other header passes through unchanged and nothing else is added; with a falsy session token an incoming authorization header passes through unchanged |
| `ApiSlice.AccessTokenPreferred` | src/features/api/apiSlice.js:25-27 | whenever `access_token` is truthy the bearer header carries it, whatever `token` holds |
| `ApiSlice.LegacyTokenFallback` | src/features/api/apiSlice.js:25-27 | with a falsy `access_token` and a truthy legacy `token` the bearer header carries the legacy token |
| `ApiSlice.AnonymousRequestUnauthenticated` | src/features/api/apiSlice.js:24-28 | without a session no authorization header is sent |
| `ErrorHandler.StatusMessage` | src/utils/errorHandler.js:29-49 | a fixed non-empty text exactly for the ten statuses the switch names |
| `ErrorHandler.ParseApiError` | src/utils/errorHandler.js:9-61 | never empty; no error gives the unknown-error text; a network failure and then a time-out take precedence over everything else |
| `ErrorHandler.ServerMessageWins` | src/utils/errorHandler.js:22-25 | past the network and time-out checks a non-empty server message is the result |
| `ErrorHandler.KnownStatusMessage` | src/utils/errorHandler.js:28-49 | past the network and time-out checks, whatever other error code comes with it, a named status without a server message gives its fixed text |
| `ErrorHandler.UnknownStatusQuoted` | src/utils/errorHandler.js:50-51 | any other truthy status gives the default text quoting it |
| `ErrorHandler.ClientMessageLast` | src/utils/errorHandler.js:55-60 | the client's message only without a server message and a status, and the generic text without either |
| `Pagination.Range` | src/components/Pagination.jsx:21-23 | exactly the pages `lo` to `hi`, in order, and nothing for an empty range |
| `Pagination.PageWindow` | src/components/Pagination.jsx:16-49 | at most seven items, starting with page 1 and ending with the last page whenever there is a page |
| `Pagination.Strip` | src/components/Pagination.jsx:14-51 | nothing exactly for at most one page, otherwise the page window |
| `Pagination.PushRange` | src/components/Pagination.jsx:21-23 | the loop appends exactly the pages `lo` to `hi` to what was there |
| `Pagination.GetPageNumbers` | src/components/Pagination.jsx:16-49 | the pushes build exactly `PageWindow`: all pages up to five, else the first five, the last five or the neighbourhood of the current page, joined to the ends by ellipses |
| `Pagination.PrevTarget` | src/components/Pagination.jsx:55-57 | requests the page before the current one, exactly when there is one and nothing is loading |
| `Pagination.NextTarget` | src/components/Pagination.jsx:100-102 | requests the page after the current one, exactly when there is one and nothing is loading |
| `Pagination.PageButtonTarget` | src/components/Pagination.jsx:68-86 | a numbered button, the active one included, requests its own page unless loading; an ellipsis requests nothing |
| `Pagination.WindowShape` | src/components/Pagination.jsx:16-49 | for a valid current page at most seven items, first page 1, last the page count, and the current page among them |
| `Pagination.WindowIncreasing` | src/components/Pagination.jsx:16-49 | the page numbers strictly increase and stay within 1 and the page count |
| `Pagination.NeighboursShown` | src/components/Pagination.jsx:16-49 | the pages just before and after the current one are always shown |
| `Pagination.SmallCountListsAll` | src/components/Pagination.jsx:20-23 | up to five pages every page is shown and no ellipsis |
| `Pagination.EllipsisBetweenAdjacentPages` | src/components/Pagination.jsx:25-36 | with six pages an ellipsis stands between pages 5 and 6, or 1 and 2 |
| `ImageLightbox.StartIndex` | src/components/ImageLightbox.jsx:5 | the given index, or 0 when there is none |
| `ImageLightbox.PrevIndex` | src/components/ImageLightbox.jsx:33-36 | one image back, and from the first to the last |
| `ImageLightbox.NextIndex` | src/components/ImageLightbox.jsx:38-41 | one image forward, and from the last to the first |
| `ImageLightbox.ZoomIn` | src/components/ImageLightbox.jsx:43-45 | one quarter up below the cap of 3, and the cap otherwise |
| `ImageLightbox.ZoomOut` | src/components/ImageLightbox.jsx:47-49 | one quarter down above the floor of 0.5, and the floor otherwise |
| `ImageLightbox.ZoomPercent` | src/components/ImageLightbox.jsx:112 | the label is `Math.round(zoom * 100)` (the floor of `zoom * 100 + 0.5`) on the real zoom factor, which on quarter steps needs no rounding; 100% at the default zoom, between 50% and 300% within the limits |
| `ImageLightbox.NavigationInRange` | src/components/ImageLightbox.jsx:33-41 | from a shown image both arrows land on an existing image |
| `ImageLightbox.PrevNextInverse` | src/components/ImageLightbox.jsx:33-41 | previous undoes next and next undoes previous |
| `ImageLightbox.NextTimesAdvances` | src/components/ImageLightbox.jsx:38-41 | `k` presses of next before the end move exactly `k` images forward |
| `ImageLightbox.NextTimesCompose` | src/components/ImageLightbox.jsx:38-41 | `a` presses then `b` presses are `a + b` presses |
| `ImageLightbox.FullCycleReturns` | src/components/ImageLightbox.jsx:38-41 | as many presses of next as there are images come back to the starting image |
| `ImageLightbox.ZoomBounded` | src/components/ImageLightbox.jsx:43-49 | zoom stays within 0.5 and 3; zooming in then out, or out then in, away from the limits returns to the same zoom |
| `ImageLightbox.ZoomLimits` | src/components/ImageLightbox.jsx:43-112 | the limits are fixed points, reached from 1 in eight steps up and two down, labelled 300% and 50% |
| `ImageLightbox.ControlsFor` | src/components/ImageLightbox.jsx:55-134 | nothing renders without images; the arrows exactly for two or more; the reset button exactly when zoom is not 1 |
| `ImageLightbox.Lightbox.constructor` | src/components/ImageLightbox.jsx:5-6 | starts at the given index, or 0, at zoom 1 |
| `ImageLightbox.Lightbox.SyncIndex` | src/components/ImageLightbox.jsx:8-11 | a new index prop moves to it, or to 0, and resets the zoom |
| `ImageLightbox.Lightbox.Prev` | src/components/ImageLightbox.jsx:33-36 | moves to `PrevIndex` and resets the zoom |
| `ImageLightbox.Lightbox.Next` | src/components/ImageLightbox.jsx:38-41 | moves to `NextIndex` and resets the zoom |
| `ImageLightbox.Lightbox.ZoomInStep` | src/components/ImageLightbox.jsx:43-45 | zoom becomes `ZoomIn` of the old zoom; the image stays |
| `ImageLightbox.Lightbox.ZoomOutStep` | src/components/ImageLightbox.jsx:47-49 | zoom becomes `ZoomOut` of the old zoom; the image stays |
| `ImageLightbox.Lightbox.ResetZoom` | src/components/ImageLightbox.jsx:51-53 | zoom back to 1; the image stays |
| `ImageLightbox.Lightbox.HandleKey` | src/components/ImageLightbox.jsx:13-22 | Escape exactly asks to close and changes nothing; the arrows navigate as the buttons do; other keys change nothing |
| `Home.AnswerCount` | src/pages/Home.jsx:38-39 | a non-zero `answerCount`, else the length of `answers`, else 0 |
| `Home.LikeTotal` | src/pages/Home.jsx:41 | a non-zero `likeCount`, else the length of `likes`, else 0 |
| `Home.ContributorId` | src/pages/Home.jsx:43 | some exactly for a populated poster with a non-empty `_id` or `id`; the `_id` when non-empty, otherwise the `id`; never empty |
| `Home.TallyOf` | src/pages/Home.jsx:33-36 | the tag-count object: its key list names each counted tag exactly once, and there are never more keys than tags |
| `Home.TallyOfCorrect` | src/pages/Home.jsx:33-36 | the tag-count object holds exactly the tags that occur, each once, counted as often as it occurs |
| `Home.KeysWhereMembers` | src/pages/Home.jsx:61 | a key is among the array-index keys (or the others) exactly when it is a key of that kind |
| `Home.KeysWhereSplit` | src/pages/Home.jsx:61 | every key is either an array index or not: the two parts hold all keys, with multiplicity |
| `Home.EntryOrder` | src/pages/Home.jsx:61 | `Object.entries` lists exactly the object's keys, each as often, and no other |
| `Home.EntryOrderCorrect` | src/pages/Home.jsx:61 | the entries list the array-index keys first, in ascending numeric order, then the other keys in creation order |
| `Home.EntryIndicesFirst` | src/pages/Home.jsx:61 | a listed key is an array index exactly when it stands before the other keys |
| `Home.EntryIndicesAscending` | src/pages/Home.jsx:61 | the array-index keys are listed in ascending numeric order |
| `Home.EntryKeysKnown` | src/pages/Home.jsx:61 | the entries name exactly the keys of the object |
| `Home.TagList` | src/pages/Home.jsx:61-62 | one entry per tag, in `Object.entries` order, carrying that tag's count |
| `Home.IndexTagWinsTie` | src/pages/Home.jsx:61-80 | of two tags used once each, a numeric tag such as "2024" used after a word tag is listed first and becomes the hero's top tag |
| `Home.Credit` | src/pages/Home.jsx:43-58 | crediting a question adds its poster's id to the map, if it has one, and no other key; the insertion order grows by at most that id |
| `Home.RosterOf` | src/pages/Home.jsx:42-58 | the contributor map built over the questions, with at most one entry per question |
| `Home.RosterOfCorrect` | src/pages/Home.jsx:42-58 | the contributor map holds exactly the posters, each once, with their question count, the answers those drew and the likes they received |
| `Home.NoPostsNoAnswers` | src/pages/Home.jsx:43-58 | an id with no questions has drawn no answers and no likes, and no question is credited to it |
| `Home.RosterProfiles` | src/pages/Home.jsx:46-54 | each contributor's name, department and reputation come from their first question in the feed |
| `Home.CreditKeepsProfile` | src/pages/Home.jsx:46-56 | crediting a later question keeps an existing entry's name, department and reputation |
| `Home.CreditNewEntry` | src/pages/Home.jsx:46-54 | an entry that crediting creates belongs to the question's poster and shows that poster's profile |
| `Home.RosterValuesOrder` | src/pages/Home.jsx:65 | one value per id, in the order `Object.entries` lists the ids: array-index ids first in ascending order, then the rest in creation order |
| `Home.IndexIdListedFirst` | src/pages/Home.jsx:65 | a poster whose id is an array index, credited after a poster with a word id, is listed first |
| `Home.RosterValuesExact` | src/pages/Home.jsx:65 | the values are exactly the entries of the contributor map |
| `Home.Derive` | src/pages/Home.jsx:27-75 | at most five contributors; the answer and like totals are the sums over the questions |
| `Home.DeriveStats` | src/pages/Home.jsx:27-75 | the single pass over the questions and their tags ends in exactly `Derive` of the questions |
| `Home.TagsCounted` | src/pages/Home.jsx:61-63 | the trending tags are sorted by count, name every tag that occurs and only those, each with its true count, and tags of equal count keep their `Object.entries` order |
| `Home.ContributorsRanked` | src/pages/Home.jsx:65-67 | the table is sorted by reputation then answers and holds min(5, posters) entries of the contributor map; no poster left out outranks one kept |
| `Home.ContributorsCounted` | src/pages/Home.jsx:44-67 | each poster in the table carries their true question, answer and like counts |
| `Home.TopOfRoster` | src/pages/Home.jsx:65-67 | the first five of any contributor map, sorted: entries of the map, min(5, size) of them, none left out outranking one kept |
| `Home.TopTag` | src/pages/Home.jsx:80 | the most used tag's name, or "react"; never empty |
| `Home.DailyQuestions` | src/pages/Home.jsx:90 | at least 1, exactly 1 when the total is below 21, and otherwise the total divided by 14, rounded half up |
| `Home.DailyQuestionsMonotone` | src/pages/Home.jsx:90 | the daily figure never falls as the total grows |
| `Home.FeedControls.constructor` | src/pages/Home.jsx:14-16 | empty search, "newest", no tag |
| `Home.FeedControls.Args` | src/pages/Home.jsx:20-23 | the search argument is the active tag, else the typed search, else absent; the sort passes through |
| `Home.FeedControls.SelectTag` | src/pages/Home.jsx:97-100 | sets the tag and clears the search, so the two are never both set |
| `Home.FeedControls.ClearActiveTag` | src/pages/Home.jsx:102-104 | clears only the tag |
| `Home.FeedControls.TypeSearch` | src/pages/Home.jsx:138-141 | sets the search and clears the tag; the query then searches for the text, or nothing for "" |
| `Home.FeedControls.SetSort` | src/pages/Home.jsx:147 | changes only the sort |
| `StableSort.SortDesc` | src/pages/Home.jsx:61-67 | the sorted list has the same length and the same elements, counted with multiplicity |
| `StableSort.SortDescCorrect` | src/pages/Home.jsx:63-66 | the comparator sort orders by the rank, descending, and is a permutation of its input |
| `StableSort.SortDescStable` | src/pages/Home.jsx:63-66 | elements of equal rank keep their relative order |
| `StableSort.Take` | src/pages/Home.jsx:67 | a prefix of length at most `n`, exactly `n` when the list is long enough |
| `StableSort.TopNLeads` | src/pages/Home.jsx:65-67 | nothing cut from the top five outranks anything kept |
| `TagInput.TrimAll` | src/pages/AskQuestion.jsx:22 | each piece trimmed, in place |
| `TagInput.KeepNonEmpty` | src/pages/AskQuestion.jsx:23 | exactly the non-empty pieces survive, never more than there were |
| `TagInput.KeepNonEmptyCounts` | src/pages/AskQuestion.jsx:23 | each non-empty piece survives as often as it occurs, and the empty piece never |
| `TagInput.KeepNonEmptyConcat` | src/pages/AskQuestion.jsx:23 | the filter keeps order: filtering joined pieces is joining the filtered pieces |
| `TagInput.ParseTags` | src/pages/AskQuestion.jsx:18-25 | no tags for empty text, and no empty tag ever |
| `TagInput.EditTags` | src/pages/Profile.jsx:606-613 | no tags for blank text, and no empty tag ever |
| `TagInput.ParsedTagsClean` | src/pages/AskQuestion.jsx:18-25 | every parsed tag is non-empty, trimmed and comma-free, and there is at most one more tag than commas |
| `TagInput.EditTagsAgree` | src/pages/Profile.jsx:606-613 | the edit form's blank-text guard gives the same tags as the question form's transform, for every text |
| `TagInput.SeedRoundTrip` | src/pages/Profile.jsx:103-105 | clean tags written into the edit field as ", "-joined text parse back to the same tags in both forms |
| `TagInput.ParseIdempotent` | src/pages/AskQuestion.jsx:18-25 | parsing the written-back form of parsed tags gives the same tags |
| `Attachments.KeepSmall` | src/pages/AskQuestion.jsx:52-59 | only files of at most 5 MB from the batch survive the filter, never more than the batch |
| `Attachments.KeepSmallCounts` | src/pages/AskQuestion.jsx:52-59 | each file within the limit survives as often as it occurs in the batch, and an oversized file never |
| `Attachments.KeepSmallConcat` | src/pages/AskQuestion.jsx:52-59 | the filter keeps order: filtering two runs of files joined is joining the filtered runs |
| `Attachments.OversizedNames` | src/pages/AskQuestion.jsx:54-56 | one error toast per dropped file, never more than the batch; every dropped file's name is reported, and every reported name is a dropped file's |
| `Attachments.OversizedNamesConcat` | src/pages/AskQuestion.jsx:54-56 | the toasts follow the order of the files: reporting two runs joined is reporting each in turn |
| `Attachments.KeptAndReportedPartition` | src/pages/AskQuestion.jsx:52-59 | the kept files and the reported names together number the batch, and each file is kept when within the limit and reported by name otherwise |
| `Attachments.KeepsEverySmallFile` | src/pages/AskQuestion.jsx:52-59 | no file within the size limit is dropped |
| `Attachments.SplitBySize` | src/pages/AskQuestion.jsx:52-59 | the filter loop produces exactly the kept files and the dropped files' names |
| `Attachments.SelectAfter` | src/pages/AskQuestion.jsx:61-66 | a batch that would exceed five files leaves the selection alone; otherwise the kept files are appended |
| `Attachments.SelectKeepsLimits` | src/pages/AskQuestion.jsx:50-67 | picking files never leaves more than five files or one above 5 MB |
| `Attachments.RemoveAt` | src/pages/AskQuestion.jsx:69-71 | exactly the file at the index goes and the others keep their order; an index outside the list changes nothing |
| `Attachments.RemoveKeepsLimits` | src/pages/AskQuestion.jsx:69-71 | removing a file keeps the selection within the limits |
| `Attachments.FileSelection.constructor` | src/pages/AskQuestion.jsx:32 | the selection starts empty |
| `Attachments.FileSelection.HandleFileChange` | src/pages/QuestionDetail.jsx:73-90 | reports the oversized files, reports a batch too large as a whole exactly when the kept files would make more than five, and ends in `SelectAfter`, within the limits |
| `Attachments.FileSelection.RemoveFile` | src/pages/QuestionDetail.jsx:92-94 | ends in `RemoveAt` of the old selection, within the limits |
| `Attachments.FileSelection.Clear` | src/pages/AskQuestion.jsx:107 | empties the selection |
| `Attachments.EditPickOutcome` | src/pages/Profile.jsx:698-716 | too many files for the room left is reported with that room, checked before size; any file above 5 MB otherwise rejects; a batch that passes both replaces the selection |
| `Attachments.EditPickRespectsTotal` | src/pages/Profile.jsx:700-716 | an accepted batch keeps the saved question at five attachments or fewer |
| `Attachments.VisibleExisting` | src/pages/Profile.jsx:753-754 | exactly the attachments not marked for removal are listed |
| `Attachments.MarkHidesOnlyThatFile` | src/pages/Profile.jsx:754-794 | marking one more file hides that file from the list and nothing else |
| `Attachments.QuestionEdit.constructor` | src/pages/Profile.jsx:98-110 | opening a question for editing empties both lists |
| `Attachments.QuestionEdit.Visible` | src/pages/Profile.jsx:753-754 | the listed attachments are the existing ones not marked for removal |
| `Attachments.QuestionEdit.PickFiles` | src/pages/Profile.jsx:698-717 | the outcome is `EditPickOutcome` on the counts; only an accepted batch replaces the selection |
| `Attachments.QuestionEdit.Unselect` | src/pages/Profile.jsx:736-740 | removes the new file at the index, as `RemoveAt` |
| `Attachments.QuestionEdit.Reset` | src/pages/Profile.jsx:630-633 | empties both lists |
| `Attachments.QuestionEdit.MarkForRemoval` | src/pages/Profile.jsx:793-795 | appends the file to the removal list; the listed attachments lose that file only |
| `Attachments.TextEntries` | src/pages/AskQuestion.jsx:89-91 | one entry per value, in order, under the key |
| `Attachments.FileEntries` | src/pages/AskQuestion.jsx:100-102 | one entry per file, in order, under the key |
| `Attachments.ValuesUnderConcat` | src/pages/AskQuestion.jsx:84-102 | reading a key from appended bodies gives the first body's values then the second's |
| `Attachments.TextEntriesReadBack` | src/pages/AskQuestion.jsx:89-91 | the appended strings read back in order under their key, and no other key sees them |
| `Attachments.FileEntriesReadBack` | src/pages/AskQuestion.jsx:100-102 | the appended files read back in order under their key, and no other key sees them |
| `Attachments.AppendTexts` | src/pages/AskQuestion.jsx:89-91 | the append loop adds exactly `TextEntries` to the body |
| `Attachments.AppendFiles` | src/pages/AskQuestion.jsx:100-102 | the append loop adds exactly `FileEntries` to the body |
| `AskQuestion.SchemaIssues` | src/pages/AskQuestion.jsx:12-14 | no issue exactly when the title has 10+ and the content 20+ characters; each field is reported exactly when it is short |
| `AskQuestion.SchemaTags` | src/pages/AskQuestion.jsx:15-25 | a missing or empty field gives no tags, any other the parsed tags, all clean |
| `AskQuestion.SubmitCheck` | src/pages/AskQuestion.jsx:75-82 | the trimmed title is checked first, then the trimmed content; no error exactly when both are long enough |
| `AskQuestion.SubmitCheckImpliesSchema` | src/pages/AskQuestion.jsx:75-82 | text that passes the submit checks passes the schema |
| `AskQuestion.BlankTitlePassesOnlyTheSchema` | src/pages/AskQuestion.jsx:13-76 | a blank title of at least ten characters, with content of at least twenty, passes the schema and is stopped by the submit check |
| `AskQuestion.QuestionPayload` | src/pages/AskQuestion.jsx:84-102 | the trimmed title and content first, then one "tags" entry per tag, then one "attachments" entry per file |
| `AskQuestion.PayloadFields` | src/pages/AskQuestion.jsx:84-102 | the body reads back as the trimmed title, the trimmed content, the tags in order and the files in order |
| `AskQuestion.BuildQuestionPayload` | src/pages/AskQuestion.jsx:84-102 | the appends build exactly `QuestionPayload` |
| `AskQuestion.CreatedTarget` | src/pages/AskQuestion.jsx:108-113 | the new question's page for a truthy id, else home |
| `AskQuestion.Submit` | src/pages/AskQuestion.jsx:73-117 | a failed check toasts it and sends nothing; otherwise the payload is sent; success toasts, clears the files and navigates; failure toasts the server's or the default message and keeps the files |
| `FileUrls.StripApiSuffix` | src/pages/QuestionDetail.jsx:97 | a trailing "/api/" or "/api" is cut off, and any other URL is kept |
| `FileUrls.StripApiSuffixRoundTrip` | src/pages/QuestionDetail.jsx:97 | an origin followed by "/api", with or without the final slash, gives the origin back |
| `FileUrls.ApiOrigin` | src/pages/QuestionDetail.jsx:96-97 | without a configured URL the origin is "http://localhost:5002" |
| `FileUrls.FileUrl` | src/pages/QuestionDetail.jsx:99-104 | nothing exactly for a missing or empty path; URLs starting "http" kept; others joined to the origin with exactly one slash |
| `FileUrls.FileUrlIdempotent` | src/pages/QuestionDetail.jsx:99-104 | with an http origin, resolving a resolved path changes nothing |
| `FileUrls.FileUrlLeadingSlash` | src/pages/QuestionDetail.jsx:102-103 | a relative path resolves alike with or without a leading slash |
| `FileUrls.ProfileImageUrl` | src/pages/Profile.jsx:153-167 | no image gives the default picture under the origin; a URL starting "http" is kept; every other value resolves under the origin |
| `FileUrls.UploadsPrefixOptional` | src/pages/Profile.jsx:163-166 | a stored name resolves alike with or without "uploads/" in front |
| `FileUrls.ProfileImageLikeAttachment` | src/pages/Profile.jsx:153-167 | for URLs, rooted paths and "uploads/" paths the profile image resolves like an attachment |
| `FileUrls.NavbarOrigin` | src/components/Navbar.js:155 | never empty, and the default origin without a configured URL |
| `FileUrls.NavbarOriginAgrees` | src/components/Navbar.js:155 | the notification list uses the pages' origin whenever that is not empty |
| `FileUrls.AvatarUrl` | src/components/Navbar.js:152-156 | as written: URLs kept; anything else put under the origin's "/uploads/", rooted paths included |
| `FileUrls.AvatarDoublesRootedPath` | src/components/Navbar.js:152-156 | a rooted "/uploads/a.png" gets a second "/uploads/" in the notification list, unlike on the profile page |
| `FileUrls.AvatarUrlCorrected` | src/components/Navbar.js:152-156 | agrees with the as-written avatar on every non-rooted, non-empty image |
| `FileUrls.AvatarCorrectedMatchesProfile` | src/pages/Profile.jsx:153-167 | the corrected avatar is the profile page's URL for the same stored value; a rooted path is appended to the origin |
| `FileUrls.LastSegment` | src/pages/QuestionDetail.jsx:303 | the piece after the last slash contains no slash |
| `FileUrls.LastSegmentIsSuffix` | src/pages/QuestionDetail.jsx:303 | the last segment is the tail of the path after its last slash, or the whole path without one |
| `FileUrls.AttachmentName` | src/pages/QuestionDetail.jsx:303 | the last segment, or the fallback when that is empty |
| `FileUrls.EndsWithSegment` | src/pages/QuestionDetail.jsx:303-304 | an extension test on a path's last segment agrees with the test on the whole path |
| `FileUrls.ImageTestSeesOnlyTheEnd` | src/components/QuestionCard.jsx:33-37 | testing the last segment, or the path when it is empty, agrees with testing the path |
| `FileUrls.ImageTestIgnoresCase` | src/pages/QuestionDetail.jsx:304 | the image test ignores the case of ASCII letters |
| `FileUrls.RootedProfileImage` | src/pages/Profile.jsx:160-161 | the profile page appends a rooted path to the origin as it stands |
| `FileUrls.AvatarOfRootedPath` | src/components/Navbar.js:155 | without a configured URL the notification list puts a rooted path under the default origin's "/uploads/" |
| `SavedItems.ItemKey` | src/pages/QuestionDetail.jsx:115 | the item's `_id` when truthy, else its `id` |
| `SavedItems.IsSaved` | src/pages/QuestionDetail.jsx:113-119 | saved only with an item and a user whose saved-ids property is a non-empty array |
| `SavedItems.IsSavedIffListed` | src/pages/QuestionDetail.jsx:113-119 | for string ids, an item shows as saved exactly when its id is in the user's list |
| `SavedItems.NothingSavedWithoutList` | src/pages/QuestionDetail.jsx:116-118 | a user without the saved-ids property has saved nothing |
| `SavedItems.ToggleRequest` | src/pages/QuestionDetail.jsx:127-130 | a saved item is unsaved and any other is saved, by its key |
| `SavedItems.WithSaved` | src/pages/QuestionDetail.jsx:134-137 | the user with only the saved-ids property replaced |
| `SavedItems.ToggleReflected` | src/pages/QuestionDetail.jsx:128-138 | once the store takes the server's list, the bookmark shows saved exactly when the list holds the id |
| `SavedItems.ToggleSave` | src/pages/QuestionDetail.jsx:121-155 | signed out only toasts; otherwise the toggle request is sent; a reply with data updates the session and the snapshot with only that property changed; the toast follows the state before the click, or the failure message |
| `QuestionDetail.UserKey` | src/pages/QuestionDetail.jsx:109 | the user's `id` when truthy, else its `_id` |
| `QuestionDetail.LikedByUser` | src/pages/QuestionDetail.jsx:106-111 | liked only with a question and a user, and only when the question's `likes` is a non-empty array |
| `QuestionDetail.LikedIffListed` | src/pages/QuestionDetail.jsx:106-111 | for string ids, the question shows as liked exactly when the user's id is among its likes |
| `QuestionDetail.LikeClick` | src/pages/QuestionDetail.jsx:157-169 | signed out is refused with its message; otherwise the route's question is un-liked exactly when it shows as liked, and liked otherwise |
| `QuestionDetail.SolveClick` | src/pages/QuestionDetail.jsx:210-222 | signed out is refused; otherwise the route's question is marked unsolved exactly when it is solved |
| `QuestionDetail.AuthorField` | src/pages/QuestionDetail.jsx:229-232 | an author that is not a populated object has no properties |
| `QuestionDetail.IsQuestionOwnerAsWritten` | src/pages/QuestionDetail.jsx:228-233 | as written, ownership needs a user and a question, and holds whenever both the user's `id` and the author's `id` are missing |
| `QuestionDetail.StrangerOwnsAsWritten` | src/pages/QuestionDetail.jsx:228-233 | as written, a user known only by `_id` owns a question by a populated author with no `id`, and one with an unpopulated author |
| `QuestionDetail.KnownIds` | src/pages/QuestionDetail.jsx:228-233 | a record's ids are its truthy primitive `id` and `_id` values |
| `QuestionDetail.IsQuestionOwner` | src/pages/QuestionDetail.jsx:228-233 | with the correction, ownership implies the as-written check and needs the user to have an id |
| `QuestionDetail.OwnerIffSharedId` | src/pages/QuestionDetail.jsx:228-233 | with the correction, the owner controls show exactly when the user and the author share an id |
| `QuestionDetail.CanDeleteAnswerAsWritten` | src/pages/QuestionDetail.jsx:419 | as written, the delete button needs a user, and shows whenever both the user's `id` and the author's `id` are missing |
| `QuestionDetail.CanDeleteAnswer` | src/pages/QuestionDetail.jsx:419 | with the correction, the button implies the as-written check and the user's `id` is one of the author's ids |
| `QuestionDetail.CorrectedOwnerRefinesAsWritten` | src/pages/QuestionDetail.jsx:228-233 | every corrected owner is an owner as written, and the two agree when the user has both ids |
| `QuestionDetail.NoIdNoOwnership` | src/pages/QuestionDetail.jsx:228-233 | with the correction, a user without ids owns nothing |
| `QuestionDetail.StrangerDeletesAsWritten` | src/pages/QuestionDetail.jsx:419 | as written, a user known only by `_id` is offered the delete button on another user's answer |
| `QuestionDetail.DeleteNeedsSharedId` | src/pages/QuestionDetail.jsx:395-419 | with the correction, the delete button shows exactly when the user's present `id` is one of the author's ids, and only where it showed as written |
| `QuestionDetail.WithoutId` | src/pages/QuestionDetail.jsx:269 | exactly the answers whose `_id` is not strictly equal to the id stay, in order |
| `QuestionDetail.WithoutIdCounts` | src/pages/QuestionDetail.jsx:269 | each answer whose `_id` differs from the id stays as often as it occurs, and the others never |
| `QuestionDetail.WithoutIdConcat` | src/pages/QuestionDetail.jsx:269 | the filter keeps order: filtering joined lists is joining the filtered lists |
| `QuestionDetail.ShowsNoAnswers` | src/pages/QuestionDetail.jsx:411 | the "no answers yet" notice shows exactly when there are no answers at all and no best answer |
| `QuestionDetail.AnswerPayload` | src/pages/QuestionDetail.jsx:185-190 | the trimmed content first, then one "attachments" entry per file, in order |
| `QuestionDetail.RegularAnswers` | src/pages/QuestionDetail.jsx:266-271 | without a best-answer id every answer is listed; with one the answers without that id |
| `QuestionDetail.BestAnswerShownOnce` | src/pages/QuestionDetail.jsx:266-271 | with a string id the best answer is not listed again and every other answer is |
| `QuestionDetail.AnswerCheck` | src/pages/QuestionDetail.jsx:176-183 | sign-in is checked first, then a trimmed length of 10; no error exactly when both pass |
| `QuestionDetail.AnswerPayloadFields` | src/pages/QuestionDetail.jsx:185-190 | the body reads back as the trimmed content and the files in order |
| `QuestionDetail.SubmitAnswer` | src/pages/QuestionDetail.jsx:175-199 | a failed check toasts and sends nothing; otherwise the body goes to the route's question; success clears the files, failure keeps them and toasts the server's or the default message |
| `Profile.ProfileView` | src/pages/Profile.jsx:41-44 | a profile is shown exactly when the session is not anonymous and has a user, and it is that user |
| `Profile.ProfileIgnoresFetchedData` | src/pages/Profile.jsx:41-44 | two different profile responses give the same shown profile: the fetched data never reaches the page |
| `Profile.IsOwner` | src/pages/Profile.jsx:46-47 | only with a profile; with no route id or an empty one always; otherwise exactly when the id is the profile's `_id` or `id` |
| `Profile.OwnerOnlyOfOwnId` | src/pages/Profile.jsx:46-47 | with no route id the viewer owns the page; with a non-empty one exactly when it equals the profile's `_id` or `id` |
| `Profile.RedirectTarget` | src/pages/Profile.jsx:49-53 | the page leaves for "/" exactly when the session is anonymous and no profile request is running |
| `Profile.WithSessionToken` | src/pages/Profile.jsx:205-208 | the stored user holds every field of the new data except the token, whose value is the session user's token |
| `Profile.UpdateKeepsToken` | src/pages/Profile.jsx:229-234 | after an update the session user keeps the token it had |
| `Profile.ChangeProfileImage` | src/pages/Profile.jsx:189-216 | no file does nothing; a file over 5 MB is refused with its toast and nothing is sent; otherwise the file is sent, a success stores the returned user with the session token, a failure leaves the session alone and toasts the server's or the default message |
| `Profile.UpdatedUser` | src/pages/Profile.jsx:225-228 | the server's data when it returns some; otherwise the shown profile with the submitted fields over it |
| `Profile.FallbackKeepsEdits` | src/pages/Profile.jsx:219-234 | without server data, every defined submitted field other than the token reaches the session user unchanged |
| `Profile.SubmitProfileEdit` | src/pages/Profile.jsx:218-245 | the payload is the form values without undefined ones; a failure leaves the session and toasts; a success stores the updated user with the session token |
| `Profile.EditQuestionPayload` | src/pages/Profile.jsx:602-623 | the trimmed title and content first, then the tags and files, and the removal list as the last entry exactly when something is removed |
| `Profile.BuildEditQuestionPayload` | src/pages/Profile.jsx:602-623 | the appended body equals the editor's body definition: trimmed title and content, the parsed tags, the new files, and the removal list only when not empty |
| `Profile.EditQuestionPayloadFields` | src/pages/Profile.jsx:602-623 | the body reads back the removal list once exactly when something is removed, the tags as the ask page parses them, and the files in order |
| `Profile.SubmitQuestionEdit` | src/pages/Profile.jsx:600-637 | the body goes to the edited question's id; success closes the editor and empties the selected and removed lists; failure keeps both lists and toasts the server's or the default message |
| `AnswerCard.ViewerKey` | src/components/AnswerCard.jsx:71-73 | undefined when signed out, otherwise the same key the question page uses for the user |
| `AnswerCard.CardLikeAgreesWithQuestionPage` | src/components/AnswerCard.jsx:71-73 | with a user signed in, the card's liked test and the question page's agree on every answer |
| `AnswerCard.SignedOutLikeNeedsMissingEntry` | src/components/AnswerCard.jsx:71-73 | signed out, an answer shows as liked exactly when its likes contain a null or undefined entry |
| `AnswerCard.AnswerLikedIffListed` | src/components/AnswerCard.jsx:71-73 | with string ids, a signed-in viewer has liked the answer exactly when their id is in its likes |
| `AnswerCard.LikeCount` | src/components/AnswerCard.jsx:161 | the number of entries for an array of likes, the number of characters for a string, 0 for anything else |
| `AnswerCard.LikedHasCount` | src/components/AnswerCard.jsx:71-73 | a liked answer never shows a count of 0 |
| `AnswerCard.LikeToggle` | src/components/AnswerCard.jsx:75-97 | signed out: no request and the login toast; signed in: a request for the answer's `_id` in this question, an undo exactly when already liked, and the success toast that matches or the server's or default failure message |
| `AnswerCard.FallbackName` | src/components/AnswerCard.jsx:126 | "Dosya " followed by a number, so it ends in a digit |
| `AnswerCard.ViewAttachment` | src/components/AnswerCard.jsx:125-131 | the name is never empty: the last path segment, or "Dosya <position+1>"; the link is "#" for an empty path and the file URL otherwise |
| `AnswerCard.ViewAttachments` | src/components/AnswerCard.jsx:124-144 | one view per attachment, in order, each from its own position |
| `AnswerCard.DigitEndIsNoImage` | src/components/AnswerCard.jsx:127 | a name that ends in a digit is never taken for an image |
| `AnswerCard.ImageExactlyByPath` | src/components/AnswerCard.jsx:126-127 | an attachment is drawn as an image exactly when its whole path ends in .jpg, .jpeg, .png or .gif, in any case |
| `QuestionCard.ImageAttachments` | src/components/QuestionCard.jsx:32-38 | the kept attachments are exactly those whose name is an image name, and no more than there were |
| `QuestionCard.ImagesAreByPath` | src/components/QuestionCard.jsx:34-37 | the filter equals keeping, in order, the attachments whose path ends in an image extension |
| `QuestionCard.Snippet` | src/components/QuestionCard.jsx:58 | a text of at most 180 characters is kept; a longer one becomes its first 180 characters followed by "..." |
| `QuestionCard.SnippetIdempotent` | src/components/QuestionCard.jsx:58 | taking the snippet of a snippet changes nothing |
| `QuestionCard.ShownTags` | src/components/QuestionCard.jsx:115 | a prefix of the tags of at most four; all of them when there are at most four |
| `QuestionCard.Cover` | src/components/QuestionCard.jsx:67-68 | no cover exactly when no attachment is an image; otherwise the URL of the first image attachment |
| `QuestionCard.FirstImageIsCover` | src/components/QuestionCard.jsx:67-68 | an attachment list that starts with an image has that image as its cover |
| `QuestionCard.Card` | src/components/QuestionCard.jsx:44-68 | no card for a missing question; otherwise a snippet of at most 183 characters, at most four tags, images drawn from the attachments, and a cover exactly when there is an image |
| `QuestionCard.ImagesByPathAreImages` | src/components/QuestionCard.jsx:34-37 | each kept attachment is one of the attachments and has an image name |
| `AdvancedFilters.ActiveKeys` | src/components/AdvancedFilters.jsx:35-37 | exactly the filter keys whose value is not "", null or undefined |
| `AdvancedFilters.BadgeIffActive` | src/components/AdvancedFilters.jsx:16-37 | the badge is shown exactly when its count is above 0 |
| `AdvancedFilters.HasActiveFilters` | src/components/AdvancedFilters.jsx:16-18 | some filter is active exactly when the set of active keys is not empty |
| `AdvancedFilters.ActiveCount` | src/components/AdvancedFilters.jsx:33-37 | the badge number is above 0 exactly when some filter is active |
| `AdvancedFilters.ChangeFilter` | src/components/AdvancedFilters.jsx:9-14 | the new filters have the old keys plus `key`, `key` set to the value, and every other key unchanged |
| `AdvancedFilters.ChangeMovesCountByOne` | src/components/AdvancedFilters.jsx:9-37 | one change moves the badge count by the change in that one key's activity, so by at most one |
| `AdvancedFilters.SolvedFromOption` | src/components/AdvancedFilters.jsx:69-73 | "" gives null, "true" gives true, any other option false |
| `AdvancedFilters.DateRangeFromOption` | src/components/AdvancedFilters.jsx:91-93 | "" gives null, any other option is stored as it is |
| `AdvancedFilters.UnsolvedShownAsAll` | src/components/AdvancedFilters.jsx:68-73 | choosing "unsolved" stores an active false, the select then shows "" ("all"), and reading that option back gives a different value |
| `AdvancedFilters.SolvedOption` | src/components/AdvancedFilters.jsx:68 | true shows "true", false shows "false", anything that is not a boolean shows "" |
| `AdvancedFilters.SolvedOptionAsWritten` | src/components/AdvancedFilters.jsx:68 | as written: `true` shows "true", any falsy value, `false` included, shows "" ("all"), and other text shows itself |
| `AdvancedFilters.SolvedOptionRoundTrip` | src/components/AdvancedFilters.jsx:67-80 | the corrected display and the change handler are inverses on the three options and on null, true and false |
| `AdvancedFilters.CorrectionOnlyForFalse` | src/components/AdvancedFilters.jsx:68 | for the values the filter can hold, the corrected display differs from the original exactly on false |
| `AdvancedFilters.FilterPanel.constructor` | src/components/AdvancedFilters.jsx:7 | the panel starts closed |
| `AdvancedFilters.FilterPanel.Toggle` | src/components/AdvancedFilters.jsx:24 | the filter button flips the open state |
| `AdvancedFilters.FilterPanel.Close` | src/components/AdvancedFilters.jsx:44-57 | the backdrop and the close button leave the panel closed |
| `AdvancedFilters.FilterPanel.ClickClear` | src/components/AdvancedFilters.jsx:147-153 | offered only in the open panel with an active filter; clears and closes |
| `Navbar.Logout` | src/components/Navbar.js:52-67 | on success the three storage keys are removed, the session is cleared, the cache is reset and the app goes to "/"; on failure storage and session are untouched and the server's or default message is shown |
| `Navbar.SignedOutAfterReload` | src/components/Navbar.js:55-60 | after a sign-out, restoring the session from storage on the next load stays anonymous with no user |
| `Navbar.UnreadCount` | src/components/Navbar.js:37 | the count from the response, 0 when it is missing |
| `Navbar.UnreadBadge` | src/components/Navbar.js:97-101 | a badge exactly when something is unread: "9+" above nine, otherwise the single digit that reads back as the count |
| `Navbar.BadgeFits` | src/components/Navbar.js:97-101 | the badge is never wider than two characters |
| `Navbar.MarkAllShown` | src/components/Navbar.js:107 | the "mark all as read" button shows exactly when the unread badge does |
| `Navbar.MarkAllShownWithBadge` | src/components/Navbar.js:107 | the "mark all as read" button is shown exactly when the badge is |
| `Navbar.QuestionRef` | src/components/Navbar.js:142 | a populated question gives its `_id`; any other value is used as it is |
| `Navbar.NotificationPanel.constructor` | src/components/Navbar.js:24 | the panel starts closed |
| `Navbar.NotificationPanel.Toggle` | src/components/Navbar.js:93 | the bell flips the open state |
| `Navbar.NotificationPanel.ClickOutside` | src/components/Navbar.js:40-46 | a press outside closes the panel |
| `Navbar.NotificationPanel.ClickNotification` | src/components/Navbar.js:132-145 | an unread notification is marked read by its `_id`; one with a question opens "/questions/<id>" and closes the panel; otherwise the panel stays as it was |
| `Navbar.PopulatedAndBareQuestionAgree` | src/components/Navbar.js:142 | a notification with the populated question and one with only its id open the same page |
| `QuestionApi.QuestionUrl` | src/features/questions/questionApi.js:17 | "/questions/" followed by exactly the id |
| `QuestionApi.EntryId` | src/features/questions/questionApi.js:11-13 | the entry's `_id`; undefined for an entry that is not an object |
| `QuestionApi.EntryTags` | src/features/questions/questionApi.js:11-13 | one tag per entry, in order, holding that entry's `_id` |
| `QuestionApi.ListProvides` | src/features/questions/questionApi.js:10-14 | the fallback tag alone when there is no data, otherwise exactly the entries' tags |
| `QuestionApi.EmptyPageNeverRefetched` | src/features/questions/questionApi.js:10-14 | an empty page provides no tag, so no mutation refetches it |
| `QuestionApi.QuestionProvides` | src/features/questions/questionApi.js:18 | a question's page provides exactly the tag of its id |
| `QuestionApi.MutationUrl` | src/features/questions/questionApi.js:28-93 | each mutation's URL: "/questions/ask", or "/questions/<id>" followed by its own suffix |
| `QuestionApi.Argument` | src/pages/Profile.jsx:625-628 | every mutation but the edit is handed the id itself; the edit an object whose `id` is the id |
| `QuestionApi.InvalidatesAsWritten` | src/features/questions/questionApi.js:34-99 | asking invalidates the list; a like or undo the argument and the list; the others also the "my questions" list |
| `QuestionApi.EditMissesItsQuestion` | src/features/questions/questionApi.js:56-66 | as written, an edit never refetches the page of the question it edited |
| `QuestionApi.Invalidates` | src/features/questions/questionApi.js:34-99 | the same tags with every mutation's own tag holding its question id |
| `QuestionApi.CorrectionOnlyForEdit` | src/features/questions/questionApi.js:62-66 | the correction leaves every mutation but the edit as written, and the edit then invalidates what a delete does |
| `QuestionApi.MutationRefetchesItsQuestion` | src/features/questions/questionApi.js:41-99 | with the correction, every mutation on a question refetches that question's page |
| `QuestionApi.MutationRefetchesListsShowingIt` | src/features/questions/questionApi.js:10-14 | a loaded list that shows a question is refetched by every mutation on it |
| `QuestionApi.AskMissesLoadedList` | src/features/questions/questionApi.js:10-14 | as written, asking a question refetches no loaded list whose entries have plain string ids |
| `QuestionApi.ListProvidesCorrected` | src/features/questions/questionApi.js:10-14 | the entries' tags when there is data, and the fallback tag always, last |
| `QuestionApi.AskRefetchesEveryList` | src/features/questions/questionApi.js:34 | with the fallback always provided, asking a question refetches every question list |

## Left out

- JSX markup, CSS, icons, animations and the display-only components are not modelled; they decide nothing.
- The request cache itself is not modelled: RTK Query hooks, `fetchBaseQuery`, and when a refetch actually runs. Only which tags meet is modelled, by `QuestionApi.Refetches`.
- The endpoint tables of `authApi.js`, `answerApi.js`, `bookmarkApi.js` and `notificationApi.js` are not part of this model. They are constant URL templates.
- Timers and polling are left out: the five-minute re-verification interval in `AuthGate` and the 30-second notification polling. Only the predicate that enables verification is modelled.
- `refetch()` after marking notifications read is left out. So is the "mark all as read" click, which only sends a request and refetches.
- `JSON.stringify` and `JSON.parse` are left out. A snapshot the application wrote is kept as the record it serialises. Anything else is "unparseable".
- `window`, `document` listeners and `typeof window` checks are left out. The application always runs in a browser.
- Floating-point display values are left out: `toFixed(1)` and `Math.round` in the home hero statistics. Their integer parts are modelled.
- `parseInt` in the filter panel's number inputs is left out. Those inputs also show "" for a stored 0, like the solved select.
- Markdown stripping (`getPlainText`) is left out; its plain text is an input of `QuestionCard.Card`. Markdown rendering is left out too.
- zod's e-mail format check is an input of the sign-in and registration schemas.
- Lengths are counted in `char`s where zod and `String.length` count UTF-16 code units. The two agree for text without characters outside the Basic Multilingual Plane.
- Translation (`i18next`) is left out. Translated toasts are kept as their translation keys.
- Deleting an answer on the question page only sends the request and toasts; it is not modelled.
- The like and solve success toasts on the question page are not modelled. Neither is the sign-in prompt before marking an answer solved.
- Opening the lightbox from a card is not modelled.
- `logError`, `withErrorHandling`, the global error handlers, error boundaries, the confirmation modal, the language switcher and the store wiring are not part of this model.
- `SavedItems.ListHas`: a saved or liked list that is not an array counts as holding nothing. This matches `?.some`, except where a value that is not an array has its own `some`.
- `AnswerCard.LikedByViewer` has no signed-in check, unlike the question page. With no user it compares each like with `undefined`; `AnswerCard.SignedOutLikeNeedsMissingEntry` states the consequence.
- `Profile.ProfileView`: the fetched profile is never shown, and "/profile/<other id>" shows the viewer's own profile. This is as written: the page ignores the route id except for `isOwner`.
- `AskQuestion.SchemaTags`: the branch of the tag transform that receives a list is unreachable from the form, which always submits text. It is not modelled.
- `QuestionApi.Matches`: a tag id is compared by its string form, as the cache files it under a property name. Numbers and strings with the same text therefore meet.
- `Pagination.GetPageNumbers`: with exactly six pages an ellipsis can stand between two adjacent page numbers. This is as written; `Pagination.EllipsisBetweenAdjacentPages` states it.
- `Home.TallyOf`: a tag named after a property of `Object.prototype` is counted like any other tag. In the source, `tagCounts` is a plain `{}` (`src/pages/Home.jsx:33-36`): a "__proto__" tag is never stored, because assigning a string to `__proto__` is ignored; a tag such as "constructor" or "toString" starts from the inherited function and gets a string, not a number, as its count. The model has no prototype chain.

## Findings

| source | as written | input that shows it | evidently intended | confidence | as-written member | corrected member |
|---|---|---|---|---|---|---|
| src/features/questions/questionApi.js:56-66 | `editQuestion` receives `{ id, formData }` but its tag function uses that whole argument as the tag id | editing question "q1": the invalidated tag is filed as "[object Object]", so the page of "q1" keeps its stale copy | invalidate the tag of `id`, as delete, solve and unsolve do | high, not executed | `QuestionApi.EditMissesItsQuestion` | `QuestionApi.MutationRefetchesItsQuestion` |
| src/features/questions/questionApi.js:10-14 | a loaded list provides only its entries' tags, and "LIST" only when there is no data | a list showing questions "q1" and "q2", then a new question is asked: asking invalidates only "LIST", which the list does not provide | provide "LIST" beside the entries' tags, so asking refetches every list | high, not executed | `QuestionApi.AskMissesLoadedList` | `QuestionApi.AskRefetchesEveryList` |
| src/pages/QuestionDetail.jsx:228-233 | the owner check compares `user.id` with `question.user.id` by `===` even when both are missing | user `{ _id: "u1" }` and a question by `{ _id: "u2" }` (or by the bare id "u2"): `undefined === undefined` shows the owner controls | match only ids that are present | high, not executed | `QuestionDetail.StrangerOwnsAsWritten` | `QuestionDetail.OwnerIffSharedId` |
| src/pages/QuestionDetail.jsx:395-419 | the answer delete button compares `user.id` with the author's `id` by `===` | user `{ _id: "u1" }` viewing an answer by `{ _id: "u2" }`: both `id`s are undefined and the button shows | require the user's `id` to be present | high, not executed | `QuestionDetail.StrangerDeletesAsWritten` | `QuestionDetail.DeleteNeedsSharedId` |
| src/components/AuthGate.jsx:91-98 | a failed verification clears the session only when no user was rendered, and the hydrated user is always rendered | a stored token whose profile request fails: hydration, fetching, then the error leave status "checking" with the unverified user | a failed verification signs out | medium, not executed | `AuthGate.FailedVerificationStaysChecking` | `AuthGate.CorrectedFailedVerificationSignsOut` |
| src/components/Navbar.js:152-156 | the sender's avatar prefixes "uploads/" to every path that does not start with "uploads/", including a rooted "/uploads/a.png" | stored image "/uploads/a.png": the avatar URL is ".../uploads//uploads/a.png" where the profile page uses ".../uploads/a.png" | build the URL as the profile page does | low, not executed | `FileUrls.AvatarDoublesRootedPath` | `FileUrls.AvatarCorrectedMatchesProfile` |
| src/components/AdvancedFilters.jsx:68-73 | the solved select shows `filters.solved \|\| ""` | choosing "unsolved" stores `false`, and the select then shows "" ("all") while the filter stays active | show "false" for `false` | high, not executed | `AdvancedFilters.UnsolvedShownAsAll` | `AdvancedFilters.SolvedOptionRoundTrip` |
