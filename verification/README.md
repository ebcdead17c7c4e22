# FilmHub authentication and page logic in Dafny

FilmHub is a movie site. It has an Express/Mongoose server and a React
client. This project models the core of both halves as pure functions
over immutable datatypes, then proves what the code promises about them.

Server:
- **`AuthController`**: the authentication controller. It covers signup,
  login, refresh, email verification, the verification poll, signout and
  the session check. Each handler maps a user store plus the request to a
  response. The response carries the status, the body, the new store, the
  cookie operations and the verification mail, if one is sent.
- **`Jwt`** and **`Crypto`**: the signed tokens and the bcrypt digests the
  controller relies on. Both are abstract datatypes with the properties
  the controller depends on.
- **`AuthProperties`**: the store invariant every handler keeps, plus
  multi-request properties. These are: single use of verification links,
  revocation by signout and by a new login, mail failures having no
  effect, and an end-to-end account scenario.
- **`ActivityBroadcast`**: the WebSocket fan-out of a new activity.

Client:
- **`AuthSession`**: the session provider, its two flags, and the response
  interceptor that answers a 401 with one refresh and one retry.
- **`LegacyAuthSession`**: the older provider, which also keeps a bearer
  token.
- **`AppRoutes`**: the route table, the route guard and the navigation-bar
  rule.
- **`FormValidation`**: the sign-up/login form. It covers the email regular
  expression, the password rule, the touched-only error rule, the tab
  reset and the submit guard.
- **`SectionNavigation`**: the landing page's throttled section scroller
  and its navigation bar.
- **`MoviesPage`**: the search page's request, answer checks and
  pagination.
- **`UserProfile`**: the profile page's optimistic watchlist removal,
  profile edits, initials and review stars.
- **`MovieDetails`**: the detail page's watchlist test and guard, query
  enabling, review form and loading order.

**Abstractions:**
- **Users.** The store is a sequence of users, and a user's id is their
  position in it. `findOne` returns the first match.
- **Tokens.** A token is either `Signed(secret, uid, iat, exp)` or an
  unparseable string. Verification checks the secret first and then the
  expiry: it is `Expired` once `now >= exp`. A token signed with the same
  secret, user and second is the same string. This is why two logins in
  the same second issue the same refresh token.
- **Passwords.** A digest records its salt and its source, so `Compare`
  accepts exactly the hashed password.
- **Random values.** The random bytes of a new verification token, the
  clock, the salt and the mail provider's answer are all parameters of
  the handler. A new verification token is required to be fresh: it
  differs from every token already in the store.
- **Client requests.** A client request is represented by how its promise
  settles: `Ok`, `HttpError(status)` or `NetworkError`.

**Verification after an early login.** A user who logs in before
verifying must use the link from the second mail. A correct-password
login of an unverified user replaces the stored verification token
(`authController.js:89-96`), so the link from the signup mail answers 404
and only the second mail's link verifies.
`AuthProperties.SignupVerifyLoginScenario` and
`AuthProperties.UnverifiedLoginInvalidatesMailedLink` state this
behaviour.

**Other behaviours of the code that the contracts make explicit:**
- The "Email is already verified" branch of `verifyEmail` cannot be
  reached. No reachable store has a verified user who still holds a token.
- `refreshToken` never rotates the refresh token.
- The mounted sign-up form is valid, because errors are reported only for
  touched fields.
- A tab switch validates with the fields and touched flags of the render
  before the reset, and that verdict is applied last. A switch away from an
  untouched form therefore leaves a valid form with empty fields. Its
  `required` inputs still keep the browser from submitting it. A switch
  from a blank form keeps the errors of the fields touched before it,
  although nothing is touched afterwards.
- A submit reaches its handler only when the button is enabled
  (`disabled={loading || !isFormValid}`), every `required` input of the tab
  holds text, and the email passes the HTML `type="email"` check. That
  check is not the page's expression: each accepts an address the other
  refuses.
- The sign-up handler calls `axios.post` (`GetStarted.jsx:138`), but the
  file never imports `axios`. Every sign-up attempt therefore throws before
  a request leaves, and the page shows "Something went wrong, please try
  again." Only the login tab sends anything.
- The older session provider keeps a user signed in when the logout
  request fails. The newer one signs them out.

## Model

| member | source | states |
|---|---|---|
| Common.Filter | FilmHub/src/unit/pages/UserProfile.jsx:157 | The result keeps exactly the elements that satisfy the predicate, with their multiplicities, and nothing else. |
| Common.FilterAppend | FilmHub/src/unit/components/NavBar.jsx:17 | Filtering distributes over concatenation, so the kept elements stay in their original order. |
| Common.FilterIdentity | FilmHub/src/unit/components/NavBar.jsx:17 | A filter returns its input unchanged if and only if every element is kept. |
| Common.FilterDropsRejectedLast | FilmHub/src/unit/components/NavBar.jsx:8-17 | A sequence whose elements all pass, followed by one element that fails, filters back to that sequence. |
| Common.FindFirst | server/controllers/authController.js:83 | `findOne` returns the first match; the result is absent exactly when nothing matches. |
| Jwt.Sign | server/controllers/authController.js:99-100 | A signed token carries its secret and user id, is issued at `now` and expires after the lifetime. |
| Jwt.Verify | server/controllers/authController.js:139 | A token is valid exactly when it was signed with this secret and `now < exp`; it is invalid exactly when the signature does not match; otherwise it is expired. The same file at line 255 is modelled too. |
| Jwt.ValidExactlyWithinLifetime | server/controllers/authController.js:99-100 | A new token is valid when issued and stays valid exactly until its lifetime (15 min or 7 days) has passed; after that it is `Expired`. |
| Jwt.SecretsDoNotCross | server/controllers/authController.js:99-100 | An access token never verifies as a refresh token, and a refresh token never verifies as an access token. The same file at lines 139, 255 is modelled too. |
| Crypto.Hash | server/controllers/authController.js:57-58 | The digest records the salt it was made with. |
| Crypto.CompareAcceptsExactlyTheHashedPassword | server/controllers/authController.js:57-58 | `bcrypt.compare` accepts the password that was hashed and no other candidate. The same file at line 86 is modelled too. |
| AuthController.SendVerificationEmail | server/controllers/authController.js:12-31 | The mail goes to the user's address with the user's current token, whether or not delivery succeeds. |
| AuthController.Signup | server/controllers/authController.js:47-73 | 400 "User already exists" with the store unchanged if and only if the email is taken. Otherwise 201 with one appended user: unverified, holding the fresh token and no refresh token, with a digest that accepts the password. The token is mailed. The store invariant is preserved. |
| AuthController.Login | server/controllers/authController.js:80-126 | 400 with one identical response if and only if the email is unknown or the password is wrong. 403 for an unverified user: the verification token is replaced and mailed, and no cookies are set. 200 for a verified user: the stored refresh token is overwritten with the new one, and a 15-minute access cookie and a 7-day refresh cookie are set. The store invariant is preserved. |
| AuthController.Refresh | server/controllers/authController.js:130-167 | The store is never changed. 401 if and only if no cookie is sent. 200 if and only if the token is a live refresh token of an existing user and equals the stored one; only then is a new access cookie set. Every other case is 403. |
| AuthController.VerifyEmail | server/controllers/authController.js:176-210 | 404 with the store unchanged if and only if no user holds the token. On 200, only the holder changes: verified, with the token cleared. Under the invariant the 400 branch never occurs. The invariant is preserved. |
| AuthController.CheckVerificationStatus | server/controllers/authController.js:214-232 | A read-only poll: 404 if and only if the email is unknown, otherwise 200 with that user's verified flag and the matching message. |
| AuthController.Signout | server/controllers/authController.js:234-243 | Both cookies are cleared, the user's stored refresh token is set to null, and every other user is unchanged. |
| AuthController.CheckAuth | server/controllers/authController.js:246-271 | 401 if and only if the cookie is missing or holds an expired access token. 200 if and only if it holds a live access token of an existing user, with that user's id, name and email. A refresh token is never accepted. |
| AuthProperties.Handle | server/controllers/authController.js:34-271 | Every handler, dispatched on the request, keeps the store invariant: unique emails, and verified users hold no verification token. Only verified users hold a refresh token, which is bound to its owner, and verification tokens are unique. |
| AuthProperties.Run | server/controllers/authController.js:34-271 | Handling a sequence of requests atomically keeps the invariant and never removes users. |
| AuthProperties.ReachableStoresAreConsistent | server/controllers/authController.js:181-195 | Every store built from an empty collection satisfies the invariant, so verifyEmail never answers 400 "Email is already verified". |
| AuthProperties.VerificationTokenSingleUse | server/controllers/authController.js:181-195 | After a link has verified its user, the same link answers 404. |
| AuthProperties.VerifiedStatusIsVisible | server/controllers/authController.js:186-192 | After a successful verification, the poll by the user's email reports the account as verified. The same file at lines 214-227 is modelled too. |
| AuthProperties.UnverifiedLoginInvalidatesMailedLink | server/controllers/authController.js:89-96 | A correct-password login of an unverified user makes the link mailed earlier answer 404 and sets no cookies. The same file at lines 181-185 is modelled too. |
| AuthProperties.SignoutRevokesRefresh | server/controllers/authController.js:234-243 | After signout, no refresh token of that user is honoured, even one whose signature and expiry are still good. The same file at lines 146-150 is modelled too. |
| AuthProperties.LoginLeavesOneLiveRefreshToken | server/controllers/authController.js:99-120 | After a successful login, a refresh token of that user is honoured if and only if it is the one just issued and has not expired. The same file at lines 146-150 is modelled too. |
| AuthProperties.SecondLoginRevokesFirst | server/controllers/authController.js:99-104 | After a second login, the first refresh token is honoured if and only if both logins happened in the same clock second. The same file at lines 146-150 is modelled too. |
| AuthProperties.MailFailureIsInvisible | server/controllers/authController.js:22-30 | Whether the mail is delivered never changes the status or the store of signup or login. The same file at lines 71-73, 95 is modelled too. |
| AuthProperties.SignupVerifyLoginScenario | server/controllers/authController.js:47-126 | Signup gives 201. A premature login gives 403 without cookies. The signup link then gives 404 and the re-mailed link 200. The next login gives 200 with two cookies, and checkAuth with the access cookie returns the account. The same file at lines 176-271 is modelled too. |
| ActivityBroadcast.Code | server/controllers/activityController.js:22 | The ready-state codes are below 4, and code 1 (`WebSocket.OPEN`) is exactly the open state. |
| ActivityBroadcast.OpenClients | server/controllers/activityController.js:21-23 | The clients reached are exactly the open ones in the server's set. |
| ActivityBroadcast.FanOut | server/controllers/activityController.js:21-25 | The loop sends the payload to the open clients, one message each, in iteration order, and skips the others. |
| ActivityBroadcast.Broadcast | server/controllers/activityController.js:19-27 | Nothing is sent without an attached server. Otherwise each message goes to an open client, in order, carrying the serialised activity. |
| ActivityBroadcast.OpenClientsReceiveExactlyOnce | server/controllers/activityController.js:21-25 | Each open client receives exactly one message per call, and every other client receives none. |
| ActivityBroadcast.RecipientsIgnoreActivity | server/controllers/activityController.js:19-27 | The recipients do not depend on the activity, so there is no per-user filtering, and all messages carry the same payload. |
| AuthSession.RefreshAccessToken | FilmHub/src/unit/hooks/AuthContext.jsx:18-30 | Returns true exactly when the refresh request succeeds; every failure is caught and gives false. |
| AuthSession.InitializeAuth | FilmHub/src/unit/hooks/AuthContext.jsx:32-48 | Loading always ends, and the session is authenticated exactly when the check succeeded. |
| AuthSession.Login | FilmHub/src/unit/hooks/AuthContext.jsx:50-62 | Success authenticates. A failure is rethrown unchanged and leaves both flags alone. |
| AuthSession.GoogleLogin | FilmHub/src/unit/hooks/AuthContext.jsx:78-89 | Behaves like the password login: authenticated on success, and on failure the error is rethrown with the state unchanged. |
| AuthSession.Logout | FilmHub/src/unit/hooks/AuthContext.jsx:64-76 | The session is unauthenticated afterwards whatever the request did, and nothing is rethrown. |
| AuthSession.Send | FilmHub/src/unit/hooks/AuthContext.jsx:94-110 | At most one refresh and two sends. A refresh happens exactly on a 401 to a request not yet retried. After a good refresh the caller gets the retry's answer. After a failed refresh the caller gets the original 401 and is signed out. Other errors pass through unchanged. |
| AuthSession.SecondUnauthorizedIsFinal | FilmHub/src/unit/hooks/AuthContext.jsx:97-103 | A retried request that gets 401 again is rejected with that 401, and no second refresh is attempted. |
| AuthSession.InterceptorOnlyDeauthenticates | FilmHub/src/unit/hooks/AuthContext.jsx:97-108 | The interceptor changes the session only to sign it out, and only after a 401 whose refresh failed. |
| LegacyAuthSession.CheckAuth | FilmHub/src/hooks/AuthContext.jsx:19-27 | Authenticated exactly when the check succeeds. A failure also forgets the bearer token. |
| LegacyAuthSession.Login | FilmHub/src/hooks/AuthContext.jsx:29-41 | Success stores the returned token, which may be absent. A failure is rethrown and changes nothing. |
| LegacyAuthSession.GoogleLogin | FilmHub/src/hooks/AuthContext.jsx:53-65 | Behaves like the password login. |
| LegacyAuthSession.Logout | FilmHub/src/hooks/AuthContext.jsx:43-51 | State is cleared only when the request succeeds. A failure is swallowed and the session is kept. |
| LegacyAuthSession.FailedLogoutDiverges | FilmHub/src/hooks/AuthContext.jsx:43-51 | On a failed logout, the older provider stays signed in while the newer one signs out. |
| LegacyAuthSession.CheckAuthAfterLogin | FilmHub/src/hooks/AuthContext.jsx:19-27 | A failed check returns the provider to its initial state. A successful check keeps the bearer token the last login stored. |
| AppRoutes.Resolve | FilmHub/src/App.jsx:47-91 | The chosen route's pattern matches the location; when none is chosen, no pattern matches. |
| AppRoutes.ProtectedRoute | FilmHub/src/App.jsx:16-28 | Loading shows the placeholder. Once settled, an unauthenticated session is sent to `/get-started` and an authenticated one sees the page. |
| AppRoutes.AppContent | FilmHub/src/App.jsx:30-45 | While loading, only the placeholder shows. The navigation bar shows exactly for an authenticated session on `/movies`, `/top-charts` or `/now-playing`. |
| AppRoutes.GuardedExactlyTheAppPages | FilmHub/src/App.jsx:48-90 | A route is unguarded exactly when it renders the landing, sign-in or verification page. |
| AppRoutes.SettledSessionRouting | FilmHub/src/App.jsx:16-28 | Once settled, guarded pages redirect unauthenticated visitors and show to authenticated ones, and public pages show to everyone. The same file at lines 47-91 is modelled too. |
| AppRoutes.NavBarNotOnDetailPages | FilmHub/src/App.jsx:34 | A `/movies/:tmdbId` location resolves to a page and never shows the fixed navigation bar. The same file at lines 43-45, 66-73 is modelled too. |
| AppRoutes.InitializedSessionGuards | FilmHub/src/App.jsx:16-28 | After the mount check settles, the guard never shows the loading screen. A guarded page shows exactly when the check succeeded, and otherwise the visitor is redirected to sign-in. |
| FormValidation.LastIndexOf | FilmHub/src/unit/pages/GetStarted.jsx:59 | Returns the last position of the character, or -1 when it does not occur. |
| FormValidation.IndexOf | FilmHub/src/unit/pages/GetStarted.jsx:59 | Returns the first position of the character, or -1 when it does not occur. |
| FormValidation.MatchEmailDecidesShape | FilmHub/src/unit/pages/GetStarted.jsx:59 | The direct matcher accepts exactly the language of `^[a-zA-Z0-9._%+-]+@[a-zA-Z0-9.-]+\.[a-zA-Z]{2,}$`. |
| FormValidation.ToLower | FilmHub/src/unit/pages/GetStarted.jsx:60 | With ASCII case mapping, lower-casing keeps the length and maps each character on its own. |
| FormValidation.LowerCharKeepsClasses | FilmHub/src/unit/pages/GetStarted.jsx:59-60 | Lower-casing a character never moves it into or out of a character class of the expression. |
| FormValidation.ValidateEmailIgnoresCase | FilmHub/src/unit/pages/GetStarted.jsx:58-61 | With ASCII case mapping, `validateEmail` (test of the lower-cased string) accepts exactly the expression's language. |
| FormValidation.ValidatePassword | FilmHub/src/unit/pages/GetStarted.jsx:63-65 | Accepts exactly the passwords of at least 8 characters that contain a capital letter. |
| FormValidation.TrimStart | FilmHub/src/unit/pages/GetStarted.jsx:71 | Removes exactly the leading ECMAScript white space. |
| FormValidation.TrimEnd | FilmHub/src/unit/pages/GetStarted.jsx:71 | Removes exactly the trailing ECMAScript white space. |
| FormValidation.TrimEmptyIffBlank | FilmHub/src/unit/pages/GetStarted.jsx:71 | `!name.trim()` holds exactly for names made only of white space. |
| FormValidation.Errors | FilmHub/src/unit/pages/GetStarted.jsx:68-86 | `newErrors` holds a field exactly when that field's check fails, and it is empty exactly when no check fails. |
| FormValidation.ValidateForm | FilmHub/src/unit/pages/GetStarted.jsx:67-89 | Errors only for touched fields. The name is checked only on the sign-up tab and only blank names fail. The email and password errors are exactly their rule failing. The form is valid exactly when there are no errors, the `api` message is dropped, and nothing else changes. |
| FormValidation.HandleBlur | FilmHub/src/unit/pages/GetStarted.jsx:91-93 | Marks that one field touched and changes nothing else. |
| FormValidation.ResetTab | FilmHub/src/unit/pages/GetStarted.jsx:41-52 | The reset effect clears the three fields, the errors (the `api` message included) and the touched set, and marks the form invalid. |
| FormValidation.SwitchTab | FilmHub/src/unit/pages/GetStarted.jsx:41-56 | A change to the other tab empties the fields and the touched set. If a field held text, the form ends valid with no errors. If all were blank, the errors are those of the fields touched before the switch, under the new tab, and the form is valid exactly when there are none. |
| FormValidation.Mount | FilmHub/src/unit/pages/GetStarted.jsx:41-56 | Once the first render's effects have run, the form shows the sign-up tab with empty fields, nothing touched, no errors, and is valid. |
| FormValidation.Submit | FilmHub/src/unit/pages/GetStarted.jsx:132-182 | Nothing happens unless the submit fires: the button is enabled, the required inputs hold text and the email passes the `type="email"` check. A fired sign-up sends nothing and shows "Something went wrong, please try again.", because `axios` is undeclared. A fired login sends the email and password. On success it navigates to `/movies`; on rejection it shows the response message or "Invalid credentials. Please try again.". Either way the spinner ends off and the field messages stay. |
| FormValidation.RejectionMessage | FilmHub/src/unit/pages/GetStarted.jsx:174-177 | The rejection's message is shown when it is present and non-empty; otherwise "Invalid credentials. Please try again." is shown. The result is never empty. |
| FormValidation.EmptyRejectionShowsFallback | FilmHub/src/unit/pages/GetStarted.jsx:174-177 | After a fired login is rejected with no message or an empty one, the page shows "Invalid credentials. Please try again."; any other message is shown as sent. |
| FormValidation.UntouchedFormIsValid | FilmHub/src/unit/pages/GetStarted.jsx:41-56 | An untouched form is valid whatever it holds. The mounted form, and a form switched to the other tab while untouched, are valid yet cannot be submitted, because their required inputs are empty. The same file at lines 67-89 and 238-356 is modelled too. |
| FormValidation.StaleErrorsSurviveSwitch | FilmHub/src/unit/pages/GetStarted.jsx:41-56 | After a switch from a blank form whose email was touched, nothing is touched, yet the email error remains, the form is invalid and submitting sends nothing. |
| FormValidation.SignupNeverSends | FilmHub/src/unit/pages/GetStarted.jsx:132-161 | No sign-up form ever sends a request. One that fires shows the generic error. |
| FormValidation.RejectedLoginCanBeRetried | FilmHub/src/unit/pages/GetStarted.jsx:164-182 | After a rejected login the form fires again and resends the same fields. While the spinner is on, nothing is sent. The same file at line 356 is modelled too. |
| FormValidation.EmailChecksDiffer | FilmHub/src/unit/pages/GetStarted.jsx:248 | The browser's e-mail check and the page's expression differ: "a@b..cd" passes only the expression and "a@b" passes only the browser check. The same file at line 59 is modelled too. |
| FormValidation.BlurAffectsOnlyThatField | FilmHub/src/unit/pages/GetStarted.jsx:67-93 | Touching a field never changes whether another field reports an error. |
| SectionNavigation.Clamp | FilmHub/src/unit/components/smooth-scroll-layout.jsx:63 | `Math.max(lo, Math.min(x, hi))` stays in range and is the identity inside it. |
| SectionNavigation.HandleSectionChange | FilmHub/src/unit/components/smooth-scroll-layout.jsx:56-65 | Within 1000 ms of the last change nothing happens. Otherwise the clock is recorded and the section moves by the direction, clamped to the first and last sections. |
| SectionNavigation.WheelDirection | FilmHub/src/unit/components/smooth-scroll-layout.jsx:73-80 | For any fractional `deltaY`, scrolling down goes forward, scrolling up goes back, and zero does nothing. |
| SectionNavigation.TouchDirection | FilmHub/src/unit/components/smooth-scroll-layout.jsx:90-101 | Only a swipe of more than 50 pixels counts, measured on fractional coordinates. Swiping up goes forward and swiping down goes back. |
| SectionNavigation.FractionalSwipeCounts | FilmHub/src/unit/components/smooth-scroll-layout.jsx:92 | A 50.5-pixel swipe counts in either direction; a swipe of exactly 50 pixels does not. |
| SectionNavigation.ScrollToSection | FilmHub/src/unit/components/smooth-scroll-layout.jsx:103-105 | A link jumps straight to its index, with no clamping and no throttle. |
| SectionNavigation.ActiveSectionName | FilmHub/src/unit/components/smooth-scroll-layout.jsx:114 | The active section has a name exactly when its index is in range. |
| SectionNavigation.FilteredSections | FilmHub/src/unit/components/NavBar.jsx:8-17 | The links are the sections without the call to action, in order. |
| SectionNavigation.Label | FilmHub/src/unit/components/NavBar.jsx:47 | The label has the same length as the name, with the first letter capitalised and the rest unchanged. The same file at line 74 is modelled too. |
| SectionNavigation.Run | FilmHub/src/unit/components/smooth-scroll-layout.jsx:56-105 | Starting from a real section, any sequence of wheel, touch and link events leaves a real section showing. |
| SectionNavigation.NamesIdentifySections | FilmHub/src/unit/components/smooth-scroll-layout.jsx:12 | Two sections have the same name exactly when they are the same section, so comparing names, as the highlight rule does, compares sections. |
| SectionNavigation.FilterLeavesLinks | FilmHub/src/unit/components/NavBar.jsx:8-17 | Filtering out the call to action leaves home, about, featured and faq, in that order. |
| SectionNavigation.LinkIndexNamesSameSection | FilmHub/src/unit/components/NavBar.jsx:35-45 | The link at index `i` names section `i`. Clicking it highlights that link and no other, and never activates the call to action. The same file at lines 62-72 is modelled too. |
| SectionNavigation.CtaHighlightsNoLink | FilmHub/src/unit/components/NavBar.jsx:40 | While the call to action shows, no link is highlighted. The same file at lines 67, 82-83 is modelled too. |
| SectionNavigation.LinkLabels | FilmHub/src/unit/components/NavBar.jsx:47 | The links read Home, About, Featured and Faq. The same file at line 74 is modelled too. |
| MoviesPage.FetchParams | FilmHub/src/unit/pages/MoviesPage.jsx:67-75 | `limit` is 10, the slider ends become `yearFrom`/`yearTo`, genre "all" is sent as "", and the other fields pass through. |
| MoviesPage.FetchMovies | FilmHub/src/unit/pages/MoviesPage.jsx:58-94 | A request goes out exactly when authenticated. The result loads exactly when a body with a `movies` field arrives. A missing body or field is "Invalid response format", and a rejected request is an error. |
| MoviesPage.EmptyListIsNotAnError | FilmHub/src/unit/pages/MoviesPage.jsx:83-85 | An answer with an empty movie list loads. |
| MoviesPage.PageBound | FilmHub/src/unit/pages/MoviesPage.jsx:118 | `data?.totalPages \|\| 1`: no data, no count or a zero count gives one page. |
| MoviesPage.HandlePageChange | FilmHub/src/unit/pages/MoviesPage.jsx:117-121 | The page becomes the target exactly when `0 < target <= bound`, and is unchanged otherwise. |
| MoviesPage.PageStaysPositive | FilmHub/src/unit/pages/MoviesPage.jsx:53 | Starting from page 1, no sequence of page changes makes the page lower than 1. The same file at lines 117-121 is modelled too. |
| MoviesPage.DisabledButtonsWouldBeNoOps | FilmHub/src/unit/pages/MoviesPage.jsx:241-257 | Previous is disabled exactly on page 1 and Next exactly on the last page. Clicking either there would not change the page. |
| MoviesPage.NextWithoutPageCountIsInert | FilmHub/src/unit/pages/MoviesPage.jsx:118 | Without a page count, Next stays enabled but does nothing. The same file at line 253 is modelled too. |
| MoviesPage.ShownRange | FilmHub/src/unit/pages/MoviesPage.jsx:260 | The first number is `(page-1)*perPage+1`. The last is the smaller of `page*perPage` and the total: at most both, and equal to one of them. |
| MoviesPage.RangeCoversOnePage | FilmHub/src/unit/pages/MoviesPage.jsx:260 | On an existing page, `1 <= first <= last <= total` and the span is at most one page (exactly one page unless it is the last). Consecutive pages abut. |
| MoviesPage.RequestCarriesCurrentPage | FilmHub/src/unit/pages/MoviesPage.jsx:58-81 | Whatever page buttons were clicked, an authenticated fetch sends the page pagination reached, which is at least 1, with limit 10. A signed-out fetch sends nothing. |
| MoviesPage.RedirectAgreesWithGuard | FilmHub/src/unit/pages/MoviesPage.jsx:103-107 | The page sends the visitor to `/get-started` exactly when not loading and not authenticated, which is when the route guard does too. |
| UserProfile.ListOrEmpty | FilmHub/src/unit/pages/UserProfile.jsx:66 | A missing list field is read as the empty list, and a present one as itself. The same file at lines 74, 82, 90 is modelled too. |
| UserProfile.OnMutate | FilmHub/src/unit/pages/UserProfile.jsx:153-160 | The snapshot is the prior cache. The new cache drops every entry with that `tmdbId` and keeps every other entry as often as before. An empty cache becomes []. |
| UserProfile.RemoveFromWatchlist | FilmHub/src/unit/pages/UserProfile.jsx:146-168 | On error a loaded list is put back exactly. An empty cache keeps the `[]` written by `onMutate`, because the cache ignores a write of `undefined`. On success the cache is the filtered list. Either way the watchlist and recent-activity queries are invalidated. |
| UserProfile.RemovalIsIdempotent | FilmHub/src/unit/pages/UserProfile.jsx:156-158 | Removing the same movie twice leaves the same cache as removing it once. |
| UserProfile.RemovalChangesExactlyListedMovies | FilmHub/src/unit/pages/UserProfile.jsx:156-158 | The list is unchanged if and only if no entry has that `tmdbId`. |
| UserProfile.Edit | FilmHub/src/unit/pages/UserProfile.jsx:233-237 | An edit replaces only its own field. The email never changes, and an empty cache stays empty. The same file at lines 254-260, 268-271 is modelled too. |
| UserProfile.EditsAreIndependent | FilmHub/src/unit/pages/UserProfile.jsx:232-271 | An input shows what was typed into it. The other inputs keep their values, and edits of different inputs commute. |
| UserProfile.Split | FilmHub/src/unit/pages/UserProfile.jsx:209 | `split(" ")` yields at least one piece, and no piece contains a space. |
| UserProfile.Initials | FilmHub/src/unit/pages/UserProfile.jsx:208-211 | The initials contain no space. |
| UserProfile.InitialsFromPositions | FilmHub/src/unit/pages/UserProfile.jsx:208-211 | The split-map-join initials are exactly the characters that start a word (a non-space at the start or after a space), in order. |
| UserProfile.Stars | FilmHub/src/unit/pages/UserProfile.jsx:395-403 | There are five stars, and star `i` is lit exactly when `i < rating`. |
| UserProfile.LitStarsShowRating | FilmHub/src/unit/pages/UserProfile.jsx:395-403 | The number of lit stars is the rating cut to the range 0 to 5. |
| MovieDetails.JsNumber | FilmHub/src/unit/pages/MovieDetailsPage.jsx:86 | `Number` of a digit string is a number, the empty string gives 0, and anything else gives NaN. |
| MovieDetails.NumberOfDecimal | FilmHub/src/unit/pages/MovieDetailsPage.jsx:86 | Reading back the decimal spelling of an id gives the id. |
| MovieDetails.WatchlistTestFindsLinkedMovie | FilmHub/src/unit/pages/MovieDetailsPage.jsx:86 | For a page reached through `/movies/<id>`, the movie counts as in the watchlist exactly when the id is listed. |
| MovieDetails.AbsentProfileListsNothing | FilmHub/src/unit/pages/MovieDetailsPage.jsx:86 | Without a profile or a watchlist, the movie counts as not listed. |
| MovieDetails.HandleAddToWatchlist | FilmHub/src/unit/pages/MovieDetailsPage.jsx:158-162 | For a movie reached through its `/movies/<id>` link, the add mutation starts exactly when `id` is not in the loaded watchlist. Without a loaded watchlist, or for a non-numeric id, it always starts. |
| MovieDetails.AddButtonDisabled | FilmHub/src/unit/pages/MovieDetailsPage.jsx:290 | For a movie reached through its link, the button is disabled exactly when `id` is in the loaded watchlist. Without a loaded watchlist, or for a non-numeric id, it is enabled. |
| MovieDetails.DecimalsReadBack | FilmHub/src/unit/pages/MovieDetailsPage.jsx:86 | `Number` of every spelled-out id is that id. |
| MovieDetails.AddButtonMatchesGuard | FilmHub/src/unit/pages/MovieDetailsPage.jsx:158-162 | The button is enabled exactly when clicking it would add the movie. The same file at line 290 is modelled too. |
| MovieDetails.QueriesEnabled | FilmHub/src/unit/pages/MovieDetailsPage.jsx:68-84 | The movie and review queries run exactly with a non-empty id and a session. The profile query runs exactly with a session. |
| MovieDetails.SignedOutFetchesNothing | FilmHub/src/unit/pages/MovieDetailsPage.jsx:71 | A signed-out visitor fetches nothing, and once loading ends is redirected to sign-in. The same file at lines 77, 83 and 260-267 is modelled too. |
| MovieDetails.DetailsOnlyWithQueriesEnabled | FilmHub/src/unit/pages/MovieDetailsPage.jsx:71 | The details of a linked movie show only while all three queries are enabled. The same file at lines 77, 83 and 260-267 is modelled too. |
| MovieDetails.HandleRating | FilmHub/src/unit/pages/MovieDetailsPage.jsx:164-166 | A star click sets the rating and keeps the text. |
| MovieDetails.SubmitReview | FilmHub/src/unit/pages/MovieDetailsPage.jsx:109-136 | The current rating and text are posted. Success resets them to 0 and "" and invalidates the reviews. An error leaves them unchanged. |
| MovieDetails.SubmitAfterRating | FilmHub/src/unit/pages/MovieDetailsPage.jsx:109-136 | The rating a star click sets is the rating posted. After a successful post no star is lit; after a failed one the stars stay as they were. The same file at lines 164-166 and 426-433 is modelled too. |
| MovieDetails.HighlightedStars | FilmHub/src/unit/pages/MovieDetailsPage.jsx:426-433 | Star `k` (1 to 5) is highlighted exactly when `k <= rating`. |
| MovieDetails.ClickedStarAndBelowHighlighted | FilmHub/src/unit/pages/MovieDetailsPage.jsx:426-434 | Clicking star `k` highlights stars 1 to `k` and no others, the same stars the profile page shows for that rating. |
| MovieDetails.Render | FilmHub/src/unit/pages/MovieDetailsPage.jsx:260-267 | The skeleton shows exactly while the session or the movie is loading. The redirect happens exactly after loading, without a session. Details show only to a session. |
| MovieDetails.LoadingNeverRedirects | FilmHub/src/unit/pages/MovieDetailsPage.jsx:260-267 | While the session is loading, the page never redirects. |

## Left out

- The 500 branches of every handler (database or library exceptions): the store and the abstract libraries cannot fail.
- The express-validator chain on signup (`authController.js:34-45`): its rules are elided at `authController.js:37-38` (`// ...`), so every request reaches the handler body.
- Mongoose `findById` on an arbitrary id: user ids are store positions, and ids outside the store model "not found".
- The authentication middleware that sets `req.user` for signout: the user id is a parameter.
- Delivery of mail through SendGrid: only the "delivered" flag is kept, and it never affects a response.
- Cryptography: `jwt.sign`/`jwt.verify`, `bcrypt` and `crypto.randomBytes` are abstract. Their one-wayness and collision resistance are assumed, through freshness of new tokens and the structure of digests.
- Cookie options other than the name, value and `maxAge`.
- `getUserActivity` (`activityController.js:4-17`): it references an undefined cache helper, so it always answers 500.
- Concurrency: two requests racing on one user, and the scheduling of socket sends. Each handler runs atomically.
- React batching and effect ordering, except for the effects keyed on `activeTab`, where `SwitchTab` and `Mount` model the two effects of one commit. Elsewhere each state update and effect is applied on its own. The validation effect runs on field changes, not on blur, and the model lets a caller apply `ValidateForm` after `HandleBlur`. `Initial` is the first render, before the mount effects run.
- Timers and debouncing: the 100 ms scroll debounce, the 300 ms refetch debounce and query retry and staleness settings.
- Floating point: ratings and `toFixed`, and currency formatting. Ratings and page numbers are integers. The wheel and touch coordinates are reals, without rounding.
- Route matching in React Router is case-insensitive and ignores a trailing slash. The model matches paths exactly.
- The page's Google sign-in handlers (`GetStarted.jsx:95-117`): the Google widget and its credential are foreign code. The session's `googleLogin` is modelled.
- The browser's value sanitisation of `type="email"` inputs, which strips line breaks and surrounding white space: the model's `email` is the value as the page's state holds it.
- JavaScript strings are UTF-16. Lengths and `toLowerCase` are modelled on characters, with ASCII case mapping only.
- FormValidation.ToLower: ASCII case mapping only. JavaScript's Unicode `toLowerCase` can change the length: "İ" becomes two code units.
- FormValidation.ValidateEmailIgnoresCase: holds for ASCII case mapping only. JavaScript lower-cases U+212A (Kelvin sign) to "k", so "\u212A@ab.cd" passes `validateEmail` but fails the expression's language here.
- MovieDetails.JsNumber: models only decimal digit strings and the empty string. Other forms that `Number` accepts (white space, signs, hexadecimal, exponents) are read as NaN.
- UserProfile.Initials: the contract itself says only that no space appears. The full characterisation is `UserProfile.InitialsFromPositions`.
- Cookies.jsx, presentational components, TopCharts, NowPlaying and the WebSocket context: not part of this model.
- The URLs the client posts to, and the router file that maps them to handlers: not part of this model.
- The profile update mutation and review likes: each only calls the server and invalidates a query, which the model covers for the watchlist and reviews.
- The spinner and error states the pages render around queries, other than the loading order of the detail page.
