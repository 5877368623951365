# Internship portal client: the session core in Dafny

A model of the logic inside a React Native client for a university
internship portal. Students log in, create a profile, register an internship
placement ("assumption of duty") and see their supervisor assignment. Nearly
everything else in the app is presentation. The modelled parts are:

- **Refresh coordinator** (`ApiClient`). The bearer-token request interceptor,
  and the single-flight refresh-on-401 protocol with its queue of waiting
  requests. The protocol is a sequential event machine whose events are the
  points where the asynchronous interceptor resumes: a request fails, the
  refresh token has been read, the refresh call resolved, the refresh call
  rejected, and, for each call on its way out through the logout branch, the
  access-token deletion settled and the refresh-token deletion settled. The
  deletions are events of their own because the flag is already clear while
  they are pending.
- **Error normaliser** (`ErrorUtils`). `parseApiError` from a transport or
  foreign error to the canonical `AppError` record, with the default-message
  table.
- **State slices** (`AuthContext`, `ProfileContext`, `InternshipContext`).
  The three reducers, the tri-state `deriveStatus`, the start-up token
  restore and the load effects.
- **Route gate** (`RootLayout`). The navigation decision and splash condition
  of the root layout.
- **Hooks** (`UseAuth`, `UseProfile`, `UseInternship`). What each operation
  writes, dispatches and leaves in the hook's state, as a function of
  abstract service outcomes.
- **404 translation** (`Services`). The "no record yet" translation of the two
  lookup services.
- **Small string and validation rules.** `FormatUtils` (E.164 prefixing),
  `Validators` (the zod schemas as predicates), `FormValidation` (issues to
  field-error map), `Avatar` (initials), `PasswordStrength` (segment colours),
  `OtpInput` (cell update and completion), `StatusBadge` (palette and label),
  and `RemoveBundleCompression`. The last is the Gradle config plugin's
  regex removal, with JavaScript's leftmost, greedy and backtracking regex
  semantics written out.

Shared helpers:
- `Wrappers` holds `Option` and `Result`. A `Result` is a settled promise.
- `Strings` holds decimal digits, `String(n)`, `split` on one character and
  `join`.
- `TokenStore` is the two-slot secure token store. A slot counts as present
  only when it holds a non-empty string, matching `if (token)`.

Behaviours of the code worth noting:

- `logout` in hooks/useAuth.ts deletes no stored tokens itself. It only calls
  the server and dispatches `LOGOUT` (`UseAuth.LogoutWritesNoToken`). The
  tokens go only if the interceptor's teardown runs during the call, and a
  refresh during the call even leaves a fresh access token behind
  (`UseAuth.LogoutThroughInterceptor`, `UseAuth.LogoutAfterRefreshKeepsNewToken`).
- With no stored refresh token, the refresher is rejected, but the queued
  requests are neither replayed nor rejected. They stay pending
  (`ApiClient.BurstWithoutRefreshTokenStrandsQueue`).
- Queued requests are rejected with the refresh call's raw error, not a
  canonical session-expired error (`ApiClient.Rejections`). A 404 reaching a
  service this way is therefore not recognised (`Services.RawNotFoundPropagates`).
- After a failed refresh the flag is cleared before the tokens are deleted.
  An unmarked 401 arriving in that window starts a second refresh with the
  refresh token the server has just rejected
  (`ApiClient.SecondRefreshDuringTeardown`).
- The session restored at start-up carries the access token read before
  `/auth/me`, even when the interceptor refreshed it during that call
  (`AuthContext.RestoredTokenStaleAfterRefresh`).
- `submitRegistration` dispatches `SET_ACTIVE_PERIOD` for a period it had to
  fetch even when a later step fails. It still sends the period id of the
  state snapshot it started from, which is `""` in that case
  (`UseInternship.StalePeriodId`).

## Model

| member | source | states |
|---|---|---|
| ApiClient.AttachToken | services/apiClient.ts:21-32 | With a present access token the request gains `Authorization: Bearer <token>`, and its other headers, identity and retry mark are unchanged. With no token (or an empty one) the request is returned untouched. |
| ApiClient.AttachTokenIdempotent | services/apiClient.ts:21-32 | Running the request interceptor twice gives the same request as running it once. |
| ApiClient.Replays | services/apiClient.ts:41-51 | The `forEach` of `processQueue(null, token)`: one replay per queued entry, in queue order, each the same request (same identity and retry mark, same other headers) now carrying `Authorization: Bearer <token>`. |
| ApiClient.ReplayMatchesInterceptor | services/apiClient.ts:21-32 | Once the new token is saved, a replayed entry passes the request interceptor unchanged, and it is exactly what the interceptor would have made of the queued request. |
| ApiClient.ProcessQueueSplits | services/apiClient.ts:41-51 | Draining the queue in two parts gives the outputs of draining it at once, for both replays and rejections. |
| ApiClient.Rejections | services/apiClient.ts:41-51 | The `forEach` of `processQueue(err)`: one rejection per queued entry, in queue order, each carrying the raw error unparsed. |
| ApiClient.OnRequestFailed | services/apiClient.ts:56-92 | Four cases. (1) A 401 on an unmarked request while a refresh runs only appends the request, unmarked, to the queue. (2) A 401 on an unmarked request with no refresh running marks it retried, sets the flag and reads the refresh token, with queue and store unchanged. (3) A 401 on a retried request enters the token teardown, never queueing or refreshing, and nothing else changes yet. (4) Any other failure is rejected with the parsed error and changes nothing. In all cases the flag is set exactly while a refresher is suspended. |
| ApiClient.OnRefreshTokenRead | services/apiClient.ts:68-94 | With a refresh token, the refresh call is issued with it and nothing else changes. Without one: no call, the flag is cleared, the refresher enters the token teardown, and the queue is left as it was. |
| ApiClient.OnRefreshSucceeded | services/apiClient.ts:76-89 | The new access token is saved and becomes the default header, and the refresh token is kept. Queued entries are replayed in order with the new token, then the original request is retried. The queue ends empty and the flag ends clear. |
| ApiClient.OnRefreshFailed | services/apiClient.ts:84-94 | Every queued entry is rejected with the raw refresh error, the queue ends empty, the flag ends clear and the refresher enters the token teardown. Both tokens are still stored at this point. |
| ApiClient.OnAccessTokenDeleted | services/apiClient.ts:94 | The access token is gone. Only that teardown moves on; nothing is output and nothing else changes. |
| ApiClient.OnRefreshTokenDeleted | services/apiClient.ts:95-102 | The refresh token is gone, and the call leaves the teardown rejected with its own parsed error. Nothing else changes. |
| ApiClient.TeardownCompletes | services/apiClient.ts:92-102 | Whatever else is going on, a teardown run to completion deletes both tokens, rejects its call with the parsed 401, and changes nothing else. |
| ApiClient.Handle | services/apiClient.ts:54-104 | Every event enabled in a state keeps the coordinator invariant: the flag is set exactly while a refresher is suspended, and that refresher, like every call in the teardown, is a retried request that failed with 401. |
| ApiClient.Burst | services/apiClient.ts:54-104 | A sequence of failures, one after another, keeps the coordinator invariant. |
| ApiClient.BurstStartsOneRefresh | services/apiClient.ts:59-67 | Single flight. Any number of 401s on unmarked requests reads the refresh token at most once (never if a refresh was already running) and posts no refresh. Every request after the refresher is queued, unmarked, in arrival order. The store, default header and teardowns are untouched. |
| ApiClient.BurstFromIdle | services/apiClient.ts:59-69 | From an idle client, a burst leaves the first request as the refresher, marked and reading the refresh token, and all the others queued in order, after exactly one token read. |
| ApiClient.BurstThenRefreshSucceeds | services/apiClient.ts:41-89 | A burst from an idle client followed by a successful refresh. Exactly one token read and one refresh call. The queued requests are replayed in arrival order with the new token and the refresher's request is retried last. The client ends idle with the new access token. |
| ApiClient.BurstThenRefreshFails | services/apiClient.ts:41-102 | A burst followed by a failed refresh. One refresh call. Every queued request is rejected with the raw refresh error while both tokens are still stored. Once the teardown completes, the refresher is rejected with its parsed 401, both tokens are gone and the client is idle. |
| ApiClient.SecondRefreshDuringTeardown | services/apiClient.ts:84-95 | After a failed refresh the flag is clear before the tokens are deleted, so an unmarked 401 arriving then starts a second refresh and posts the refresh token the server has just rejected. |
| ApiClient.BurstWithoutRefreshTokenStrandsQueue | services/apiClient.ts:66-102 | A burst with no stored refresh token makes no refresh call and clears the flag. Once the teardown completes, the refresher is rejected and both tokens are deleted, while every other request stays in the queue. |
| ErrorUtils.ParseApiError | utils/error.utils.ts:15-47 | `statusCode` is the response status, or 0 without a response. The message is a non-empty string payload `message` if there is one, else the table entry for the status, else the generic text. `fieldErrors` is present exactly when `data.errors` is an object or array; it copies every entry, with array indices as decimal keys. `code` is the transport code when non-empty, else `HTTP_` followed by the status. A foreign error gives `UNKNOWN`, status 0, no field errors, and its own message or the unexpected-error text. |
| ErrorUtils.DefaultMessage | utils/error.utils.ts:4-13 | The table has a message exactly for 400, 401, 403, 404, 409, 422, 429 and 500, never empty (so the fallback to the generic text never skips a listed status) and never the generic text. |
| ErrorUtils.DefaultMessagesDistinct | utils/error.utils.ts:4-13 | Different listed statuses get different messages. |
| ErrorUtils.IndexEntries | utils/error.utils.ts:28-33 | Copying an array-shaped `errors` keys every element by its index in decimal, and holds no other keys. |
| ErrorUtils.IndexKeysReadBack | utils/error.utils.ts:28-33 | Every key of a copied array reads back as a valid index whose element is the stored value. |
| ErrorUtils.SynthesisedCodeCarriesStatus | utils/error.utils.ts:36-39 | Without a transport code, the synthesised `HTTP_<status>` code parses back to the `statusCode` it was built from. |
| AuthContext.Reduce | contexts/AuthContext.tsx:28-69 | Every action keeps `isAuthenticated ⇔ session ≠ null`, and all but PROFILE_CREATED establish it and end loading. RESTORE_TOKEN installs the given session. LOGIN_SUCCESS installs the session built from the payload's user, carrying the access token, and authenticates. LOGOUT leaves no session. PROFILE_CREATED is a no-op without a session, and otherwise sets only `hasProfile`. |
| AuthContext.ProfileCreatedIdempotent | contexts/AuthContext.tsx:60-65 | PROFILE_CREATED twice equals PROFILE_CREATED once. |
| AuthContext.ReachableStatesConsistent | contexts/AuthContext.tsx:22-69 | Any action sequence from a consistent state (the initial one included) keeps `isAuthenticated` in step with the session. Once any action other than PROFILE_CREATED has run, `isLoading` stays false. PROFILE_CREATED alone never changes it. |
| AuthContext.LoadingStaysOff | contexts/AuthContext.tsx:28-69 | From a state that is not loading, no action sequence turns loading back on. |
| AuthContext.Restore | contexts/AuthContext.tsx:81-108 | With no stored token: no call, no session and the store untouched. With a stored token and a valid identity: a session carrying the token read before the call, and the store as the call left it. With a stored token the server rejects: both tokens deleted and no session. The dispatched action is always RESTORE_TOKEN. |
| AuthContext.RestoredTokenStaleAfterRefresh | contexts/AuthContext.tsx:83-100 | The restored session carries the stored access token exactly when `/auth/me` left that token in place. If the interceptor refreshed it during the call, the session carries the stale token. |
| AuthContext.RestoreEndsLoading | contexts/AuthContext.tsx:81-108 | After start-up the state is never loading and is consistent. A restored session carries exactly the stored access token. |
| ProfileContext.Reduce | contexts/ProfileContext.tsx:24-37 | START sets loading, clears the error and keeps the profile. SUCCESS replaces the profile, ends loading and keeps the error. ERROR ends loading, records the error and keeps the previous profile. UPDATE_PROFILE_IMAGE_SUCCESS replaces only the profile. |
| ProfileContext.Load | contexts/ProfileContext.tsx:50-63 | Nothing is dispatched unless the user is authenticated with `hasProfile`. Otherwise START is dispatched, then SUCCESS with the fetched profile or ERROR with the failure. |
| ProfileContext.ShouldLoad | contexts/ProfileContext.tsx:50-53 | Once start-up is over, the profile is fetched exactly when the gate shows the app home. |
| ProfileContext.LoadSettles | contexts/ProfileContext.tsx:50-61 | A load always ends not loading. On success it holds the fetched profile and no error; on failure it keeps the previous profile and holds the failure. |
| InternshipContext.DeriveStatus | contexts/InternshipContext.tsx:45-53 | NOT_REGISTERED exactly when there is no record. ASSIGNED exactly when a record and an assignment with a supervisor exist. Pending exactly when there is a record but no assignment or no supervisor. |
| InternshipContext.Reduce | contexts/InternshipContext.tsx:55-90 | What each action changes and keeps. LOAD_STATUS_SUCCESS and ASSIGNMENT_LOADED leave the status derived from record and assignment. REGISTRATION_SUCCESS forces pending. Every other action preserves a derived status. |
| InternshipContext.RegistrationSuccessDerivedExactly | contexts/InternshipContext.tsx:72-77 | After REGISTRATION_SUCCESS the status is derived exactly when a record arrived and the held assignment has no supervisor. |
| InternshipContext.RegistrationSuccessCanBreakDerivation | contexts/InternshipContext.tsx:72-77 | A concrete derived state with a supervised assignment, which REGISTRATION_SUCCESS turns into a non-derived pending one. |
| InternshipContext.DerivedWithoutRegistration | contexts/InternshipContext.tsx:55-90 | Any action sequence without REGISTRATION_SUCCESS keeps the status derived. |
| InternshipContext.Load | contexts/InternshipContext.tsx:103-119 | Nothing is dispatched unless the user is authenticated with `hasProfile`. Otherwise START is dispatched, then SUCCESS with both results, or ERROR carrying one of the failures. |
| InternshipContext.LoadSucceedsDerived | contexts/InternshipContext.tsx:104-112 | A successful load ends with the fetched record and assignment, a derived status, no error and loading over. |
| RootLayout.RouteFor | app/_layout.tsx:24-35 | No route exactly while loading. Welcome exactly when not authenticated. Create-profile exactly when authenticated without a session that has a profile. App home exactly when authenticated with one. So exactly one route is chosen when not loading. |
| RootLayout.ShowsSplash | app/_layout.tsx:35-42 | The splash screen is shown exactly when the gate picks no route, that is, while loading. |
| RootLayout.RoutesFollowSession | app/_layout.tsx:24-42 | In a consistent state, the app home implies a session with a profile, create-profile a session without one, and welcome no session. |
| RootLayout.ProfileCreationOpensHome | app/_layout.tsx:24-33 | After a login without a profile the gate shows create-profile. PROFILE_CREATED alone then moves it to the app home. |
| Services.IsNotFound | services/assignment.service.ts:9 | The 404 test on a rejection: only a rejection carrying `statusCode` 404 passes it. |
| Services.NotFoundExactlyServer404 | services/assignment.service.ts:9 | A rejection that went through the interceptor passes the 404 test exactly when the server answered 404; a raw rejection never passes it. |
| Services.GetMyAssignment | services/assignment.service.ts:4-18 | Success passes through. A rejection whose `statusCode` is 404 becomes the empty pending assignment. Any other rejection propagates unchanged, so a canonical 404 never escapes. |
| Services.GetMyAssumptionOfDuty | services/internship.service.ts:20-31 | Success gives the record. A canonical 404 gives "no record". Any other rejection propagates unchanged. |
| Services.NotFoundAssignmentNeverAssigned | services/assignment.service.ts:9-15 | The 404 default assignment has no supervisor, so it never yields ASSIGNED. |
| Services.RawNotFoundPropagates | services/assignment.service.ts:8-16 | A 404 that arrives as a raw error (no `statusCode` property) is not translated, in either service. |
| Services.CanonicalNotFoundMeansUnregistered | services/internship.service.ts:25-28 | A 404 parsed by the interceptor makes the record lookup report "no record", hence NOT_REGISTERED. |
| UseAuth.Login | hooks/useAuth.ts:19-35 | On success the access token is saved, and the refresh token only when the response has a non-empty one. LOGIN_SUCCESS is dispatched last, after the writes. On failure the hook itself writes and dispatches nothing, and the error is recorded and rethrown. `isSubmitting` ends false. |
| UseAuth.LoginStore | hooks/useAuth.ts:22-31 | Starting from the store as POST /auth/login left it (the interceptor may have refreshed or deleted tokens during the call): after a success the store holds the new access token, the refresh token of that store survives a response without one, and exactly one LOGIN_SUCCESS is dispatched. After a failure the store is exactly as the call left it. |
| UseAuth.Logout | hooks/useAuth.ts:107-119 | LOGOUT is dispatched whether or not the server call fails. The hook has no other effects of its own, and it settles with no error. |
| UseAuth.LogoutWritesNoToken | hooks/useAuth.ts:107-119 | The hook itself deletes no token: after logout the store is exactly as POST /auth/logout left it, while the auth state ends with no session, not authenticated and not loading. |
| UseAuth.LogoutThroughInterceptor | services/apiClient.ts:56-102 | The logout call through the response interceptor: a failure other than a 401 leaves both tokens stored after logout; a 401 on an already retried call goes through the token teardown and leaves the store empty. |
| UseAuth.LogoutAfterRefreshKeepsNewToken | services/apiClient.ts:59-89 | Logging out with an expired access token and a stored refresh token: the call's 401 triggers a refresh, and after logout the store holds the fresh access token while the auth state holds no session. |
| UseAuth.PassThrough | hooks/useAuth.ts:37-105 | register, verifyOtp, resendOtp, forgotPassword and resetPassword have no store or dispatch effect. The outcome passes through, and a failure is recorded. |
| UseProfile.CreateProfile | hooks/useProfile.ts:14-40 | Declined: no call, no dispatch, hook state untouched. On success: LOAD_PROFILE_SUCCESS to the profile slice, then PROFILE_CREATED to auth. On failure: no dispatch, and the error is recorded and rethrown. `isSubmitting` ends false once confirmed. |
| UseProfile.UpdateProfileImage | hooks/useProfile.ts:42-56 | Success dispatches only UPDATE_PROFILE_IMAGE_SUCCESS, never to auth. Failure dispatches nothing and is recorded and rethrown. `isSubmitting` ends false. |
| UseProfile.Refetch | hooks/useProfile.ts:58-66 | START, then exactly one of SUCCESS with the profile or ERROR with the failure. |
| UseProfile.CreateProfileCompletesOnboarding | hooks/useProfile.ts:29-32 | A confirmed successful creation marks the session as having a profile without a new login, and it stays authenticated. |
| UseInternship.FetchActivePeriod | hooks/useInternship.ts:13-21 | Success dispatches SET_ACTIVE_PERIOD with the period and leaves the hook's error alone. Failure dispatches nothing, and is recorded and rethrown. `isSubmitting` is left as it was either way. |
| UseInternship.SubmitRegistration | hooks/useInternship.ts:23-47 | The request carries the caller's fields, the provider's coordinates and the snapshot's period id (`""` without an active period). It succeeds exactly when the submission succeeds, and REGISTRATION_SUCCESS with the record is then the last dispatch. Any failure records and rethrows the error, with no registration dispatch. The only other dispatch is the period fetched on the way. |
| UseInternship.StalePeriodId | hooks/useInternship.ts:29-37 | Started without a loaded period, the call fetches and stores one, yet sends an empty period id. |
| UseInternship.RefreshAssignment | hooks/useInternship.ts:49-57 | ASSIGNMENT_LOADED is dispatched with the translated assignment exactly when the lookup (after its 404 translation) succeeds. Otherwise nothing is dispatched and the error is recorded and rethrown. `isSubmitting` is left as it was either way. |
| UseInternship.RefreshAfterNotFoundIsPending | hooks/useInternship.ts:49-57 | For a registered student whose assignment lookup 404s, the status becomes pending and stays derived. |
| FormatUtils.FormatPhoneE164 | utils/format.utils.ts:5-11 | The result always starts with "+". Input already starting with "+" is returned unchanged. Other input gets "+" prefixed, exactly one character longer. |
| FormatUtils.FormatIdempotent | utils/format.utils.ts:5-11 | Formatting twice equals formatting once. |
| Validators.IsPhoneE164 | validators/profile.schemas.ts:18 | The anchored pattern `^\+\d{8,15}$`: a "+" followed by 8 to 15 decimal digits and nothing else, so an accepted number is 9 to 16 characters long. |
| Validators.MatchPhone | validators/internship.schemas.ts:5 | The character-by-character test accepts exactly "+" followed by 8 to 15 decimal digits and nothing else. |
| Validators.FormattedPhoneAccepted | validators/profile.schemas.ts:18 | A normalised number passes the phone pattern exactly when it already did, or when it is 8 to 15 bare digits. |
| Validators.FindShape | validators/profile.schemas.ts:17 | The unanchored search succeeds exactly when the fixed shape occurs at some position. |
| Validators.DateOfBirthUnanchored | validators/profile.schemas.ts:17 | An impossible date inside other text is accepted, and a string with one-digit month is rejected. |
| Validators.CommencementUnanchored | validators/internship.schemas.ts:11-14 | A date-time followed by an offset after the "Z" is still accepted. |
| Validators.RegisterValid | validators/auth.schemas.ts:3-13 | The registration schema: a well-formed address ending in "@ttu.edu.gh", a password of at least 8 characters, and non-empty names. |
| Validators.RegisterRequiresTtuAddress | validators/auth.schemas.ts:3-13 | For every form, a registration is accepted exactly when the address is well formed and is some local part followed by "@ttu.edu.gh", the password has at least 8 characters and both names are non-empty. |
| Validators.LoginValid | validators/auth.schemas.ts:15-18 | The login schema: a well-formed address and a non-empty password. |
| Validators.LoginNeedsPasswordOnly | validators/auth.schemas.ts:15-18 | For every well-formed address, the empty password is rejected, and any non-empty password with any well-formed address is accepted, whatever the domain. |
| Validators.OtpValid | validators/auth.schemas.ts:20-23 | The OTP schema: a well-formed address and a code of exactly 6 characters. |
| Validators.OtpDigitsNotChecked | validators/auth.schemas.ts:20-23 | For every code, the OTP form is accepted exactly when the address is well formed and the code has 6 characters; two codes of the same length always get the same verdict, and a non-digit code is accepted. |
| Validators.ProfileValid | validators/profile.schemas.ts:3-19 | The profile schema: five non-empty text fields, the three enumerations, a date somewhere in the date of birth, and an E.164 phone number. |
| Validators.AcceptedProfilePhoneIsNormal | validators/profile.schemas.ts:3-19 | An accepted profile's phone number is left unchanged by the normaliser and is 9 to 16 characters. |
| Validators.ProfileEnumsExact | validators/profile.schemas.ts:9-16 | In an otherwise accepted profile, a session is accepted exactly when it is "Regular", "Weekend" or "Evening", a certificate type exactly when it is "BACHELOR of TECHNOLOGY", "HND", "DIPLOMA" or "CERTIFICATE", and a gender exactly when it is "MALE", "FEMALE" or "OTHER". So a lower-case or re-cased spelling is rejected. |
| Validators.RegistrationValid | validators/internship.schemas.ts:3-15 | The assumption-of-duty schema: non-empty company name, address, supervisor and city, two E.164 phone numbers, a well-formed company address, and a date-time somewhere in the commencement date. |
| Validators.AcceptedRegistrationLengths | validators/internship.schemas.ts:3-15 | Both phone numbers of an accepted registration are 9 to 16 characters, and the commencement date is at least 20. |
| FormValidation.CollectErrors | hooks/useFormValidation.ts:14-19 | Every key in the error map comes from some issue with a non-empty path. |
| FormValidation.CollectErrorsLastWins | hooks/useFormValidation.ts:14-19 | The map holds exactly the joined paths of the issues with non-empty paths. Under each key is the message of the last such issue. |
| FormValidation.Validate | hooks/useFormValidation.ts:7-24 | True exactly on a successful parse, which empties the map. A schema error sets the collected map. Any other throw returns false and leaves the previous errors. |
| FormValidation.LaterIssueWins | hooks/useFormValidation.ts:15-19 | With two issues on one field and a form-level issue between them, the map holds only the field, with the later message. |
| FormValidation.NestedPathKey | hooks/useFormValidation.ts:17 | A nested path is joined with dots, with array indices in decimal. |
| Avatar.FirstChars | components/ui/Avatar.tsx:14-17 | At most one character per piece, and the first character of every non-empty piece appears. |
| Avatar.WordStarts | components/ui/Avatar.tsx:14-17 | The reference definition on the name itself, no longer than the name and never containing a space. |
| Avatar.SplitFirstChars | components/ui/Avatar.tsx:14-17 | Splitting on spaces and taking first characters gives exactly the word starts of the name. |
| Avatar.Initials | components/ui/Avatar.tsx:13-19 | An absent or empty name gives no initials. Otherwise there are at most as many initials as characters, and none is a space or a lower-case ASCII letter. |
| Avatar.InitialsAreWordStarts | components/ui/Avatar.tsx:13-19 | The initials are the upper-cased word starts, so repeated, leading and trailing spaces add nothing. |
| Avatar.InitialsExample | components/ui/Avatar.tsx:13-19 | "a  b " gives "AB". |
| Avatar.UpperCase | components/ui/Avatar.tsx:18 | Upper-casing keeps the length, leaves no lower-case ASCII letter, puts each letter's capital in its place and keeps every other character. |
| Avatar.UpperCaseIdempotent | components/ui/Avatar.tsx:18 | Upper-casing twice is upper-casing once, and upper-casing distributes over concatenation. |
| PasswordStrength.FillColour | components/ui/PasswordStrength.tsx:16-21 | Filled segments use the error colour exactly for score ≤ 1, warning exactly for 2, and success exactly for ≥ 3. |
| PasswordStrength.Row | components/ui/PasswordStrength.tsx:14-22 | Segment `i` is filled exactly when `i < score`. All filled segments share one colour, and unfilled ones use the border colour. |
| PasswordStrength.Segments | components/ui/PasswordStrength.tsx:11 | There are always four segments. |
| PasswordStrength.FilledRow | components/ui/PasswordStrength.tsx:11-22 | A row of `n` segments has `score` clamped to `0..n` filled. |
| PasswordStrength.FilledSegments | components/ui/PasswordStrength.tsx:11-15 | The meter shows `score` clamped to `0..4` filled segments. |
| OtpInput.InitialRowEmpty | components/forms/OtpInput.tsx:13-27 | A fresh row of `length` cells passes the cells' own checks and assembles to the empty code, and typing one digit into its first cell fires `onComplete` exactly when the row has one cell. |
| OtpInput.Assemble | components/forms/OtpInput.tsx:24-25 | With the empty separator, the joined code has exactly as many characters as the cells hold together, which is the length `onComplete` is gated on. |
| OtpInput.HandleChange | components/forms/OtpInput.tsx:15-28 | Text with a non-digit changes nothing and fires nothing. Otherwise only cell `idx` is overwritten, and the number of cells is kept. `onComplete` fires exactly when the joined cells are `length` long, with the joined string. Focus moves forward on non-empty input before the last cell, and back on empty input after the first. |
| OtpInput.AssembleSingles | components/forms/OtpInput.tsx:24-27 | With one-character cells, the joined code is as long as the row exactly when every cell is filled. |
| OtpInput.ClearingNeverCompletes | components/forms/OtpInput.tsx:21-27 | Clearing a cell of a one-character row never fires `onComplete`. |
| OtpInput.FillingLastCellCompletes | components/forms/OtpInput.tsx:15-27 | In a row of one-digit cells, typing a digit into a cell when every other cell is filled fires `onComplete`. |
| StatusBadge.PaletteFor | components/ui/StatusBadge.tsx:13-26 | NOT_REGISTERED gets the error palette, pending the warning palette, and assigned the success palette, each exactly. |
| StatusBadge.ReplaceAll | components/ui/StatusBadge.tsx:40 | Replacing every occurrence of a character keeps the length and leaves none of it (when the replacement differs). Each occurrence becomes the replacement in place, and every other character is kept. |
| StatusBadge.ReplaceAllRoundTrip | components/ui/StatusBadge.tsx:40 | When the replacement character does not occur in the text, replacing it back restores the text. |
| StatusBadge.Label | components/ui/StatusBadge.tsx:40 | The label is as long as the status name and contains no underscore. |
| StatusBadge.LabelRestoresName | components/ui/StatusBadge.tsx:40 | Turning the label's spaces back into underscores gives the status name. |
| StatusBadge.LabelsDistinct | components/ui/StatusBadge.tsx:40 | Different statuses get different labels. |
| RemoveBundleCompression.RunFacts | plugins/removeBundleCompression.js:11 | A greedy `\s*` or `.*` takes a run of characters of its class, stopped by the end of the text or by a character outside the class. |
| RemoveBundleCompression.LineBreak | plugins/removeBundleCompression.js:11 | `\r?\n` succeeds exactly where the text has `\n` or `\r\n`. |
| RemoveBundleCompression.TailStartReaches | plugins/removeBundleCompression.js:11 | Backtracking of the `\s*` after `=` stops at the longest split for which `.*\r?\n` succeeds. |
| RemoveBundleCompression.MatchAtSound | plugins/removeBundleCompression.js:11 | What the matcher finds at a position is a span of the pattern, cut into leading white space, name, white space, `=`, white space, rest of line and line break. |
| RemoveBundleCompression.MatchAtComplete | plugins/removeBundleCompression.js:11 | If the pattern can match at a position at all, the matcher finds a match there. Its `.*` starts no earlier than any other split, as backtracking priority demands. |
| RemoveBundleCompression.FindMatch | plugins/removeBundleCompression.js:10-13 | The match found is at or after the start position, and no match starts between the start position and it. |
| RemoveBundleCompression.Replace | plugins/removeBundleCompression.js:10-13 | The replacement never lengthens the text. |
| RemoveBundleCompression.FindMatchLeftmost | plugins/removeBundleCompression.js:10-13 | There is no match exactly when the pattern matches nowhere. Otherwise the replacement cuts out exactly the leftmost match and leaves the rest, and no match starts earlier. |
| RemoveBundleCompression.NoLineBreakUnchanged | plugins/removeBundleCompression.js:10-13 | Every match ends with a line feed, so text without one, including an unterminated final setting line, is unchanged. |
| RemoveBundleCompression.LeadingBreakTaken | plugins/removeBundleCompression.js:11 | For any setting name (not starting with `x`), removing `NAME=1` from the lines `x`, `NAME=1`, `y` gives "xy" as written, because the match starts at the preceding line break, and "x\ny" when the pattern is confined to the line. |
| RemoveBundleCompression.AsWrittenJoinsLines | plugins/removeBundleCompression.js:11 | As written, removing `enableBundleCompression=1` from between `x` and `y` gives "xy". |
| RemoveBundleCompression.OwnLineKeepsBreak | plugins/removeBundleCompression.js:11 | Confined to its line, the same removal gives "x\ny". |
| RemoveBundleCompression.OwnLineKeepsEarlierBreaks | plugins/removeBundleCompression.js:10-13 | Confined to its line, the removal cuts out the leftmost match, and no line terminator lies between the start of the removed span and the setting's name. |
| RemoveBundleCompression.Apply | plugins/removeBundleCompression.js:3-17 | The plugin with the pattern as written. Missing `modResults` or empty contents leave the config unchanged. Otherwise only the contents change and they never grow. |
| RemoveBundleCompression.ApplyChangesExactlyWithSetting | plugins/removeBundleCompression.js:5-15 | As written, the contents change exactly when some span of them has the pattern's shape, leading white space and line breaks included, and a change cuts out exactly one such span. |
| RemoveBundleCompression.ApplyJoinsLines | plugins/removeBundleCompression.js:5-15 | As written, a build file with `enableBundleCompression=1` between the lines `x` and `y` becomes "xy". |
| RemoveBundleCompression.ApplyOwnLine | plugins/removeBundleCompression.js:3-17 | The plugin with the pattern confined to the setting's own line. Missing `modResults` or empty contents leave the config unchanged. Otherwise only the contents change and they never grow. |
| RemoveBundleCompression.ApplyOwnLineKeepsLines | plugins/removeBundleCompression.js:5-15 | With the corrected pattern, the contents change exactly when some span has its shape. A change cuts out one such span, with no line terminator between the span's start and the setting's name, so the example file becomes "x\ny". |

## Left out

- The asynchrony of the interceptors beyond the events listed above. Interleavings are sequences of events, axios, HTTP and promises are abstract outcomes, and the check-and-set on the flag is atomic.
- ApiClient.OnRefreshSucceeded: the suspension on `await saveAccessToken(newToken)` is folded into the event. A 401 arriving during it still sees the flag set and is queued and replayed, as in the source; but a request-interceptor read of the store during it is not modelled.
- The request interceptor's own suspension on `getAccessToken()`: AttachToken reads the store in one step.
- The `if (config.headers)` guard in the request interceptor: axios always supplies headers, so the model always has a header map.
- Secure storage and the session JSON. The token store is two optional strings.
- Thin service wrappers (auth and profile services, multipart upload). `getActivePeriod` and `submitAssumptionOfDuty` translate nothing, so the hooks take their outcomes as `Result` parameters.
- Geolocation. Coordinates are opaque `real` values that are passed through unchanged.
- zod's `.email()` format check is a parameter `isEmail`. Lengths count characters, not UTF-16 code units.
- ErrorUtils.ParseApiError: JSON numbers are integers. A foreign error's `message` is modelled as an optional string, so non-string messages are left out.
- Avatar.UpperCase: only ASCII letters are upper-cased; the rest of Unicode case mapping is left out.
- PasswordStrength.FillColour: the score is an integer; a fractional score is left out.
- InternshipContext.Load: which of two failing lookups rejects `Promise.all` first is a parameter, since it depends on network timing.
- React rendering, hook scheduling, navigation side effects beyond the route choice, toasts, theme constants and every presentational component.

## Findings

| source | as written | input that shows it | evidently intended | confidence | as-written member | corrected member |
|---|---|---|---|---|---|---|
| plugins/removeBundleCompression.js:11 | The leading `\s*` also matches line terminators, so the leftmost match starts at the line break that ends the previous line. Removing it joins the previous line to the next one. | `"x\n" + "enableBundleCompression=1\ny"` becomes `"xy"` | Remove only the setting's own line, keeping earlier line breaks, giving `"x\ny"` | medium, not executed | RemoveBundleCompression.ApplyJoinsLines | RemoveBundleCompression.ApplyOwnLineKeepsLines |

The corrected pattern lets the leading white space exclude line terminators.
`RemoveBundleCompression.Apply` is the plugin as written and
`RemoveBundleCompression.ApplyOwnLine` the plugin with the corrected pattern.
`RemoveBundleCompression.LeadingBreakTaken` proves both behaviours for any
setting name.
