# lumen-learn-sphere: session, access and course rules in Dafny

This project models the rule-bearing core of the lumen-learn-sphere learning platform: a React
client and a Spring Boot backend. On the client side it covers:

- the authentication context: startup hydration from browser storage, login, signup, logout and the
  derived `isAuthenticated` flag;
- the route guard;
- the API client: URL and header shaping, bearer-token selection, and turning a reply into a value or
  an error message;
- the testimonials carousel index arithmetic;
- the course manager's role gate, form and list layout;
- the profile page's role badge.

On the backend it covers the authentication, course and enrollment controllers, the global
exception handler and the development data seeder. Repositories are maps inside one database
value (`Persistence.Db`).

Everything is functional. Each awaited backend call is one atomic step. Its network exchange is an
input value (`ApiClient.Transport`): no answer, or a reply with an `ok` flag, a status and a body
that may fail to parse. The API client model interprets that input, so the session transitions
compose with the client's own error shaping. Browser storage is a `map<string, string>`.

Backend collaborators the controllers only call are function parameters:

- the password encoder (`encode`);
- the authentication manager's verdict (`authenticate`);
- the JWT generator (`generateToken`);
- the `@Email` format check (`isEmail`);
- the current time (`now`).

Other backend conventions:

- `@PreAuthorize` role expressions become `requires` clauses on the caller's role.
- `orElseThrow()` becomes an `Outcome.Threw(NoSuchElement)`, which `GlobalExceptionHandler.Dispatch`
  turns into a response.
- Generated identity values come from counters kept in the database value.

One property of the code deserves mention. The session writes its token under the storage key
`token` (src/contexts/AuthContext.tsx:52, 83, 102). The API client reads the key `auth_token`
(src/services/api.ts:86, 149). So a login by itself never authorizes course creation or enrollment.
`AuthSession.LoginDoesNotAuthorizeApiClient` states this.

File layout, one module per file:

| file | module | models |
|---|---|---|
| wrappers.dfy | Wrappers | `Option`, `Result` |
| decimal.dfy | Decimal | decimal rendering of numbers in template strings |
| storage.dfy | Storage | browser storage and JavaScript truthiness of a stored string |
| dtos.dfy | Dtos | roles and the JSON shapes shared by client and server |
| api_client.dfy | ApiClient | src/services/api.ts |
| auth_session.dfy | AuthSession | src/contexts/AuthContext.tsx |
| protected_route.dfy | ProtectedRoute | src/components/auth/ProtectedRoute.tsx |
| testimonials.dfy | Testimonials | src/components/Testimonials.tsx |
| course_manager.dfy | CourseManager | src/components/backend/CourseManager.tsx |
| user_profile.dfy | UserProfile | src/components/user/UserProfile.tsx |
| http.dfy | Http | statuses, the response envelope, exceptions, principals |
| persistence.dfy | Persistence | entities, the database value and its well-formedness |
| exception_handler.dfy | GlobalExceptionHandler | GlobalExceptionHandler.java |
| auth_controller.dfy | AuthController | AuthController.java |
| course_controller.dfy | CourseController | CourseController.java |
| enrollment_controller.dfy | EnrollmentController | EnrollmentController.java |
| dev_data_loader.dfy | DevDataLoader | DevDataLoader.java |

## Model

| member | source | states |
|---|---|---|
| Decimal.ParsePrinted | src/services/api.ts:75 | the decimal text of a status number reads back as that number |
| Decimal.IntToStringInjective | src/services/api.ts:124 | distinct course ids render as distinct decimal texts |
| ApiClient.RequestUrl | src/services/api.ts:56 | the fetched URL is the base `http://localhost:8080/api` (line 1) followed by the endpoint, with nothing in between |
| ApiClient.RequestHeaders | src/services/api.ts:58-68 | the sent headers are the caller's headers plus `Content-Type`; a caller header overrides the JSON default of the same name |
| ApiClient.AuthHeaders | src/services/api.ts:85-88 | a non-empty explicit token wins, else the non-empty stored `auth_token`; the result is exactly one `Authorization: Bearer <t>` header, or empty exactly when neither source yields a non-empty token |
| ApiClient.Prepare | src/services/api.ts:52-68 | what goes to the network is the composed URL and the merged headers; method and body pass through unchanged |
| ApiClient.PublicCourseRequestsCarryNoAuthorization | src/services/api.ts:116-128 | the course list and single-course requests never carry an authorization header; a single course is fetched from `/courses/<id>` |
| ApiClient.CourseUrlsDistinct | src/services/api.ts:123-128 | different course ids are fetched from different URLs |
| ApiClient.ProtectedRequestsUseStoredToken | src/services/api.ts:130-145 | course creation and enrollment are authorized if and only if the stored `auth_token` is non-empty, and then with that token |
| ApiClient.EveryRequestIsJson | src/services/api.ts:90-145 | every endpoint method sends `Content-Type: application/json` |
| ApiClient.HttpErrorMessage | src/services/api.ts:74-76 | a failed reply's message is the body's message when it is non-empty; otherwise it is `HTTP error! status: ` followed by the status in decimal |
| ApiClient.StatusReadableFromMessage | src/services/api.ts:75 | without a body message, the status can be read back from the error message's suffix |
| ApiClient.Receive | src/services/api.ts:70-82 | success exactly for an `ok` reply with a parsable body. A network failure, an unparsable body (checked before the status) and a non-`ok` status each give their own error |
| ApiClient.Call | src/services/api.ts:91-137 | a successful endpoint call yields the envelope's `data`; a failure is exactly the request helper's error |
| ApiClient.OkReplyIgnoresSuccessFlag | src/services/api.ts:74-78 | an `ok` reply succeeds even when the envelope says `success: false` |
| ApiClient.GetToken | src/services/api.ts:153-155 | the token getter returns the `auth_token` slot, present exactly when the key is stored |
| ApiClient.IsAuthenticatedIffStoredToken | src/services/api.ts:148-150 | the client counts as authenticated exactly when `auth_token` holds a non-empty string, which is exactly when the storage-only auth headers are non-empty |
| AuthSession.AuthenticatedNeedsUserAndToken | src/contexts/AuthContext.tsx:112 | authenticated implies a user and a non-empty token; a missing user or token means not authenticated |
| AuthSession.Mount | src/contexts/AuthContext.tsx:45-48 | the provider starts with no user, no token, loading, and so not authenticated |
| AuthSession.StartupEffect | src/contexts/AuthContext.tsx:50-60 | a profile fetch is issued exactly when the stored `token` is non-empty; the token goes into memory first. Otherwise only loading ends. Storage and user are untouched |
| AuthSession.ProfileFetched | src/contexts/AuthContext.tsx:62-74 | a fetched profile becomes the user; any failure removes `token` from storage and clears the in-memory token; loading ends either way |
| AuthSession.Hydrate | src/contexts/AuthContext.tsx:45-74 | a complete startup ends not loading, having made at most one backend call |
| AuthSession.HydrateWithoutToken | src/contexts/AuthContext.tsx:52-59 | with no usable stored token, startup makes no call and ends with no user, no token, loading over and storage as it was |
| AuthSession.HydrationWindow | src/contexts/AuthContext.tsx:52-56 | with a stored token, the in-memory token is set while the user is still absent, so the session is not yet authenticated. The one call is the profile fetch bearing that token |
| AuthSession.HydrateFailure | src/contexts/AuthContext.tsx:62-74 | a failed profile fetch ends anonymous with the stored token removed |
| AuthSession.HydrateSuccess | src/contexts/AuthContext.tsx:62-74 | a successful profile fetch ends authenticated with the fetched user and the stored token |
| AuthSession.Login | src/contexts/AuthContext.tsx:76-87 | one login call. On success the returned token and user replace the in-memory ones and the token is stored under `token`. On failure the error is rethrown and state and storage are unchanged |
| AuthSession.Signup | src/contexts/AuthContext.tsx:89-97 | the signup call comes first. Its failure is rethrown with nothing changed. Its success continues as a login with the same e-mail and password, and the result is that login's |
| AuthSession.SignupLogsInOnlyAfterSuccess | src/contexts/AuthContext.tsx:89-97 | a login call is issued if and only if the signup call succeeded, and then with the signup credentials |
| AuthSession.Logout | src/contexts/AuthContext.tsx:99-103 | logout clears user and token, removes the stored `token` and leaves the session unauthenticated |
| AuthSession.LogoutIdempotent | src/contexts/AuthContext.tsx:99-103 | logging out twice equals logging out once |
| AuthSession.UseAuth | src/contexts/AuthContext.tsx:33-39 | outside a provider the hook fails with the "must be used within an AuthProvider" message; inside one it returns the provider's value |
| AuthSession.HydrateConsistent | src/contexts/AuthContext.tsx:45-74 | every completed startup leaves user and token present together, with the in-memory token equal to the stored one |
| AuthSession.PerformConsistent | src/contexts/AuthContext.tsx:76-103 | each login, signup or logout preserves that consistency |
| AuthSession.ReplayConsistent | src/contexts/AuthContext.tsx:76-103 | any sequence of logins, signups and logouts preserves that consistency |
| AuthSession.ConsistentAuthentication | src/contexts/AuthContext.tsx:112 | in a consistent session, being authenticated is holding a user with a non-empty token |
| AuthSession.LoginSurvivesReload | src/contexts/AuthContext.tsx:50-87 | the token a successful login stores is read back by a fresh startup; with a successful profile fetch the reload is authenticated with the same token |
| AuthSession.LoginDoesNotAuthorizeApiClient | src/contexts/AuthContext.tsx:76-87 | login writes `token`, never the `auth_token` slot the API client reads (src/services/api.ts:86). With that slot empty or holding an empty string, course creation and enrollment go out without an authorization header |
| ProtectedRoute.AdmitsIsEquality | src/components/auth/ProtectedRoute.tsx:33 | a required role is met by exactly that role; an administrator does not meet an instructor or student requirement |
| ProtectedRoute.Guard | src/components/auth/ProtectedRoute.tsx:16-58 | spinner while loading. Otherwise an unauthenticated session gets a replacing redirect to `/login` carrying the location. Access denied, naming the role and navigating to `/`, exactly when authenticated with a mismatched role. Children exactly when authenticated with no required role or a matching one |
| ProtectedRoute.AdminDeniedInstructorRoute | src/components/auth/ProtectedRoute.tsx:33-56 | an administrator is denied an instructor-only route |
| ProtectedRoute.GuardDuringStartup | src/components/auth/ProtectedRoute.tsx:16-25 | during startup with a stored token the guard shows the spinner, whatever the role requirement |
| Testimonials.JsRem | src/components/Testimonials.tsx:59-63 | JavaScript's remainder agrees with the mathematical one for non-negative dividends; for negative ones it is the truncated remainder `-((-a) % b)`, with the dividend's sign |
| Testimonials.JsRemIsTruncatedRemainder | src/components/Testimonials.tsx:59-63 | the `%` used by the carousel meets ECMAScript's definition of the remainder: it differs from the dividend by a multiple of the divisor, has the dividend's sign, and is smaller than the divisor in magnitude |
| Testimonials.Next | src/components/Testimonials.tsx:58-60 | next keeps the index in range, advances by one and wraps from the last slide to the first |
| Testimonials.Prev | src/components/Testimonials.tsx:62-64 | previous keeps the index in range, steps back by one and wraps from the first slide to the last |
| Testimonials.Tick | src/components/Testimonials.tsx:51-56 | a timer tick is the next move and is undone by previous |
| Testimonials.NextPrevInverse | src/components/Testimonials.tsx:58-64 | previous undoes next and next undoes previous |
| Testimonials.AdvanceIsShift | src/components/Testimonials.tsx:58-60 | k presses of next move k slides on, modulo the five slides |
| Testimonials.FullCycle | src/components/Testimonials.tsx:58-60 | five presses of next return to the starting slide |
| Testimonials.Dots | src/components/Testimonials.tsx:156-164 | five dots, each highlighted exactly when its index is the current slide |
| Testimonials.ExactlyOneDot | src/components/Testimonials.tsx:156-164 | for an index in range, exactly one dot is highlighted, the current one |
| Testimonials.Apply | src/components/Testimonials.tsx:51-68 | a dot click sets the index to the clicked one; every event keeps an in-range index in range when dots are the rendered ones |
| Testimonials.RunStaysInRange | src/components/Testimonials.tsx:51-68 | any sequence of ticks, button presses and rendered-dot clicks keeps the index on a slide |
| CourseManager.Gate | src/components/backend/CourseManager.tsx:112-126 | the manager is shown exactly to a present user who is not a student; no user is denied |
| CourseManager.ChangeField | src/components/backend/CourseManager.tsx:108-110 | an input change sets its own field and leaves the other two unchanged |
| CourseManager.SubmitStarted | src/components/backend/CourseManager.tsx:76-78 | the handler's first update sets `isCreating`, the flag the submit button reads (line 189), and changes nothing else |
| CourseManager.SubmitFinished | src/components/backend/CourseManager.tsx:93-105 | a finished submit empties the form, starts the course refetch and clears `isCreating`, the flag the submit button reads |
| CourseManager.CoursesLoaded | src/components/backend/CourseManager.tsx:52-63 | a refetch result replaces the list and ends loading, leaving form and creation flag |
| CourseManager.SubmitCycle | src/components/backend/CourseManager.tsx:76-110 | in the handler's order of state updates, `isCreating` is set and then cleared, and the typed form ends empty |
| CourseManager.RenderRows | src/components/backend/CourseManager.tsx:231-262 | one row per course, in order, with a separator after exactly the rows before the last |
| CourseManager.Render | src/components/backend/CourseManager.tsx:218-264 | loading first, then the empty notice, then the rows of a non-empty list |
| CourseManager.SeparatorsAllButLast | src/components/backend/CourseManager.tsx:260 | rows flagged everywhere but the last carry one separator fewer than there are rows |
| CourseManager.ListSeparators | src/components/backend/CourseManager.tsx:218-262 | a loaded non-empty list renders one row per course and exactly one separator fewer |
| UserProfile.RoleBadgeVariant | src/components/user/UserProfile.tsx:72-81 | `ADMIN` gets destructive, `INSTRUCTOR` default, and every other string secondary, each as an if-and-only-if |
| UserProfile.BadgeOfEachRole | src/components/user/UserProfile.tsx:72-81 | the three roles get three different badges: administrator destructive, instructor default, student secondary |
| UserProfile.Render | src/components/user/UserProfile.tsx:60-105 | nothing is rendered exactly when there is no user; a user's card shows their e-mail, role label and role badge with the current statistics |
| UserProfile.FirstRender | src/components/user/UserProfile.tsx:20-25 | before the statistics arrive the card shows zero counts and the loading placeholder |
| GlobalExceptionHandler.Handle | backend/src/main/java/com/example/backend/common/GlobalExceptionHandler.java:13-26 | bad credentials are 401 "Invalid credentials"; failed validation is 400 "Validation failed"; anything else is 500 "Server error"; never a 2xx status, always an error envelope with no data |
| GlobalExceptionHandler.StatusIdentifiesHandler | backend/src/main/java/com/example/backend/common/GlobalExceptionHandler.java:13-26 | the status identifies the handler: 401 exactly for bad credentials, 400 exactly for failed validation, 500 exactly for everything else |
| GlobalExceptionHandler.Dispatch | backend/src/main/java/com/example/backend/common/GlobalExceptionHandler.java:10-27 | a returned response passes through; a thrown exception reaches the caller with the handler's status and error message, never as 2xx |
| AuthController.SignupRole | backend/src/main/java/com/example/backend/auth/AuthController.java:58 | no requested role gives student; otherwise the requested role, administrator included |
| AuthController.ToUserDto | backend/src/main/java/com/example/backend/auth/AuthController.java:63-72 | the reported user carries id, e-mail, names, role and creation time of the stored one |
| AuthController.Signup | backend/src/main/java/com/example/backend/auth/AuthController.java:48-61 | invalid input throws before anything else. A used e-mail is 400 "Email already in use" with the store unchanged. Otherwise exactly one user is added under that e-mail, with the encoded password, the names and the defaulted role, and the response is "Signup successful" without data. Only the user table and the user-id counter, which advances by one, change. Well-formedness is kept |
| AuthController.SignupAddsOneUser | backend/src/main/java/com/example/backend/auth/AuthController.java:53-59 | a successful signup grows the user table by exactly one |
| AuthController.Login | backend/src/main/java/com/example/backend/auth/AuthController.java:33-46 | invalid input and rejected credentials throw before any token exists. An unknown e-mail throws. Otherwise the response pairs the token for the request e-mail with that e-mail's user |
| AuthController.RejectedLoginIsUnauthorized | backend/src/main/java/com/example/backend/auth/AuthController.java:35-37 | rejected credentials reach the caller as 401 "Invalid credentials" |
| AuthController.LoginReportsRequestedUser | backend/src/main/java/com/example/backend/auth/AuthController.java:39-45 | a successful login reports the user whose e-mail was submitted, with the token generated for that e-mail |
| AuthController.SignupThenLogin | backend/src/main/java/com/example/backend/auth/AuthController.java:33-61 | after a successful signup, an accepted login with the same credentials reports the new user with its new id, names, role and creation time |
| CourseController.ToDto | backend/src/main/java/com/example/backend/course/CourseController.java:85-98 | the reported course carries its own fields, the instructor's id as `instructorId`, and the instructor's names |
| CourseController.GetAll | backend/src/main/java/com/example/backend/course/CourseController.java:30-34 | the listing is 200 with one DTO per stored course, in repository order, and every stored course appears |
| CourseController.GetOne | backend/src/main/java/com/example/backend/course/CourseController.java:36-41 | a stored id gives 200 with its DTO; a missing id gives 404 with no body |
| CourseController.Create | backend/src/main/java/com/example/backend/course/CourseController.java:49-60 | an unknown caller throws. Otherwise exactly one course is added under the next id, with the request's title, description and price and the caller as instructor, and its DTO is returned. Only the course table and the course-id counter, which advances by one, change |
| CourseController.Update | backend/src/main/java/com/example/backend/course/CourseController.java:62-73 | a missing id is 404 with nothing changed. Otherwise only title, description and price of that course change, while its id, instructor and creation time stay. Users, enrollments and the id counters are unchanged |
| CourseController.Delete | backend/src/main/java/com/example/backend/course/CourseController.java:75-83 | an existing id is removed with 204 and nothing else changes; a missing id is 404 with nothing changed |
| CourseController.CreateThenGetOne | backend/src/main/java/com/example/backend/course/CourseController.java:36-60 | what create returns is what a later lookup of the new id returns |
| CourseController.DeleteThenLookup | backend/src/main/java/com/example/backend/course/CourseController.java:75-83 | after a delete the id is not found, and a second delete is 404 |
| CourseController.AnyInstructorMayUpdate | backend/src/main/java/com/example/backend/course/CourseController.java:62-83 | there is no ownership check: any instructor updates or deletes a course taught by someone else |
| EnrollmentController.InstructorsMayNotEnroll | backend/src/main/java/com/example/backend/enrollment/EnrollmentController.java:33 | students and administrators may enroll; instructors may not |
| EnrollmentController.Enroll | backend/src/main/java/com/example/backend/enrollment/EnrollmentController.java:32-46 | an unknown caller or course throws with nothing stored. An existing pair is 400 "Already enrolled" with nothing changed. Otherwise exactly that pair is added under the next id, with "Enrolled". Uniqueness and well-formedness are kept |
| EnrollmentController.EnrollAddsOne | backend/src/main/java/com/example/backend/enrollment/EnrollmentController.java:41-45 | a successful enrollment grows the table by exactly one |
| EnrollmentController.EnrollTwiceRefused | backend/src/main/java/com/example/backend/enrollment/EnrollmentController.java:38-40 | enrolling the same caller in the same course again is refused and changes nothing |
| EnrollmentController.EnrollmentsStayUnique | backend/src/main/java/com/example/backend/enrollment/EnrollmentController.java:38-44 | after any sequence of enroll calls no (user, course) pair is stored twice |
| EnrollmentController.GetUserEnrollments | backend/src/main/java/com/example/backend/enrollment/EnrollmentController.java:48-53 | an unknown user throws; otherwise 200 with exactly the stored enrollments of that user |
| EnrollmentController.EnrollThenListed | backend/src/main/java/com/example/backend/enrollment/EnrollmentController.java:41-52 | an enrollment just stored is listed for its user and for no other user |
| DevDataLoader.SeedEmpty | backend/src/main/java/com/example/backend/dev/DevDataLoader.java:19-47 | on an empty user table: exactly the two demo users, with distinct e-mails and the roles instructor and student, plus two courses under fresh ids taught by that instructor. Existing courses and enrollments are unchanged; the user and course counters advance by two and the enrollment counter stays |
| DevDataLoader.SeedEmptyWellFormed | backend/src/main/java/com/example/backend/dev/DevDataLoader.java:18-47 | seeding a well-formed database keeps it well-formed |
| DevDataLoader.Seed | backend/src/main/java/com/example/backend/dev/DevDataLoader.java:17-48 | the seeder seeds exactly when the user table is empty and otherwise changes nothing; it keeps well-formedness |
| DevDataLoader.SeedCounts | backend/src/main/java/com/example/backend/dev/DevDataLoader.java:18-47 | on an empty well-formed database, seeding leaves exactly two users and two more courses |
| DevDataLoader.SeedIdempotent | backend/src/main/java/com/example/backend/dev/DevDataLoader.java:18 | running the seeder a second time, at any later time, changes nothing |

## Notes on the code

- Two storage keys hold the bearer token: the session writes `token`, while the API client reads `auth_token` (`AuthSession.LoginDoesNotAuthorizeApiClient`).
- The access-denied view embeds a replacing `<Navigate to="/">` (src/components/auth/ProtectedRoute.tsx:51). `ProtectedRoute.Guard` records it as the view's `home`.
- A caller with the wrong role fails the `@PreAuthorize` check (for instance backend/src/main/java/com/example/backend/course/CourseController.java:50). Under method security that raises an access-denied exception inside the controller call. The only handler that matches it is the catch-all one (backend/src/main/java/com/example/backend/common/GlobalExceptionHandler.java:23-25), so the client would see 500 "Server error" rather than 403, unless the security configuration translates it first. The security configuration is not part of this model, and the model states `@PreAuthorize` as a precondition instead.
- A failed profile fetch clears only the token (src/contexts/AuthContext.tsx:69-70). The user is still absent at that point of startup, so the session ends anonymous all the same (`AuthSession.HydrateFailure`).

## Left out

- Markup, styling, icons, toasts and console logging in every component: the model keeps only the decisions that pick what is shown.
- Timers: the 5-second carousel interval and the 1-second mock delays. A tick is an event (`Testimonials.TimerTick`), and a delayed mock result is a later transition.
- Concurrent interleavings of async calls, for example a logout landing while a login is in flight. Each awaited call is one atomic step.
- `fetch` and JSON serialization internals. A request keeps its body as structured data, and a reply's body is either a parsed envelope or unparsable.
- The course manager's mock course list (src/components/backend/CourseManager.tsx:50-63) and the profile page's mock statistics (src/components/user/UserProfile.tsx:34-42). `CourseManager.CoursesLoaded` takes any list as the refetch result, and the later statistics are not modelled.
- CourseManager.SubmitFinished: has no failure path. The `createCourse` call inside the `try` block is commented out, so nothing in that block can fail and the `catch` branch is unreachable.
- CourseManager.SubmitStarted: the state it describes is never rendered. `handleSubmit` has no `await`, so React batches `setIsCreating(true)` together with the later updates of the same handler, including `setIsCreating(false)` in `finally`. The disabled button and the "Creating Course..." label (lines 189-193) therefore never appear on screen. The model keeps the sequence of updates and does not model React's batching.
- CourseManager.ChangeField: takes one of the three form fields. The source's `handleInputChange` accepts any field name and would add an unknown key to the form object, but the page only ever passes the three names.
- `formatDate` locale formatting, and the profile page's logout button (it calls `AuthSession.Logout`).
- Password hashing, credential checking, JWT generation and the `@Email` format check are supplied functions. `@NotBlank` is modelled as "some character above the space character", that is, non-empty after trimming.
- `@PreAuthorize` role checks are `requires` clauses. The model does not describe what a caller with the wrong role receives, and Spring Security's access-denied handling is not part of this model.
- The course endpoints' `CourseRequest` has `@NotBlank`/`@NotNull` annotations, but the controller does not ask for `@Valid`, so no validation runs. The model therefore applies none.
- Database constraints other than the enrollment uniqueness rule are not modelled: foreign keys (for example deleting a course that has enrollments), column lengths and nullability.
- Identity generation is modelled as one counter per table. `Instant.now()` is an input value carrying its ISO text.
- Decimal.IntToString: prints every integer in plain decimal. JavaScript numbers are IEEE doubles, and a template literal prints magnitudes of 1e21 and above in exponent notation. Course ids and HTTP statuses are modelled as unbounded integers.
- ApiClient.CourseUrlsDistinct: is a statement about mathematical integers. Ids beyond 2^53 cannot be held exactly in a JavaScript number, so two distinct large ids may reach `getCourse` as the same value. The model does not bound ids to the safe-integer range.
- `Double` prices are carried as opaque `real` values with no arithmetic.
- ApiResponse.java is not part of this model. Its `ok(data)` overload is taken to produce a success envelope without a message.
- UserController.java (the profile lookup), the header and smooth-scroll components, and the purely presentational pages and sections are not part of this model.
