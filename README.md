# Secure To-Do App: a Dafny model of its session, to-do and API logic

The application is a to-do list with a React client and a Django REST
server. The client keeps two stores. The session store tracks whether the
user is signed in and whether a silent session check is running. The to-do
store holds the list, the active filter, a loading flag and the last error.
Pages sit on top of the stores: a route gate, the dashboard and the sign-up
form. The client talks to the server through small API helpers. Each
state-changing authentication call carries the `csrftoken` cookie's value in
an `X-CSRFToken` header. The server's views register and sign users in,
keep JWT access and refresh tokens in http-only cookies, and serve each
user's to-dos. Two middlewares run around every request. One turns the
`access` cookie into the request's user and a bearer header. The other
writes eight fixed security headers on every response.

Modelling choices:

- **Classes and methods.** The stores, the pages' local state, the server's
  tables, the request and response objects and the middlewares are classes.
  Their actions are methods whose `ensures` give the whole new state.
- **Pure parts are functions.** The rules the actions follow are ordinary
  functions, with lemmas about them: the cookie lookup, trimming, filtering,
  ordering, the response a view chooses, and the header map update.
- **Outside results are parameters.** Each remote call is represented by
  its outcome, passed in. So are the verdicts of the authentication
  backend, the JWT library, the password validators and the serializer, and
  the clock.
- **Timestamps.** Times are abstract integer keys: a larger key means a
  later time.
- **JavaScript's `Array.prototype.sort` and `order_by('-created_at')`.**
  Both are the same stable insertion sort by decreasing key.
- **Cookie string.** A browser's `document.cookie` is modelled as the
  string "k1=v1; k2=v2".
- **Routes.** The server's URL table is modelled as the function from a
  path to the view it reaches, with the verbs each view's `@api_view` list
  admits. The table is taken as mounted under `/auth/`, the prefix every
  client path uses. Every client request is checked against it.
- **The `error` field.** An error reply's `error` is a string or, after a
  failed password validation, a list of messages. The client's type
  annotations say string, but nothing converts the list at run time. So
  the model carries both forms through the stores and the sign-up page,
  with JavaScript's truthiness: an array, even an empty one, is truthy.

Some behaviour of the code is kept as written, and the model shows it:

- `ProtectedRoute` redirects a signed-out user to `/login`. The route table
  in `frontend/src/App.tsx` has no `/login` route. Its `/dashboard` route
  wraps `frontend/src/pages/dashboard.tsx`, not the
  `frontend/src/pages/routes/Dashboard.tsx` page modelled here.
- `checkAuth` and `fetchCSRFToken` are defined in the session store, but
  neither `main.tsx` nor `App.tsx` calls them.
- `handleAddTodo` does not wait for `addTodo`. It shows "Todo added
  successfully!" even when creating the item fails.
- The sign-up page posts to `/auth/register/` directly. It does not call
  the session store's `registerUser`.
- The sign-up page posts through the bare axios instance, so its request
  (`Signup.SignupRequest`) carries no `X-CSRFToken` header. The register
  view is wrapped in `csrf_protect`, which would plausibly refuse such a
  request with an HTML 403 page. That page has no `error` field, so the
  page would show "Registration failed.". This is not modelled on the
  server side, because the CSRF decorators are left out.
- The register view checks whether the email is taken before `create_user`
  normalises it. So "bob@Example.com" registers even when "bob@example.com"
  is stored, and both rows then hold "bob@example.com". A login with either
  spelling of the address then either meets no user (the typed capitals do
  not match) or meets two users, which is a server error
  (`Views.MixedCaseEmailRegistersTwice`, `Views.MixedCaseEmailLoginFails`).
- When password validation fails, the server's register view sends `error`
  as a list of messages, although both client handlers type `error` as a
  string. The session store then records the list and rejects with the
  messages joined by ",". The sign-up page hands the list itself to its
  snackbar (`Interop.RegisterPasswordRejectionShown`).

## Model

| member | source | states |
|---|---|---|
| Cookies.Find | frontend/src/api/authentication.ts:6 | the search for `(^| )name=([^;]+)` over a suffix: a value it returns is non-empty and free of ';' |
| Cookies.GetCookie | frontend/src/api/authentication.ts:5-8 | `getCookie` returns either nothing or a non-empty raw value without ';' |
| Cookies.FindLeftmost | frontend/src/api/authentication.ts:6 | the suffix search returns the value of the leftmost eligible match, and nothing exactly when no eligible position matches |
| Cookies.GetCookieLeftmost | frontend/src/api/authentication.ts:5-8 | `getCookie` returns the value at the leftmost place where `name=` plus a value starts the string or follows a space, and `undefined` exactly when there is none |
| Cookies.GetCookieSerialize | frontend/src/api/authentication.ts:5-8 | round trip: in "k1=v1; k2=v2" built from recoverable pairs, the lookup gives the first pair's value for that key, or nothing; recoverable values hold no '%', so `decodeURIComponent` returns them unchanged |
| Cookies.NoSpaceOnlyStart | frontend/src/api/authentication.ts:6 | in a string without spaces, only a `name=` at the very start can match |
| Cookies.PrefixedNameNotMatched | frontend/src/api/authentication.ts:6 | "xcsrftoken=abc" holds no `csrftoken` value |
| Cookies.Token | frontend/src/api/authentication.ts:6 | `[^;]+` takes the longest ';'-free prefix, stopping at ';' or at the end |
| AuthApi.CsrfHeader | frontend/src/api/authentication.ts:26 | the header value is the `csrftoken` cookie's value when there is one, else "" |
| AuthApi.CsrfPriming | frontend/src/api/authentication.ts:12-14 | `fetchCSRFToken` GETs the route of the view that sets the CSRF cookie, with credentials and without a CSRF header |
| AuthApi.RefreshRequest | frontend/src/api/authentication.ts:22-29 | `refreshToken` POSTs an empty object to a path the server routes to the refresh view, which accepts POST |
| AuthApi.LoginRequest | frontend/src/api/authentication.ts:33-40 | `login` POSTs the credentials unchanged to a path the server routes to the login view |
| AuthApi.RegisterRequest | frontend/src/api/authentication.ts:44-51 | `register` POSTs username, email and password unchanged to a path the server routes to the register view |
| AuthApi.LogoutRequest | frontend/src/api/authentication.ts:55-62 | `logout` POSTs an empty object to a path the server routes to the logout view |
| AuthApi.StateChangingCallsCarryCsrf | frontend/src/api/authentication.ts:22-61 | refresh, login, register and logout are all POSTs with credentials that carry `X-CSRFToken` equal to the cookie's value or "" |
| AuthApi.CsrfHeaderFromJar | frontend/src/api/authentication.ts:26-37 | with a well-formed cookie jar (values without ' ', ';' or '%'), the header carries the first `csrftoken` pair's value, or "" |
| TodoApi.MapTodo | frontend/src/api/todo.ts:12-17 | `mapTodo` can be inverted: the wire record comes back from the client record it gives |
| TodoApi.MapTodoRoundTrip | frontend/src/api/todo.ts:12-17 | `mapTodo` copies id, text, completed and created_at field for field, and it can be inverted |
| TodoApi.MapTodos | frontend/src/api/todo.ts:23 | `response.data.map(mapTodo)` keeps the length and maps every element in place |
| TodoApi.FetchTodosRequest | frontend/src/api/todo.ts:20-21 | `fetchTodos` GETs a path the server routes to the list view, which accepts GET |
| TodoApi.CreateTodoRequest | frontend/src/api/todo.ts:27-30 | `createTodo` POSTs `{text}` with the text unchanged, to a path the list view answers for POST |
| TodoApi.TogglePath | frontend/src/api/todo.ts:34 | the toggle path is the id's decimal text between `/auth/todos/` and `/toggle/` |
| TodoApi.ToggleTodoRequest | frontend/src/api/todo.ts:33-35 | for an id that is not negative, the PATCH reaches the toggle view with that same id; a negative id reaches no view |
| TodoApi.ToggleRouteNotFixed | frontend/src/api/todo.ts:34 | a toggle path never equals one of the fixed paths of the URL table |
| TodoApi.ClearCompletedRequest | frontend/src/api/todo.ts:39-40 | `clearCompletedTodos` DELETEs a path the server routes to the clear view, which accepts DELETE |
| TodoApi.TogglePathRoutes | frontend/src/api/todo.ts:34 | the server recovers the client's id from `/auth/todos/${id}/toggle/`; a negative id matches no route |
| TodoApi.FetchTodos | frontend/src/api/todo.ts:20-24 | `fetchTodos` resolves to the mapped list when the call succeeds, and rethrows the same error when it fails |
| TodoApi.MapReply | frontend/src/api/todo.ts:27-36 | `createTodo` and `toggleTodoStatus` resolve to the mapped item, or rethrow the same error |
| AuthStore.LoginFailureMessage | frontend/src/store/useAuthenticationStore.ts:80-85 | the server's `error` is used only on a 401 and only when it is truthy (a non-empty string or any list); otherwise the message is "Login failed. Please try again."; the result is always truthy |
| AuthStore.RegisterFailureMessage | frontend/src/store/useAuthenticationStore.ts:99-106 | the server's truthy `error`, string or list, is used whatever the status; with no response the message is the fallback; the result is always truthy |
| AuthStore.AuthenticationStore.constructor | frontend/src/store/useAuthenticationStore.ts:59-63 | the store starts signed out, idle, with no error |
| AuthStore.AuthenticationStore.FetchCsrfToken | frontend/src/store/useAuthenticationStore.ts:65-71 | the action fulfils and changes nothing |
| AuthStore.AuthenticationStore.BeginLogin | frontend/src/store/useAuthenticationStore.ts:74 | login starts with `loading` set and `error` cleared |
| AuthStore.AuthenticationStore.CompleteLogin | frontend/src/store/useAuthenticationStore.ts:76-90 | success sets `authenticated`; failure records the message and keeps `authenticated`; `loading` ends false |
| AuthStore.AuthenticationStore.LoginUser | frontend/src/store/useAuthenticationStore.ts:73-91 | the whole action: it never rejects, `error` is "" after success, and an idle store stays idle |
| AuthStore.AuthenticationStore.BeginRegister | frontend/src/store/useAuthenticationStore.ts:94 | registration starts with `loading` set and `error` cleared |
| AuthStore.AuthenticationStore.CompleteRegister | frontend/src/store/useAuthenticationStore.ts:96-113 | failure records the message and rejects with that message; `authenticated` never changes |
| AuthStore.AuthenticationStore.RegisterUser | frontend/src/store/useAuthenticationStore.ts:93-114 | the whole action: a rejection's message is the string form of the recorded, truthy error (a list joined by ",") |
| AuthStore.AuthenticationStore.LogoutUser | frontend/src/store/useAuthenticationStore.ts:117-125 | the session ends locally whatever the server answers, and the action fulfils |
| AuthStore.AuthenticationStore.BeginCheckAuth | frontend/src/store/useAuthenticationStore.ts:128 | the probe raises `checkingAuth` |
| AuthStore.AuthenticationStore.CompleteCheckAuth | frontend/src/store/useAuthenticationStore.ts:129-137 | `authenticated` becomes whether the refresh succeeded; `checkingAuth` is cleared |
| AuthStore.AuthenticationStore.CheckAuth | frontend/src/store/useAuthenticationStore.ts:127-138 | the whole probe: it never rejects, leaves `error` and `loading` alone, and an idle store stays idle |
| AuthStore.AuthenticationStore.ClearError | frontend/src/store/useAuthenticationStore.ts:140 | `error` becomes "" |
| ProtectedRoute.Gate | frontend/src/pages/routes/ProtectedRoute.tsx:24-47 | the loading screen exactly while a check runs; the children exactly when signed in and not checking; otherwise a redirect to "/login" |
| ProtectedRoute.RenderAroundCheckAuth | frontend/src/pages/routes/ProtectedRoute.tsx:27-47 | during the probe the gate shows the loading screen; afterwards it shows the children on success and redirects on failure |
| ProtectedRoute.RenderAfterLogout | frontend/src/pages/routes/ProtectedRoute.tsx:47 | after logout, outside a check, the gate redirects to "/login" |
| TodoStore.FailureMessage | frontend/src/store/useTodoStore.ts:65 | an `Error`'s own message is used; anything else thrown gives the action's fallback |
| TodoStore.ReplaceById | frontend/src/store/useTodoStore.ts:86-88 | every item whose id equals the given id becomes the returned item; the others stay in place |
| TodoStore.ReplaceByIdOthersUnchanged | frontend/src/store/useTodoStore.ts:86-88 | items without that id are unchanged, and with no matching id the list is unchanged |
| TodoStore.ClearedList | frontend/src/store/useTodoStore.ts:101 | clearing keeps exactly the non-completed items, in order |
| TodoStore.FetchedList | frontend/src/store/useTodoStore.ts:62 | the stored list is ordered newest first and is a reordering of what was fetched |
| TodoStore.Store.constructor | frontend/src/store/useTodoStore.ts:52-56 | the store starts empty, with filter "all", not loading and no error |
| TodoStore.Store.BeginFetch | frontend/src/store/useTodoStore.ts:59 | a fetch starts with `loading` set and `error` cleared |
| TodoStore.Store.CompleteFetch | frontend/src/store/useTodoStore.ts:60-67 | success stores the fetched list newest first; failure keeps the list and records the message; `loading` ends false |
| TodoStore.Store.FetchTodosFromApi | frontend/src/store/useTodoStore.ts:58-68 | the whole fetch: on success `error` stays cleared |
| TodoStore.Store.AddTodo | frontend/src/store/useTodoStore.ts:70-80 | the created item is put first and the rest follow in order; failure keeps the list, records the message and clears `loading` |
| TodoStore.Store.ToggleTodo | frontend/src/store/useTodoStore.ts:82-95 | the list becomes `ReplaceById` with the returned item; failure keeps the list and records the message |
| TodoStore.Store.ClearCompleted | frontend/src/store/useTodoStore.ts:97-107 | the non-completed items stay, in order; failure keeps the list and records the message |
| TodoStore.Store.SetFilter | frontend/src/store/useTodoStore.ts:109 | the filter becomes the one chosen |
| Dashboard.FilteredTodos | frontend/src/pages/routes/Dashboard.tsx:73-77 | the visible list is a subsequence of the store's list |
| Dashboard.FilteredTodosExact | frontend/src/pages/routes/Dashboard.tsx:73-77 | "active" shows exactly the non-completed items, "completed" exactly the completed ones, and "all" the list unchanged |
| Dashboard.ItemsLeft | frontend/src/pages/routes/Dashboard.tsx:266 | the "item(s) left" count is the number of non-completed items in the whole list |
| Dashboard.ItemsLeftPartition | frontend/src/pages/routes/Dashboard.tsx:266 | the count equals the length of the "active" view, and together with the "completed" view it covers the list |
| Dashboard.ClickTarget | frontend/src/pages/routes/Dashboard.tsx:227 | a click toggles exactly when the item has an id other than 0, and it toggles that id |
| Dashboard.Capitalize | frontend/src/pages/routes/Dashboard.tsx:276 | the first letter is upper-cased and the rest is kept |
| Dashboard.FilterLabel | frontend/src/pages/routes/Dashboard.tsx:276 | a button's label lower-cases back to its filter's name |
| Dashboard.FilterLabels | frontend/src/pages/routes/Dashboard.tsx:268-276 | the three buttons read "All", "Active", "Completed" |
| Dashboard.DashboardView.constructor | frontend/src/pages/routes/Dashboard.tsx:25-27 | empty input, snackbar closed, no message |
| Dashboard.DashboardView.ShowSnackbar | frontend/src/pages/routes/Dashboard.tsx:45-48 | the snackbar opens with the given message |
| Dashboard.DashboardView.HandleAddTodo | frontend/src/pages/routes/Dashboard.tsx:50-56 | blank input (JavaScript whitespace only) does nothing; otherwise the trimmed text is added, the input is cleared and the success message shows; an added text is never blank and neither starts nor ends with whitespace |
| Dashboard.DashboardView.HandleToggle | frontend/src/pages/routes/Dashboard.tsx:58-61 | the store's toggle runs, then "Todo updated!" shows, on failure too; success replaces the item and keeps the store's `loading` and `error`; failure keeps the list, clears `loading` and records the toggle failure message |
| Dashboard.DashboardView.HandleClearCompleted | frontend/src/pages/routes/Dashboard.tsx:63-66 | the store's clear runs, then "Completed todos cleared!" shows, on failure too; success keeps the active items and the store's `loading` and `error`; failure keeps the list, clears `loading` and records the clear failure message |
| Dashboard.DashboardView.HandleCloseSnackbar | frontend/src/pages/routes/Dashboard.tsx:68-71 | the snackbar closes and its message is cleared |
| Signup.MissingField | frontend/src/pages/authentication/signup.tsx:40 | the guard holds exactly when one of the three inputs is the empty string, the only falsy string |
| Signup.SignupRequest | frontend/src/pages/authentication/signup.tsx:44-51 | the page's POST reaches the register view with the form unchanged, with credentials but no `X-CSRFToken` header |
| Signup.SignupFailureMessage | frontend/src/pages/authentication/signup.tsx:58-62 | the server's truthy `error`, string or list, whatever the status, else "Registration failed."; the result is always truthy |
| Signup.SignupPage.constructor | frontend/src/pages/authentication/signup.tsx:21-29 | empty inputs, snackbar closed, severity "success" |
| Signup.SignupPage.ShowSnackbar | frontend/src/pages/authentication/signup.tsx:72-76 | the snackbar opens with the given message and severity |
| Signup.SignupPage.ClearInputs | frontend/src/pages/authentication/signup.tsx:66-70 | all three inputs become "" |
| Signup.SignupPage.HandleRegister | frontend/src/pages/authentication/signup.tsx:37-64 | an empty field sends nothing and shows the fill-in error; otherwise the form `{username: name, email, password}` is sent as `SignupRequest`; success shows the success message and clears the inputs; failure shows the error and keeps the inputs |
| Signup.SignupPage.HandleCloseSnackbar | frontend/src/pages/authentication/signup.tsx:78-84 | a "clickaway" keeps the snackbar open; any other reason closes it |
| Validators.Validate | backend/auth_app/validators.py:18-26 | a refusal carries one of the four class messages; an accepted password has a special character |
| Validators.Search | backend/auth_app/validators.py:19-25 | `re.search` with a one-character class succeeds exactly when some character of the password is in that class |
| Validators.ValidateAcceptsIff | backend/auth_app/validators.py:18-26 | a password passes exactly when it has an ASCII upper-case letter, an ASCII lower-case letter, a digit and a listed special character |
| Validators.ValidateFirstMissing | backend/auth_app/validators.py:19-26 | the checks run upper, lower, digit, special, and the message raised is that of the first class missing |
| Validators.ValidateIgnoresUser | backend/auth_app/validators.py:18 | the verdict does not depend on `user` |
| Validators.SpecialClass | backend/auth_app/validators.py:25 | the special class is exactly the 32 listed punctuation characters |
| Views.TokenCookie | backend/auth_app/views.py:104-117 | token cookies are http-only, not secure, same-site Lax |
| Views.RegisterRejection | backend/auth_app/views.py:64-74 | a taken username is reported first, then a taken email, then the password validators' messages, each with 400; otherwise the user is created |
| Views.UsersWithEmail | backend/auth_app/views.py:97 | the lookup sees exactly the users with that email, and none exactly when the email is not registered |
| Views.Login | backend/auth_app/views.py:93-119 | an unknown email and a wrong password both get the same 401; several users with the email get a server error; success sets exactly the `access` and `refresh` cookies from the issued tokens |
| Views.LoginFailuresIndistinguishable | backend/auth_app/views.py:96-119 | an unknown email and a wrong password produce identical responses |
| Views.LoginSuccessCookies | backend/auth_app/views.py:101-118 | a successful login sets exactly the two token cookies, both http-only with same-site Lax |
| Views.Refresh | backend/auth_app/views.py:221-254 | no refresh cookie gives 400; an `InvalidToken` verdict gives 401; a `TokenError`, which the view does not catch, gives a server error; success sets `access`, and sets `refresh` exactly when a non-empty rotated token came back |
| Views.Serialize | backend/auth_app/serializers.py:6 | the serializer sends a row's id, text, completed and created_at |
| Views.SerializeAll | backend/auth_app/views.py:157-158 | the list serializer maps each row in order |
| Views.OwnedNewestFirst | backend/auth_app/views.py:156 | the list holds exactly the user's rows, as a multiset, ordered newest first |
| Views.ListTodos | backend/auth_app/views.py:155-158 | the GET branch answers 200 with the user's rows serialized newest first |
| Views.FindTodo | backend/auth_app/views.py:179 | the lookup finds the first row with that id and owner, and finds nothing exactly when there is none |
| Views.Toggled | backend/auth_app/views.py:183 | only the found row changes, and only its `completed`, which is negated |
| Views.ToggleTwice | backend/auth_app/views.py:178-185 | toggling the same item twice restores the table |
| Views.FindSame | backend/auth_app/views.py:179 | a change to `completed` alone does not change which row the lookup finds |
| Views.ClearKeepsExactly | backend/auth_app/views.py:197 | clearing keeps exactly the other users' rows and the user's incomplete rows, in order, and deletes as many rows as it reports |
| Views.FilterDistinctIds | backend/auth_app/views.py:197 | deleting rows keeps primary keys unique |
| Views.Database.RegisterUser | backend/auth_app/views.py:60-78 | a rejected request changes nothing; an accepted one with an empty username is a 500 and changes nothing; otherwise exactly one user is appended, with the given username and password and the normalised email, and the answer is 201 |
| Views.NormalizeEmail | backend/auth_app/views.py:76 | `create_user` strips the address and lower-cases what follows its last '@', keeping the rest; an address without '@' is kept as given |
| Views.NormalizeEmailIdempotent | backend/auth_app/views.py:76 | normalising a normalised address changes nothing |
| Views.NormalizeMixedCaseDomain | backend/auth_app/views.py:76 | "bob@Example.com" is stored as "bob@example.com" |
| Views.NormalizeLowerDomain | backend/auth_app/views.py:76 | "bob@example.com" is stored as given |
| Views.MixedCaseEmailRegistersTwice | backend/auth_app/views.py:67-97 | "bob@Example.com" passes the email check against a stored "bob@example.com", is stored as that same address, and login with it then meets two users: a server error |
| Views.MixedCaseEmailLoginFails | backend/auth_app/views.py:96-98 | a user stored as "bob@example.com", as "bob@Example.com" is stored, who logs in with the address as typed gets 401 |
| Views.NormalizeStripped | backend/auth_app/views.py:76 | for an address already stripped, normalising keeps everything up to its last '@' and lower-cases the rest |
| Views.Database.Logout | backend/auth_app/views.py:131-143 | the answer is always 200 "Logged out" deleting both cookies; only a non-empty refresh token that parses is blacklisted |
| Views.Database.CreateTodo | backend/auth_app/views.py:160-165 | invalid data, including a text that is blank once stripped, is a 400 with the complaints and changes nothing; otherwise one row owned by the user, with the stripped text, is appended and answered with 201 |
| Views.TodoErrors | backend/auth_app/views.py:161-162 | the serializer accepts exactly when the stripped text is not empty and no other field is at fault; a blank text is reported as "This field may not be blank." |
| Views.AcceptedTodoTextTrimmed | backend/auth_app/views.py:161-163 | an accepted text is stored non-empty, without whitespace at either end, and stripping it again changes nothing |
| Views.Database.ToggleTodo | backend/auth_app/views.py:178-185 | the table becomes `Toggled`; a missing or foreign id is a 404 that changes nothing; otherwise the answer is the updated row |
| Views.Database.ClearCompleted | backend/auth_app/views.py:197-198 | the user's completed rows are deleted, and the answer is 204 with their count |
| JwtMiddleware.HttpRequest.View | backend/app/middleware/jwt_cookie_auth.py:15 | the view of a request is its cookies, meta and user |
| JwtMiddleware.Downstream.Respond | backend/app/middleware/jwt_cookie_auth.py:28 | the next handler records the request it saw and answers |
| JwtMiddleware.Authenticated | backend/app/middleware/jwt_cookie_auth.py:16-27 | no or empty token changes nothing; a valid token for an existing user signs that user in and sets "Bearer " + token; any other token makes the user anonymous and leaves the headers alone |
| JwtMiddleware.SignedInCarriesBearer | backend/app/middleware/jwt_cookie_auth.py:19-24 | a user signed in by the middleware always comes with the unmodified token in the bearer header |
| JwtMiddleware.JwtAuthenticationMiddleware.Call | backend/app/middleware/jwt_cookie_auth.py:15-28 | the request becomes `Authenticated` of itself; the next handler is called exactly once, with the updated request; its answer is returned |
| SecurityHeaders.Lookup | backend/app/middleware/security_headers.py:22-30 | a header is found, whatever the case of its name, exactly when its lower-cased name is stored, and the stored value is returned |
| SecurityHeaders.SetHeader | backend/app/middleware/security_headers.py:23 | one assignment replaces the header of that name in any case and keeps every other header |
| SecurityHeaders.WithSecurityHeaders | backend/app/middleware/security_headers.py:22-31 | the middleware only adds or replaces headers; none is removed |
| SecurityHeaders.PolicyKeysDistinct | backend/app/middleware/security_headers.py:23-30 | no two of the eight names coincide, even ignoring case |
| SecurityHeaders.SecurityHeadersSet | backend/app/middleware/security_headers.py:23-30 | after the middleware each of the eight headers has its literal value, whatever was there before |
| SecurityHeaders.OtherHeadersUnchanged | backend/app/middleware/security_headers.py:22-31 | headers outside the eight are unchanged, present or absent |
| SecurityHeaders.SecurityHeadersIdempotent | backend/app/middleware/security_headers.py:22-31 | running the middleware twice gives the same headers as running it once |
| SecurityHeaders.HttpResponse.SetItem | backend/app/middleware/security_headers.py:23 | `response[name] = value` is `SetHeader` on the response's headers |
| SecurityHeaders.SecurityHeadersMiddleware.ProcessResponse | backend/app/middleware/security_headers.py:22-31 | the same response object comes back, with its headers `WithSecurityHeaders` of the old ones; the request is not consulted |
| Interop.ToOutcome | frontend/src/api/axios.ts:12-15 | a 2xx status resolves the client's call; any other rejects with the status and the body's `error`, a string or a list of messages |
| Interop.LoginRejectionShown | backend/auth_app/views.py:96-119 | a rejected login shows the user "Invalid username or password", for an unknown email and a wrong password alike |
| Interop.LoginSuccessResolves | backend/auth_app/views.py:101-118 | a successful login resolves the client's call |
| Interop.RegisterConflictShown | backend/auth_app/views.py:64-68 | a taken username or email is shown as sent, both by the store's registration and by the sign-up page |
| Interop.RegisterPasswordRejectionShown | backend/auth_app/views.py:71-74 | a refused password reaches the store as the validators' list, which it rejects with joined by ","; the sign-up page shows the same list |
| Interop.RefreshFailureRejects | backend/auth_app/views.py:222-230 | a refused refresh rejects the client's session check |
| Routes.Route | backend/auth_app/urls.py:4-13 | a routed path is one of the fixed paths, or a toggle path whose number is the view's `todo_id` |
| Routes.ClearPathNotToggle | backend/auth_app/urls.py:10-11 | `todos/clear_completed/` is not read by the toggle pattern |
| Seqs.Filter | backend/auth_app/views.py:197 | the filter keeps only elements that satisfy the predicate, and is no longer than its input |
| Seqs.FilterMultiset | frontend/src/store/useTodoStore.ts:101 | the filter keeps each satisfying element as often as the input has it, and no other element |
| Seqs.CountComplement | frontend/src/pages/routes/Dashboard.tsx:266 | the counts of a predicate and of its complement add up to the length |
| Ordering.SortDesc | frontend/src/store/useTodoStore.ts:62 | the sort returns a reordering of its input: same length, same multiset |
| Ordering.SortDescSorted | frontend/src/store/useTodoStore.ts:62 | the sort orders by decreasing key |
| Ordering.SortDescStable | frontend/src/store/useTodoStore.ts:62 | the sort is stable: items with equal keys keep their input order |
| Ordering.SortDescOfSorted | backend/auth_app/views.py:156 | an input that is already ordered comes back unchanged |
| Text.IntToString | frontend/src/api/todo.ts:34 | the id's text is all digits exactly when the id is not negative, and starts with '-' otherwise |
| Text.ParseNatToString | backend/auth_app/urls.py:10 | parsing the decimal text of a number gives the number back |
| Text.Trim | frontend/src/pages/routes/Dashboard.tsx:51 | `trim` never lengthens, and a non-empty result neither starts nor ends with whitespace |
| Text.TrimShape | frontend/src/pages/routes/Dashboard.tsx:51-52 | `trim` cuts off a whitespace-only prefix and suffix, and the result neither starts nor ends with whitespace |
| Text.TrimEmptyIff | frontend/src/pages/routes/Dashboard.tsx:51 | the trimmed text is empty exactly when the input is all whitespace |
| Text.Strip | backend/auth_app/views.py:161-162 | Python's `strip()` never lengthens, and a non-empty result neither starts nor ends with Python whitespace |
| Text.StripUnchanged | backend/auth_app/views.py:161-162 | text that neither starts nor ends with whitespace is its own `strip()` |
| Text.LastIndexOf | backend/auth_app/views.py:76 | the position of the last occurrence of a character, or none exactly when it does not occur |
| Text.TrimIdempotent | frontend/src/pages/routes/Dashboard.tsx:51-52 | trimming twice is trimming once |

## Left out

- Rendering, styling, navigation timers and the `console` logging are not modelled. The pages' state and handlers are.
- Concurrency is not modelled. Each client action runs to completion with the outcome of its remote call given. Interleavings of several asynchronous actions are not captured. Neither is the window between `handleAddTodo` returning and `addTodo` settling.
- `decodeURIComponent` in `getCookie` is not modelled. The model returns the raw cookie value. The round-trip lemmas cover only values without '%', which decoding leaves unchanged; a value with a percent escape is outside them.
- `Cookies.GetCookie`: the name is inserted into the regular expression unescaped. The model treats it as plain text. That is the same for `csrftoken`, the only name used.
- `Interop.ToOutcome`: a reply body that is not a JSON object, such as an HTML error page, is not modelled. Only the views' own bodies reach the client.
- How React renders a list of messages in the sign-up snackbar is not modelled. `Signup.SignupPage` keeps the value handed to `setSnackbarMessage`.
- The axios instance's base URL and other settings are not modelled. `frontend/src/api/axios.ts` configures the library, whose code is not part of this model.
- Date parsing of `created_at` is not modelled. Times are integer keys, and `TodoStore.FetchedList` orders by that key.
- Database ties are not modelled. `Views.OwnedNewestFirst` keeps table order among rows with equal times, where the database leaves that order open.
- These outside verdicts are parameters of the model:
  - `authenticate` and password hashing;
  - JWT issue, validation and decoding;
  - the refresh serializer's verdict;
  - the configured password validators' messages;
  - the to-do serializer's field errors;
  - the clock.
- `Validators.Validate` reads `\d` as ASCII digits, while Python's `\d` also accepts other Unicode decimal digits.
- The `ratelimit`, `csrf_protect`, `ensure_csrf_cookie` and `IsAuthenticated` decorators are not modelled. Views that need a user are given the signed-in user's id.
- `get_csrf_token` and `get_tokens_for_user` are not modelled. The first only answers a fixed message and the second is never called.
- Request fields missing from the body (`None` in the views) are not modelled. Fields are strings.
- In `Views.Refresh`, a refresh value that the serializer rejects as a malformed field, not as an invalid token, is left to the library. It is not modelled.
- Views.Refresh: which exception the JWT library raises for a bad or expired token is a parameter, because the library's code is not part of this model. The verdict `InvalidToken` gives the view's 401. The verdict `TokenFailure` stands for the token class's own `TokenError`. The overridden `post` does not catch it, so it gives a server error. Only the library's own `post` would convert it to `InvalidToken`.
- `Routes.Allowed`: the verbs the refresh view accepts come from the library's `TokenRefreshView`, which defines only `post`. The project-level URL table that mounts these routes under `/auth/` is not part of this model.
- `Views.Database.CreateTodo`: new rows start not completed, and the model does not read a `completed` value from the request body. `backend/auth_app/models.py` is not part of this model, so `text` is taken to be a required text field with the serializer's default options: stripped, and blank refused. Other complaints, such as a maximum length, are the parameter `fieldErrors`, and the errors are a flat list rather than a map from field name to messages.
- `Views.Database.RegisterUser`: the NFKC normalisation `create_user` applies to the username is not modelled; the username is stored as sent.
- `Views.NormalizeEmail`: the domain is lower-cased over ASCII letters only, while Python's `lower()` also changes other Unicode capitals.
- The blacklist check done when a refresh token is used is not modelled. It belongs to the JWT library.
