# Feedback app routes: session cookie and route decisions

This project models the locally decided part of a small feedback application
built on React Router with a Directus backend. Users log in and file feedback
items on their dashboard; an administrator logs in through a role check and
then lists, re-statuses, adds and deletes items.

Every real decision — authentication, persistence, filtering — happens on the
remote server. The model therefore treats each remote call as an input: a
`Reply<T>` that is either `Ok(value)` or `Fail`, where `Fail` stands for the
exception the awaited call throws. Each loader or action is a function from
the request (Cookie header, form fields) and those replies to a `Handled`
value. That value holds the `Outcome` handed to the router (a 302 with
Location and an optional Set-Cookie, a JSON error with a status, a message
body, a plain object, or page data) and the `Call`s issued, in order, each
with the bearer token it carries. Properties such as "redirects before any
remote call", "the list is filtered on the id `/users/me` returned" and "the
role is never looked up" are statements about that call list.

Modules, one per source file plus two shared ones:

- `Base` (base.dfy): `Option`, `Reply`, and JavaScript truthiness of an optional string.
- `Http` (http.dfy): feedback records, form fields, user and role replies, calls, outcomes, the shared messages.
- `SessionCookie` (cookie.dfy): the `/directus_token=([^;]+)/` lookup and the login Set-Cookie value.
  The regular expression is modelled exactly. The engine tries start positions from left to right and takes the first position that has the name followed by a non-`;` character. The greedy `[^;]+` then takes the maximal run of non-`;` characters. The pattern is unanchored.
- `Dashboard` (dashboard.dfy), `Login` (login.dfy), `AdminLogin` (adminlogin.dfy), `TestLogin` (test_route.dfy): the loaders and actions of those routes.
- `Admin` (admin.dfy): the admin loader, and the page state as a class `AdminPage` with `feedbacks: seq<Feedback>`, `showAddForm` and the `newFeedback` draft, whose handler methods update it.
  A handler whose remote call throws leaves the state unchanged, because the `await` rejects before any setter runs.
- `TestLogin.DirectusClient` is the shared SDK client of app/utils/directus.ts, reduced to the bearer token that `setToken` installs. `TestLogin.Action` runs the action step by step on that client. It is proved equal to the pure `TestLogin.Decide`, whose calls carry the login token explicitly. That equality holds only because the token is installed before `readMe` and `readRole` are issued.

Behaviour of the routes worth knowing before reading the model:

- The role and permission denials of app/routes/adminlogin.tsx set no status. They give a 200 with a message body, not a 403 and not a redirect.
- Role lookup failures give the same 401 as bad credentials.
- app/routes/login.tsx sends every successful login to /dashboard. It does no role check.
- There is no single shared authorization gate. Each route has its own copy. `TestLogin.SameGateAsAdminLogin` proves that the two administrator logins decide alike when both credentials are present. Without them, app/routes/test.tsx refuses before any call, while app/routes/adminlogin.tsx still calls login.

## Model

| member | source | states |
|---|---|---|
| SessionCookie.RunEnd | app/routes/dashboard.tsx:21 | The greedy `[^;]+` run from a position ends at the end of the text or at the first `;`, and holds no `;` |
| SessionCookie.FirstMatch | app/routes/dashboard.tsx:21 | The leftmost start at or after a position where the name is followed by a non-`;` character; None exactly when there is none |
| SessionCookie.Match | app/routes/dashboard.tsx:21 | No token exactly when no position matches; a token found is non-empty and contains no `;` |
| SessionCookie.GetToken | app/routes/dashboard.tsx:19-23 | A missing or empty Cookie header gives no token; a non-empty header gives the regular-expression match |
| SessionCookie.TokenOrEmpty | app/routes/admin.tsx:25-28 | The admin loader's lookup on the header or "" gives the same token as the dashboard's guarded lookup |
| SessionCookie.TokenOptional | app/routes/adminlogin.tsx:14-15 | The login pages' `cookie?.match` lookup gives the same token as the dashboard's guarded lookup |
| SessionCookie.LookupsAgree | app/routes/admin.tsx:25-28 | The dashboard's guarded lookup, the admin loader's lookup on the header or "" and the login pages' `cookie?.match` lookup give the same token for every header |
| SessionCookie.MatchIsLeftmostRun | app/routes/dashboard.tsx:21 | The token is the maximal non-`;` run right after the leftmost name that is followed by a non-`;` character |
| SessionCookie.RoundTrip | app/routes/dashboard.tsx:21 | `directus_token=` + t + rest yields t when t is non-empty and `;`-free and rest is empty or starts with `;` |
| SessionCookie.UnanchoredMatch | app/routes/dashboard.tsx:21 | `xdirectus_token=a` yields `a`: the pattern is unanchored |
| SessionCookie.EmptyValueSkipped | app/routes/dashboard.tsx:21 | `directus_token=;directus_token=b` yields `b`: an empty first value does not match |
| SessionCookie.SetCookieValue | app/routes/login.tsx:26 | The Set-Cookie value starts with `directus_token=`, then the token, then `;`, then exactly `; Path=/; HttpOnly; SameSite=Lax` from that `;` on |
| SessionCookie.PairOfSetCookie | app/routes/login.tsx:26 | The name=value pair of the login Set-Cookie value is `directus_token=<token>` for a `;`-free token |
| SessionCookie.LoginCookieRoundTrip | app/routes/login.tsx:26 | The pair set at login, sent back and followed by nothing or `;…`, is read back as the token if and only if the token is non-empty and `;`-free |
| SessionCookie.FoundAmongOtherCookies | app/routes/dashboard.tsx:21 | The pair is still found after other cookies that do not contain the name and end in a separator |
| Dashboard.Loader | app/routes/dashboard.tsx:25-44 | Every redirect goes to /login; the result is a redirect or the feedback data; every call carries the extracted token |
| Dashboard.LoaderNeedsToken | app/routes/dashboard.tsx:26-27 | No token redirects to /login with no remote call |
| Dashboard.LoaderSucceedsIff | app/routes/dashboard.tsx:29-43 | Data is returned exactly when there is a token and both fetches succeed; it is the list fetch's data; the list is filtered on the user id from `/users/me` |
| Dashboard.Action | app/routes/dashboard.tsx:46-68 | At most one call, a create carrying the extracted token |
| Dashboard.ActionChecksTokenThenFields | app/routes/dashboard.tsx:47-56 | No token redirects to /login whatever the form holds; a missing or empty field answers 400 "All fields are required" with no call |
| Dashboard.ActionPostsFields | app/routes/dashboard.tsx:58-67 | Exactly `{title, description, category}` is posted; success redirects to /dashboard; failure answers 500 "Failed to add feedback" |
| Login.Action | app/routes/login.tsx:12-40 | The form values go to the one login call unchecked |
| Login.ActionOutcomes | app/routes/login.tsx:17-38 | Success redirects to /dashboard with exactly `directus_token=<token>; Path=/; HttpOnly; SameSite=Lax`, with no role check; failure answers 401 application/json with the failure message; a cookie is set if and only if login succeeds |
| Login.SessionSurvivesRoundTrip | app/routes/login.tsx:26 | The cookie set at login is recovered by the dashboard's lookup from the returned Cookie header when the token is non-empty and `;`-free |
| AdminLogin.Loader | app/routes/adminlogin.tsx:13-28 | The loader gives a 302 to /admin or renders the page |
| AdminLogin.LoaderRedirectsIffToken | app/routes/adminlogin.tsx:15-27 | 302 to /admin exactly when any token is present, unvalidated; otherwise null |
| AdminLogin.Action | app/routes/adminlogin.tsx:30-82 | Login is called first; every later call carries the login token |
| AdminLogin.ActionAdmitsIff | app/routes/adminlogin.tsx:36-68 | The 302 to /admin with the session cookie happens if and only if login and `/users/me` succeed, the role id is truthy, and the role lookup returns exactly "Administrator" |
| AdminLogin.MissingRoleSkipsLookup | app/routes/adminlogin.tsx:46-51 | A missing or empty role id answers "User role not found." and issues no role lookup |
| AdminLogin.RoleNameIsExact | app/routes/adminlogin.tsx:57-61 | Any role name other than exactly "Administrator", lower case included, answers the permission message |
| AdminLogin.ExceptionsAnswer401 | app/routes/adminlogin.tsx:71-81 | A failure of login, `/users/me` or the role lookup answers 401 application/json "Login failed. Check your credentials." |
| AdminLogin.DenialsSetNoCookie | app/routes/adminlogin.tsx:48-80 | No denial sets a cookie; every denial has success false; only the exception path sets a status |
| TestLogin.DirectusClient.constructor | app/utils/directus.ts:9-11 | The shared client starts without a token |
| TestLogin.DirectusClient.SetToken | app/routes/test.tsx:47 | `setToken` installs the given bearer token |
| TestLogin.Loader | app/routes/test.tsx:16-30 | The loader gives a 302 to /admin or renders the page |
| TestLogin.LoaderMatchesAdminLogin | app/routes/test.tsx:16-30 | The loader agrees with the administrator login page's loader on every header |
| TestLogin.Decide | app/routes/test.tsx:32-83 | A 302 or a plain object with success false; no call exactly when a credential is missing; every lookup carries the login token |
| TestLogin.Action | app/routes/test.tsx:44-75 | Run on the shared client, the action equals `Decide`; the client ends holding the login token once login succeeded, and is untouched otherwise |
| TestLogin.MissingCredentialsNoCall | app/routes/test.tsx:37-42 | A missing or empty email or password answers "Email or password missing." before any call |
| TestLogin.SameGateAsAdminLogin | app/routes/test.tsx:44-82 | With credentials present, it issues the same calls as the administrator login and admits the same logins with the same 302; denials are plain objects with the same message |
| TestLogin.RoleGate | app/routes/test.tsx:50-75 | A falsy role id answers "User role not found." with no role lookup; a name other than exactly "Administrator" is refused; "Administrator" gets the 302 with the cookie |
| TestLogin.ExceptionsAnswerPlain | app/routes/test.tsx:44-81 | With both credentials present, a failed login, `/users/me` or role lookup answers the plain `{success: false, "Login failed. Check your credentials."}` object |
| Admin.LoaderAsWritten | app/routes/admin.tsx:24-47 | As written: every request is redirected to /adminlogin, with one list fetch when there is a token and none otherwise |
| Admin.RedirectLoopAsWritten | app/routes/admin.tsx:34-46 | As written, every request with a token is sent to /adminlogin, whose loader sends it back to /admin |
| Admin.RedirectLoopExample | app/routes/admin.tsx:39-45 | The header `directus_token=abc` with a successful fetch shows the loop |
| Admin.Loader | app/routes/admin.tsx:24-47 | Every redirect goes to /adminlogin; otherwise the data carries the extracted token |
| Admin.LoaderOutcomes | app/routes/admin.tsx:25-46 | An absent header reads as no token; no token redirects before any call; a failed fetch redirects; success yields the token and the data, or [] when there is none |
| Admin.ExpiredSessionLoop | app/routes/admin.tsx:43-46 | With a token and a failed list fetch the loader redirects to /adminlogin, whose loader sends the token back to /admin |
| AdminLogin.ValidatedLoader | app/routes/adminlogin.tsx:17-18 | The loader with the token check: one `/users/me` call when a token is present, then a 302 to /admin or the login page |
| AdminLogin.ValidatedLoaderBreaksLoop | app/routes/adminlogin.tsx:17-25 | Only a token the backend accepts redirects to /admin; a rejected one gets the login page |
| Admin.Without | app/routes/admin.tsx:75 | The filtered list is no longer than the old one and holds no item with the deleted id |
| Admin.WithoutCounts | app/routes/admin.tsx:75 | Each item with another id is kept as often as before; items with the id are gone |
| Admin.WithoutConcat | app/routes/admin.tsx:75 | The filter works piece by piece, so kept items keep their relative order |
| Admin.WithoutAbsent | app/routes/admin.tsx:75 | Deleting an id no item carries leaves the list unchanged |
| Admin.DeleteRemovesExactly | app/routes/admin.tsx:75 | An item is kept if and only if it was there and has another id; deleting twice is deleting once |
| Admin.ShownStatus | app/routes/admin.tsx:133 | The shown status is never empty; it is the item's status when that is set and non-empty (the "pending" default is stated by `Admin.ShownStatusSelectable`) |
| Admin.ShownStatusSelectable | app/routes/admin.tsx:133-139 | An unset or empty status is shown as "pending"; the shown status is one of pending, in_progress, resolved, rejected exactly when the item's status is unset, empty or one of them |
| Admin.Logout | app/routes/admin.tsx:88-92 | Logout has three effects and the last navigates to /adminlogin |
| Admin.LogoutExpiresBothCookies | app/routes/admin.tsx:89-90 | It first writes the expiry of `admin_token`, then that of `directus_token` |
| Admin.ExpireCookie | app/routes/admin.tsx:89-90 | The `document.cookie` text is the cookie's name, `=`, an empty value, `;`, and ends in `Max-Age=0` |
| Admin.LogoutLeavesNoToken | app/routes/admin.tsx:90 | The `name=value` part of the text written for `directus_token` is `directus_token=`, in which the lookup finds no token |
| Admin.AdminPage.constructor | app/routes/admin.tsx:51-54 | The page starts with the loader's list, the form hidden and the draft empty |
| Admin.AdminPage.FetchFeedbacks | app/routes/admin.tsx:57-62 | The list is replaced wholesale by the fetched data, or [] when there is none; form state is untouched |
| Admin.AdminPage.HandleStatusUpdate | app/routes/admin.tsx:64-69 | A PATCH of the status, then a refetch that replaces the list only when both succeed |
| Admin.AdminPage.HandleDelete | app/routes/admin.tsx:71-76 | After a successful DELETE the list is the old one without that id; nothing else changes |
| Admin.AdminPage.HandleAdd | app/routes/admin.tsx:78-86 | The draft is posted; on success the returned item is appended at the end, the draft is reset to three empty strings and the form is hidden |
| Admin.AdminPage.ToggleAddForm | app/routes/admin.tsx:99 | The add button flips the form flag and changes nothing else |
| Admin.AdminPage.EditTitle | app/routes/admin.tsx:110 | Only the draft's title changes |
| Admin.AdminPage.EditDescription | app/routes/admin.tsx:112-113 | Only the draft's description changes |
| Admin.AdminPage.EditCategory | app/routes/admin.tsx:115-117 | Only the draft's category changes |

## Findings

| source | as written | input that shows it | evidently intended | confidence | as-written member | corrected member |
|---|---|---|---|---|---|---|
| app/routes/admin.tsx:39 | The success branch calls `json(...)`, which the file never imports. The call throws inside the `try`, and the `catch` redirects to /adminlogin. The /adminlogin loader sees the token and redirects back to /admin, a loop. | Cookie `directus_token=abc`, list fetch succeeds | Return the token and the fetched list, or [] when it has no data, to the page | medium, not executed | Admin.RedirectLoopExample | Admin.LoaderOutcomes |
| app/routes/adminlogin.tsx:17-25 | The loader redirects any present token to /admin without checking it. With an expired or revoked token the admin loader's fetch fails and redirects to /adminlogin (app/routes/admin.tsx:43-46), which sends it back: a loop until the cookie goes. | Cookie `directus_token=abc`, list fetch fails | Check the token first, as the comment at line 18 suggests, and render the login page for a rejected one | medium, not executed | Admin.ExpiredSessionLoop | AdminLogin.ValidatedLoaderBreaksLoop |

## Left out

- Remote I/O: the HTTP calls, the Directus SDK's `login`, `readMe`, `readRole` and `request`, and the server URLs. Each call is represented only by its reply, given as an input.
- The SDK client setup in app/utils/directus.ts: it reads an environment variable and builds a client. Only the token that `setToken` installs is modelled.
- The email and password schema of validator.ts and app/routes/test.tsx:11-14: it wraps an external validation library whose email rule is not part of this model.
- Rendering, JSX, hooks and the form library framing. Only the admin handlers' state transitions are modelled.
- Async sequencing and concurrency: every handler is one sequential step. Stale React closures over `feedbacks` are not modelled.
- Browser cookie semantics. Logout expires the cookies with `path=/admin`, while login set `directus_token` with `Path=/` and `HttpOnly`. A browser would likely keep that cookie, so logout may not end the session. The model states only the texts written.
- Error logging with `console.error`.
- Reading the request body: `await request.formData()` runs outside the `try` in every action (app/routes/dashboard.tsx:50, app/routes/login.tsx:13, app/routes/adminlogin.tsx:31, app/routes/test.tsx:33). A body that fails to parse makes the action reject. The model takes the form fields as given inputs and does not model that rejection.
- Reply shapes: a reply body with missing fields (a `null` user id, a missing `access_token`) is folded into `Fail` or kept as an opaque string.
- The default status of the `new Response(body)` answers: `Message` records that no status and no Content-Type were set explicitly. It does not model the Fetch defaults (200, text/plain).
