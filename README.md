# Appointment booking: a Dafny model

This project models the request-handling core of a small appointment-booking web
application. The application is built with Next.js and a hosted Postgres store with
an identity service. The model covers these parts:

- **Booking API** (`/api/appointments`):
  - recovers the caller's session token from the `Cookie` header and resolves it to a user;
  - lists the caller's upcoming appointments;
  - books a new appointment, after validating the body and checking that no
    `booked` appointment already starts at that instant.
- **Admin week API** (`/api/admin/calendar/week`):
  - admits only users whose profile role is `admin`;
  - validates `weekStart`/`weekEnd`;
  - returns every appointment whose start lies in the closed interval.
- **Route guard** (`middleware.ts`): lets public paths through and sends requests
  for protected paths without a session cookie to `/login`.
- **Register and login routes**: field validation, then the ladder that maps the
  identity service's and the profile table's outcomes to HTTP statuses.
- **Registration page**: the password-strength hint, and the submit handler's
  password-confirmation guard.
- **Admin calendar page**: the bounds of the current week, its seven days, and the
  per-day grouping and sorting of the fetched appointments.

The two API routes each carry an identical copy of `parseCookies` and
`extractAccessToken`. These are app/api/appointments/route.ts:13-48 and
app/api/admin/calendar/week/route.ts:8-43. Both route models use the one copy in module
`Cookies`.

Modules:

| module | file | models |
|---|---|---|
| `Wrappers`, `Http` | wrappers.dfy, http.dfy | `Option`/`Result`; a reply is `Fail(status, message)` or `Ok(status, payload)` |
| `Strings` | strings.dfy | JavaScript `trim`, `split`, `join`, `startsWith`, `endsWith` |
| `Ordering` | ordering.dfy | the store's filters, a stable ascending sort standing for its `order` (ties in table order), and the stable `Array.prototype.sort` |
| `Cookies` | cookies.dfy | `parseCookies` (an in-place accumulator, as a method with a loop) and `extractAccessToken` |
| `Appointments` | appointments.dfy | `getAuthenticatedUser`, GET, POST (a `Store` class whose `Post` method changes the table), PUT, DELETE |
| `AdminWeek` | admin_week.dfy | `requireAdmin`, `isValidIsoDate`, GET, and the 405 methods |
| `Middleware` | middleware.dfy | `isPublicPath`, `hasSupabaseSessionCookie`, `middleware` |
| `Register`, `Login` | register.dfy, login.dfy | the two auth routes |
| `RegisterPage` | register_page.dfy | `passwordStrength`; `handleSubmit` as a method on a form-state class |
| `AdminPage` | admin_page.dfy | `getCurrentWeekBounds` over a mutable `LocalDate` class; `weekDays`; `appointmentsByDay` as methods with loops |

How the outside world appears in the model:

- **Collaborators are parameters.** Everything the handlers call but do not define
  appears as a function-typed parameter. That covers `JSON.parse` of a cookie value,
  `new Date(s)`, `auth.getUser`, `signUp`, `signInWithPassword` and the profile
  lookups. Each is modelled by what the handler can observe of its result.
- **Store query outcomes.** For a store query, a boolean says whether it errs. The
  rows it works on are a sequence of `Appointment` records.
- **Instants.** Instants are integers, counting milliseconds since the epoch.
- **The double-booking query.** The source compares the stored `timestamptz` column
  with the raw `startsAt` string, and the insert stores `startsAt` normalised by
  `toISOString`. A `timestamptz` comparison casts the string to an instant first. The
  model therefore compares the parsed instant in both places.
- **Identifiers.** The store generates row identifiers. The model draws them from a
  counter `nextId` held by the store.

## Model

| member | source | states |
|---|---|---|
| Strings.Trim | app/api/appointments/route.ts:16-17 | the result is no longer than the input, and neither starts nor ends with a trimmable character |
| Strings.TrimIsInfix | app/api/appointments/route.ts:16-17 | the trim is the infix of the input between its leading and its trailing trimmable characters: only trimmable characters are removed, on either side |
| Strings.TrimIdempotent | app/api/appointments/route.ts:16-17 | trimming twice is trimming once, so a key that is trimmed again stays the same |
| Strings.Split | app/api/appointments/route.ts:15-16 | there is always at least one piece, and no piece contains the separator |
| Strings.SplitJoin | app/api/appointments/route.ts:16-18 | joining the pieces with the separator gives back the string |
| Strings.JoinSplit | app/api/appointments/route.ts:16-18 | separator-free pieces are recovered by splitting their join |
| Strings.SplitAtFirst | app/api/appointments/route.ts:16-18 | the first piece is the text before the first separator, and joining the rest gives exactly the text after it. Without a separator the string is the only piece |
| Ordering.FilterContents | app/api/appointments/route.ts:88-89 | the filter keeps exactly the elements satisfying the condition, each as often as in the input |
| Ordering.SortedFilterContents | app/api/appointments/route.ts:88-90 | filtering then sorting keeps exactly the qualifying elements, each as often as in the input |
| Ordering.FilterSnoc | app/admin/page.tsx:116-127 | filtering a sequence extended at its end extends the result by that element exactly when it qualifies |
| Ordering.SortBy | app/api/appointments/route.ts:90 | the result is sorted ascending by the key and is a permutation of the input |
| Ordering.SortSorted | app/admin/page.tsx:130-135 | sorting an already sorted sequence leaves it unchanged |
| Cookies.ParseCookies | app/api/appointments/route.ts:13-22 | the loop's dictionary equals `CookiesOf(header)`. That fold assigns the parts left to right, and an absent or empty header gives the empty dictionary |
| Cookies.CookiesOf | app/api/appointments/route.ts:13-14 | no header, or an empty one, gives the empty dictionary. The key order has no repeats and matches the dictionary's keys |
| Cookies.Assign | app/api/appointments/route.ts:19 | `acc[key] = value` updates exactly that key. A key already present keeps its place in the key order, and a new key goes last |
| Cookies.AssignWellFormed | app/api/appointments/route.ts:19 | the assignment keeps the key order free of repeats and in step with the keys |
| Cookies.AccumulateWellFormed | app/api/appointments/route.ts:15-20 | folding the parts left to right keeps the dictionary well formed |
| Cookies.PartShape | app/api/appointments/route.ts:16-18 | with an `=`, the key is the trimmed text before the first `=` and the value is everything after it. Without one, the key is the whole trimmed part and the value is empty |
| Cookies.KeysTrimmed | app/api/appointments/route.ts:17 | every key of the parsed dictionary equals its own trim |
| Cookies.KeysOfPairs | app/api/appointments/route.ts:15-20 | a name is a key exactly when some part of the header carries it |
| Cookies.LastOccurrenceWins | app/api/appointments/route.ts:19 | a repeated name takes the value of its last occurrence |
| Cookies.FindAuthCookie | app/api/appointments/route.ts:32-34 | a found name is a key and matches `sb-`…`-auth-token`. When nothing is found, no key matches |
| Cookies.FindFollowsHeaderOrder | app/api/appointments/route.ts:32-34 | `Object.keys(...).find` picks the matching name that comes first in the header |
| Cookies.ExtractAccessToken | app/api/appointments/route.ts:24-48 | a non-empty `sb-access-token` wins. Otherwise a token comes only from the first `sb-`…`-auth-token` cookie, and is that cookie's JSON value's first string; such a string is always returned. With neither cookie the result is null |
| Appointments.AuthenticatedUser | app/api/appointments/route.ts:50-67 | "Not authenticated" exactly when there is no usable token, and "Invalid session" exactly when the identity service yields no user for it. Otherwise the resolved user |
| Appointments.ListUpcoming | app/api/appointments/route.ts:69-100 | 401 with the auth message before any query, then 500 when the query errs. Otherwise 200 with the caller's rows at or after now |
| Appointments.OwnFrom | app/api/appointments/route.ts:85-90 | only and all rows owned by the caller with start ≥ now, with their multiplicities, ascending by start |
| Appointments.ValidateBooking | app/api/appointments/route.ts:119-142 | the three 400 checks, in order: a missing or unknown type, then a missing or empty `startsAt`, then an unparseable one. Otherwise the type and the parsed instant |
| Appointments.PostOutcome | app/api/appointments/route.ts:102-187 | 401 first, then the 400 ladder. After a valid request: 500 "Could not check availability." when the availability query errs. Then 409 "This time slot is already booked." exactly when a booked row exists at the instant, then 500 "Could not create appointment." when the insert errs, and 201 exactly when every check passes. A 201 appends exactly one booked row owned by the caller at that instant. Every other reply leaves the table unchanged. Statuses are 400, 401, 409 or 500 |
| Appointments.PostPreservesConsistency | app/api/appointments/route.ts:146-177 | one POST keeps the invariant: no two booked rows at one instant, and identifiers distinct |
| Appointments.RunPostsPreservesConsistency | app/api/appointments/route.ts:146-177 | any sequence of POSTs keeps that invariant |
| Appointments.SecondBookingConflicts | app/api/appointments/route.ts:161-166 | after a successful booking, a second valid booking at the same instant gets 409 and changes nothing |
| Appointments.CancelledDoesNotBlock | app/api/appointments/route.ts:147-152 | a cancelled row does not block its instant |
| Appointments.Store.Post | app/api/appointments/route.ts:102-187 | the method's reply and new table are those of `PostOutcome` on the old table, and the store invariant is preserved |
| Appointments.Put | app/api/appointments/route.ts:189-191 | always 405 "Method not allowed." |
| Appointments.Delete | app/api/appointments/route.ts:193-195 | always 405 "Method not allowed." |
| AdminWeek.RequireAdmin | app/api/admin/calendar/week/route.ts:45-75 | 401 without a usable token, and 401 when the identity service yields no user. 403 unless the profile lookup succeeds with role "admin". Admitted with the user id otherwise |
| AdminWeek.IsValidIsoDateAgreesWithBooking | app/api/admin/calendar/week/route.ts:77-81 | the week route's `isValidIsoDate` accepts exactly the `startsAt` values the booking route accepts (app/api/appointments/route.ts:129-142), and both read the same instant from an accepted value |
| AdminWeek.WeekCalendar | app/api/admin/calendar/week/route.ts:83-137 | the admin check comes first. Then 400 for a missing or unparseable bound, and 400 when start > end (equal bounds are accepted). Then 500 on a query error, else 200 with the rows in range |
| AdminWeek.RowsInRange | app/api/admin/calendar/week/route.ts:119-124 | only and all rows with start ≤ starts_at ≤ end, for any owner and any status, with their multiplicities, ascending |
| AdminWeek.NonAdminIgnoresParameters | app/api/admin/calendar/week/route.ts:88-105 | a non-admin gets the same 401/403 whatever the parameters or the table |
| AdminWeek.Post | app/api/admin/calendar/week/route.ts:139-147 | always 405 "Method not allowed." |
| AdminWeek.Put | app/api/admin/calendar/week/route.ts:149-157 | always 405 "Method not allowed." |
| AdminWeek.Delete | app/api/admin/calendar/week/route.ts:159-167 | always 405 "Method not allowed." |
| Middleware.Guard | middleware.ts:26-53 | exact public paths and public prefixes pass, and so do unprotected paths. A redirect happens exactly for a protected, non-public path without a session cookie, and a session cookie always lets the request through |
| Middleware.PublicPrefixExtends | middleware.ts:7-13 | `isPublicPath` holds for the three exact paths, and every extension of a path under a public prefix is public |
| Middleware.PublicPathEdges | middleware.ts:7-13 | the prefix test needs no segment boundary ("/api/authority" is public), while an exact path covers nothing under or beyond it ("/login/" and "/booking" are not public) |
| Middleware.SessionCookieMonotone | middleware.ts:15-24 | `hasSupabaseSessionCookie` is `some` over the cookies: false with no cookies, and once true it stays true when cookies are added on either side |
| Middleware.SessionCookieNamesAccepted | middleware.ts:19-21 | "sb-access-token", "supabase-auth-token" and even "sb-auth-token" are session names, since the pattern's two dashes may be one |
| Middleware.ProviderAuthTokenAccepted | middleware.ts:21 | every name of the shape `sb-<ref>-auth-token` is a session name, whatever the reference |
| Middleware.SessionCookieNamesRefused | middleware.ts:19-21 | "sb-refresh-token" and "supabase-session" are not session names |
| Middleware.PublicAndProtectedDisjoint | middleware.ts:4-12 | no public path has a protected prefix |
| Middleware.ProtectedNeedsSessionCookie | middleware.ts:15-24 | a protected path without a session cookie is redirected, and adding any cookie whose name is a session name lets it through |
| Register.Post | app/api/auth/register/route.ts:11-83 | 400 with no external call exactly when a trimmed field or the raw password is empty. A signUp error or a missing user gives 400, using the error's message when present. Then no profile insert is made and the only call is the signUp. A profile insert error gives 500, and any throw gives 500. Otherwise 201 with the new id and role "user". The inserted profile row carries the new id, the trimmed names and role "user" |
| Register.SignUpAndInsert | app/api/auth/register/route.ts:36-82 | the `try` block on its own. A throw on client creation gives 500 with no call. Otherwise there is exactly one signUp with the email and password. Unless it yields a user, that is the only call, answered by 400 with the error's message or "Registration failed.", or by 500 on a throw. With a user comes the profile insert with the new id, the names and role "user", followed by 201, by 500 "Profile creation failed." or by 500 on a throw |
| Register.SurroundingWhitespaceIgnored | app/api/auth/register/route.ts:21-24 | a body behaves exactly as the one with its email and names already trimmed: same calls, same reply. The password is left as sent |
| Register.Get | app/api/auth/register/route.ts:85-96 | always 405 "Method not allowed." |
| Login.Post | app/api/auth/login/route.ts:19-80 | 400 with no external call exactly when the trimmed email or the password is empty. A sign-in error or a missing user gives 401, and then no role lookup is made. A role lookup error gives 500, a missing role gives 404, and any throw gives 500. Otherwise 200 with exactly the id and the role |
| Login.SignInAndFetchRole | app/api/auth/login/route.ts:33-79 | the `try` block on its own. A throw on client creation gives 500 with no call. Otherwise there is exactly one sign-in with the email and password. Unless it yields a user, that is the only call, answered by 401 with the error's message or "Invalid credentials.", or by 500 on a throw. With a user comes the role lookup for that id, followed by 500 on a lookup throw or error, 404 for a missing or empty role, and otherwise 200 with the id and the role |
| Login.SurroundingWhitespaceIgnored | app/api/auth/login/route.ts:23-24 | a body behaves exactly as the one with its email already trimmed: same calls, same reply. The password is left as sent |
| Login.LoggedInRoleNonEmpty | app/api/auth/login/route.ts:63-73 | a 200 never carries an empty role |
| Login.Get | app/api/auth/login/route.ts:82-84 | always 405 "Method not allowed." |
| RegisterPage.PasswordStrength | app/register/page.tsx:8-23 | each label holds exactly under its condition: "" for the empty password, "Zu kurz" for lengths 1–5, "Sehr stark" for length ≥ 10 with an ASCII letter, a digit and another character. "Solide" for length ≥ 6 with a letter and a digit but not very strong, and "Schwach" otherwise. Each label has its one colour |
| RegisterPage.UmlautIsSpecial | app/register/page.tsx:10-12 | for every password, an "ä" counts as a special character, so with ten characters, a letter and a digit it makes the password very strong. A password of umlauts alone has no letter and is never solid or very strong |
| RegisterPage.UmlautExamples | app/register/page.tsx:8-23 | three fixed passwords: ten characters with an "ä" are "Sehr stark", the same with a second digit instead are "Solide", and six umlauts are "Schwach" |
| RegisterPage.RegisterForm.Submit | app/register/page.tsx:38-76 | on a mismatch it sets the German mismatch error and sends no request. Otherwise it sends exactly one request with the form's fields and ends not loading. It goes to "/login" on success, shows the network error on a failed fetch, and otherwise shows `data.error` or the fixed text |
| RegisterPage.RegisterForm.constructor | app/register/page.tsx:28-34 | empty fields, no error, not loading, nothing sent |
| RegisterPage.JsonOf | app/api/auth/register/route.ts:26-82 | the route's JSON carries `success` exactly on an Ok reply, and never an `error` field |
| RegisterPage.SuccessExactlyOn201 | app/api/auth/register/route.ts:73-76 | on the route's own replies, `success` is sent exactly with status 201 |
| RegisterPage.FailedRegistrationShowsFixedText | app/register/page.tsx:70 | for every failed registration the page shows its fixed text rather than the route's reason |
| AdminPage.Weekday | app/admin/page.tsx:18 | `getDay()` lies in 0..6 |
| AdminPage.DiffToMonday | app/admin/page.tsx:19 | the offset lies in 0..6. It is 0 exactly for Monday and 6 exactly for Sunday, and stepping back by it reaches weekday 1 |
| AdminPage.MondayOf | app/admin/page.tsx:18-23 | the Monday on or before a day: at most six days earlier, with weekday 1 |
| AdminPage.LocalDate.SetHours | app/admin/page.tsx:22 | keeps the day (plus any roll-over) and sets the time of day |
| AdminPage.LocalDate.Copy | app/admin/page.tsx:21-25 | `new Date(other)` is a fresh date with the same day and time of day, and it is well formed when the original is |
| AdminPage.LocalDate.SetDate | app/admin/page.tsx:23 | sets the day, keeps the time of day, and keeps the date well formed |
| AdminPage.GetCurrentWeekBounds | app/admin/page.tsx:16-30 | Monday of the current week at 00:00:00.000, and the Sunday six days later at 23:59:59.999. Their weekdays are 1 and 0, they enclose today, and today is not changed |
| AdminPage.WeekEnclosesToday | app/admin/page.tsx:21-27 | the current instant lies between the bounds, which span seven days less one millisecond |
| AdminPage.WeekDays | app/admin/page.tsx:58-66 | seven consecutive days starting at Monday |
| AdminPage.WeekDaysRunMondayToSunday | app/admin/page.tsx:58-66 | the days run Monday to Sunday and none repeats |
| AdminPage.AppointmentsByDay | app/admin/page.tsx:109-138 | the map equals `ByDay`: one entry per week day, holding that day's appointments sorted by start |
| AdminPage.EmptyBuckets | app/admin/page.tsx:110-114 | exactly the week days as keys, each with an empty list |
| AdminPage.PushAll | app/admin/page.tsx:116-127 | each list holds exactly the appointments of its day, in fetch order. Other appointments are dropped and the keys are unchanged |
| AdminPage.SortAll | app/admin/page.tsx:130-135 | every list is replaced by its sorted version, and the keys are unchanged |
| AdminPage.ByDayContents | app/admin/page.tsx:109-138 | the keys are the week days. Every list is sorted, and an appointment is in a day's list exactly when it starts that day. One whose day is not in the week is in no list |
| AdminPage.BucketsTotalAtMostInput | app/admin/page.tsx:116-135 | for distinct week days, the list lengths sum to at most the number of appointments |

## Left out

- Appointments.ListUpcoming / AdminWeek.WeekCalendar: the model fixes an order for rows with equal `starts_at`, namely table order, through the stable `SortBy`. The store's `ORDER BY starts_at` does not promise any order among such ties. Two examples are a cancelled row and a booked row of one user at one instant, and two users' rows at one instant in the admin range. What the store does promise is proved separately: the result is sorted by start, and as a multiset it equals the filtered rows (`OwnFrom`, `RowsInRange`, `SortedFilterContents`).
- The login page (app/login/page.tsx:27) navigates only when the reply has a truthy `success`. The login route's 200 body is `{ id, role }` with no `success` field (app/api/auth/login/route.ts:70-73). As written, a successful login therefore shows "Anmeldung fehlgeschlagen." instead of navigating. The login page is not part of this model, and no modelled caller depends on the login reply's shape.
- The build-phase short-circuits (`NEXT_PHASE === "phase-production-build"`) in every handler and in the guard are build scaffolding. They are not modelled.
- The lazily created store clients are not modelled. That includes the environment-variable checks in lib/supabase/*.ts.
- The logout route is not modelled: it is a single sign-out call answered with 200, or with 500 on an error or a throw.
- The signup route (app/api/auth/signup/route.ts) is not modelled. It is a separate route. It checks presence on the untrimmed email and password, with 400 "Email und Passwort fehlen". It signs up without creating a profile, and it replies with `{ error }` bodies: 400 with the service's message, 500 "Signup failed" on a throw, and 200 with `success` and the user id otherwise. The registration page uses the register route instead.
- The cancel and delete routes under `[id]` are not modelled.
- The pages' rendering is not modelled. That covers the JSX, the login and booking pages, and the admin page's fetch effect with its `status`/`accessDenied` state.
- `JSON.parse`, `new Date(string)`, `toISOString` and `Date.getTime` are abstract parameters. Their parsing rules are not modelled.
- The admin page's mapping of an instant to its local day is an abstract parameter `dayOf: int -> int`. Local time zones, daylight saving time and locale formatting (`toLocaleDateString`, `toDateString` keys) are not modelled. A day key is a local day number.
- AdminPage.LocalDate.SetDate: `setDate` takes a day of the month. The model takes an absolute local day number, so moving across a month boundary needs no separate case. `LocalMs` assumes days of exactly 24 hours.
- The check-then-insert race between concurrent POSTs is not modelled. The invariant is proved for POSTs applied one after another.
- Appointments.PostOutcome: the double-booking query and the insert both use the parsed instant.
  - The source compares the column with the raw `startsAt` string.
  - The two agree when the store casts that string to the same instant as `new Date`.
- The availability query's error is one boolean, `checkFails`. The error `maybeSingle` raises when several booked rows share the instant is part of that boolean. While the no-double-booking invariant holds, there is never more than one such row. The insert's error is a second boolean, `insertFails`.
- Appointments.Store.Post: store-generated identifiers (UUIDs) are modelled by a counter. Column projections (`select("id, type, ...")`) are not modelled: a reply carries the whole row.
- Creating the store client in the appointments and week routes happens outside any `try`. A throw there escapes as the framework's own error, and that path is not modelled.
- Non-string JSON values in request bodies are not modelled.
  - For example, a numeric `email` would make `.trim()` throw outside the register route's `try`.
  - Body fields are modelled as optional strings.
- A JavaScript string is a sequence of UTF-16 code units, while a Dafny `string` is a sequence of Unicode scalar values. Lengths therefore differ for characters outside the Basic Multilingual Plane, which affects `passwordStrength`'s length checks.
- Cookies.CookieJar: `Object.keys` lists integer-like keys such as `"1"` first, in numeric order. The model keeps plain insertion order. The difference cannot change which `sb-`…`-auth-token` name is found, since no such name is integer-like. The special key `__proto__` is not modelled.
- The middleware's view of cookies is the list of cookie names that `request.cookies.getAll()` reports. How the framework parses that list is not modelled.
