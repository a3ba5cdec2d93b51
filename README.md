# Social Calendar: a verified model of its sequential rules

Social Calendar is a Remix web application in which users sign up, log in,
verify their email, browse a month calendar and discover public events.
Most of it is page markup and calls into a hosted identity and record
backend. This project models, in Dafny, the parts that carry logic and
proves what they promise:

- **Session cookies** (`Session`): reading the auth token out of a
  `Cookie` header (split on `"; "`, then on `=`, percent-decoding, last
  duplicate wins), the `getSession` and `requireAuth` gates, and the two
  `Set-Cookie` lines that issue and clear the token. The cookie-jar side
  follows section 5.2 of RFC 6265 (the stored pair is the text before the
  first `;`). Issuing a token and then reading the jar gives the token
  back. Clearing it gives "no session".
- **Form actions** (`Forms`, `Http`, `Signup`, `Login`, `ForgotPassword`):
  the field-keyed `errors` records, the redirect and JSON responses, the
  classification of the sign-in reply, the password-strength score with
  its label, and the login page's client handler.
- **Email verification** (`VerifyEmail`): the server loader and the
  client effect over one `profiles` table. Both check the link, verify the
  token, then insert the profile only if it is missing. The model proves
  that ids stay unique, that the flow is idempotent, and that a failed
  insert still counts as success. When the loader has already spent the
  one-time token and the provider refuses the client's second exchange,
  the page shows the provider's error although the loader verified the
  user and created the profile.
- **Dashboard calendar** (`Calendar`): the month grid (leading blanks,
  then one cell per day with its events), the month navigation with
  year wrap-around, and the month and weekday name tables.
- **Discover page** (`Discover`): the category filter and the
  case-insensitive search over title, location and organizer.

Backend calls are inputs to the model:

- `getUser` is a function from token to reply.
- `signInWithPassword`, `verifyOtp` and the profile insert are reply
  datatypes, including a "throws" case.
- The profile `select` reads the modelled table.
- The wall clock and the date parts of `new Date()` are parameters.

`Text` holds the string operations the code relies on: JavaScript `split`
and its inverse `join`, ASCII `toLowerCase`, `includes`, and UTF-16
`length`.

## Model

| member | source | states |
|---|---|---|
| Text.IndexOf | app/utils/supabase.server.ts:34-35 | `indexOf`: a returned index is the first occurrence of the separator; `None` means it does not occur at all |
| Text.Split | app/utils/supabase.server.ts:34-35 | `split` always yields at least one piece |
| Text.JoinSplit | app/utils/supabase.server.ts:34-35 | joining the pieces of `split` with the same separator gives back the original string |
| Text.SplitPiecesFree | app/utils/supabase.server.ts:34-35 | with a one-character separator, no piece of `split` contains it |
| Text.SplitJoin | app/utils/supabase.server.ts:34-35 | splitting a join of parts that do not contain the separator's first character gives back those parts |
| Text.SplitSingle | app/utils/supabase.server.ts:35 | a string splits into itself alone exactly when the separator occurs nowhere in it |
| Text.FirstCharAbsent | app/utils/supabase.server.ts:35 | a string without the separator's first character has no occurrence of the separator |
| Text.IndexAfterPiece | app/utils/supabase.server.ts:35 | the first separator of `p + sep + rest` is right after `p` when `p` does not contain the separator's first character |
| Text.Lower | app/routes/dashboard.discover.tsx:77-81 | `toLowerCase` keeps the length, maps each character through ASCII lowercasing and leaves no upper-case letter |
| Text.LowerIdempotent | app/routes/dashboard.discover.tsx:77-81 | lowercasing twice is lowercasing once |
| Text.Utf16Length | app/routes/signup.tsx:27 | `password.length` counts UTF-16 units: between one and two per character, exactly one for characters in the Basic Multilingual Plane |
| Text.Utf16LengthAppend | app/routes/signup.tsx:54 | the UTF-16 length of a concatenation is the sum of the lengths |
| Forms.WithEntry | app/routes/signup.tsx:17-37 | one field's check adds at most its own key and leaves every other field's entry as it was |
| Forms.RequiredError | app/routes/login.tsx:21-27 | a presence-only check errs exactly when the value is missing, not a string, or empty, and then with the given message |
| Http.Response.Json | app/routes/forgot-password.tsx:22-26 | `json(data)` has status 200, that body and only the JSON content-type header |
| Http.Response.Redirect | app/routes/signup.tsx:45 | `redirect(url)` has status 302, no body and a single `Location` header |
| Http.Response.Append | app/utils/supabase.server.ts:61-64 | `headers.append` adds one line after the existing ones, which stay as they were |
| Http.ValuesOf | app/routes/login.tsx:49-52 | the values of the header lines with a given name are exactly those lines' values |
| Http.ValuesOfAppend | app/routes/login.tsx:49-52 | appending a header line adds its value at the end exactly when the name matches, so the values follow the lines in order and with repeats |
| Session.PercentDecode | app/utils/supabase.server.ts:36 | `decodeURIComponent` leaves a `%`-free string unchanged and never lengthens its input |
| Session.ParsePair | app/utils/supabase.server.ts:35-36 | a pair's name is its text before the first `=` and holds no `=` |
| Session.ParsePairs | app/utils/supabase.server.ts:34-37 | the pairs decode one by one, and the whole header fails exactly when one pair's decoding throws |
| Session.FromEntries | app/utils/supabase.server.ts:33-38 | `Object.fromEntries` has exactly the names that occur among the entries |
| Session.LastWins | app/utils/supabase.server.ts:33-38 | for a name that occurs more than once, the value kept is that of its last occurrence |
| Session.ParsePlainPair | app/utils/supabase.server.ts:35-36 | `name=value` with plain name and value parses back to that name and value |
| Session.ParsePairDropsTail | app/utils/supabase.server.ts:35 | text after a second `=` is dropped from the value |
| Session.ParsePairWithoutValue | app/utils/supabase.server.ts:35-36 | a pair without `=` gets the value `"undefined"` |
| Session.ParsePlainPairs | app/utils/supabase.server.ts:34-37 | a list of plain `name=value` texts parses back to exactly those pairs |
| Session.ParseCookieHeaderOfJar | app/utils/supabase.server.ts:33-38 | a `Cookie` header sent for a jar of plain cookies is non-empty and parses to that jar's entries |
| Session.JoinNonEmpty | app/utils/supabase.server.ts:30 | a header joined from a non-empty first pair is not empty |
| Session.TokenToVerify | app/utils/supabase.server.ts:29-41 | no or empty header gives no token; a token found is non-empty; a failure is only the `URIError` of a malformed escape |
| Session.GetSession | app/utils/supabase.server.ts:28-48 | no token gives null without asking the provider; a provider error or missing user gives null; otherwise the provider's user comes back unchanged; a decoding error propagates |
| Session.RequireAuth | app/utils/supabase.server.ts:51-57 | the handler proceeds exactly when `getSession` found a user (and with that user); it redirects to `/login` exactly when `getSession` gave null; a decoding failure propagates as the `URIError` ("URI malformed") |
| Session.SetAuthCookie | app/utils/supabase.server.ts:60-66 | appends exactly one `Set-Cookie: supabase_auth_token=<token>; Path=/; HttpOnly; SameSite=Lax; Max-Age=604800` line after the unchanged earlier headers and returns the same response |
| Session.ClearAuthCookie | app/utils/supabase.server.ts:69-75 | appends exactly one `Set-Cookie: supabase_auth_token=; Path=/; HttpOnly; SameSite=Lax; Max-Age=0` line after the unchanged earlier headers and returns the same response |
| Session.PairTexts | app/utils/supabase.server.ts:34-35 | the jar's pairs are rendered as `name=value`, one per cookie and in order |
| Session.PairTextsAppend | app/utils/supabase.server.ts:34 | a cookie added to the jar adds its `name=value` at the end |
| Session.StoredAuthCookie | app/utils/supabase.server.ts:60-75 | the pair a browser stores from the issuing line is `supabase_auth_token=<token>`; from the clearing line it is `supabase_auth_token=` |
| Session.AuthCookieNamePlain | app/utils/supabase.server.ts:40 | the cookie name contains no `;`, `=` or `%` |
| Session.TokenIsPlain | app/utils/supabase.server.ts:63 | a token over `[A-Za-z0-9._-]` contains no `;`, `=` or `%` |
| Session.JarResolves | app/utils/supabase.server.ts:33-40 | the parsed header of a plain jar is that jar's last-wins entries |
| Session.IssuedHeader | app/utils/supabase.server.ts:63 | after issuing, the jar's header ends with `supabase_auth_token=<token>` |
| Session.LastAuthCookieResolves | app/utils/supabase.server.ts:33-41 | the auth cookie stored last decides the token that is looked up |
| Session.IssueThenResolve | app/utils/supabase.server.ts:33-66 | round trip: after `setAuthCookie`, the next request's header yields exactly the issued token, and `getSession` returns the provider's user for it |
| Session.ClearThenResolve | app/utils/supabase.server.ts:33-75 | after `clearAuthCookie` (while the browser still holds the emptied cookie), no token is found and `getSession` returns null |
| Session.DroppedCookieResolves | app/utils/supabase.server.ts:29-41 | once the auth cookie is gone from the jar, `getSession` returns null whatever the provider would say |
| Signup.EmailError | app/routes/signup.tsx:19-23 | "Email is required" exactly when missing or empty, "Email is invalid" exactly when non-empty without `@`, no error exactly when it contains `@` |
| Signup.PasswordError | app/routes/signup.tsx:25-29 | "Password is required" exactly when missing or empty, the length message exactly when shorter than 8 UTF-16 units, no error exactly when 8 or longer |
| Signup.ValidateSignup | app/routes/signup.tsx:17-37 | the record has keys only among email, password, username and fullName; each holds exactly its own field's message; username and fullName err exactly when missing |
| Signup.SignupErrorsUnique | app/routes/signup.tsx:17-37 | the form values determine the error record completely |
| Signup.SignupErrorsEmpty | app/routes/signup.tsx:39 | the record is empty exactly when all four fields are valid |
| Signup.Action | app/routes/signup.tsx:10-46 | valid input redirects to `/login`; otherwise the response is JSON carrying the non-empty error record |
| Signup.CountTrue | app/routes/signup.tsx:53-57 | the score counts the criteria met: at most their number, 0 exactly when none holds, full exactly when all hold |
| Signup.CountFour | app/routes/signup.tsx:53-57 | the count of four criteria is the sum of the four one-point increments |
| Signup.CountTrueMonotone | app/routes/signup.tsx:54-57 | meeting more criteria never lowers the count |
| Signup.StrengthMonotone | app/routes/signup.tsx:54-57 | appending characters to a password never lowers its strength |
| Signup.SignupForm.constructor | app/routes/signup.tsx:50 | the strength starts at 0 |
| Signup.SignupForm.CheckPasswordStrength | app/routes/signup.tsx:52-59 | the stored strength is the number of criteria met (length at least 8, an upper-case letter, a digit, a character outside `[A-Za-z0-9]`), at most 4 |
| Signup.StrengthLabel | app/routes/signup.tsx:164-170 | 0, 1, 2, 3 and anything above map to "", "Weak", "Fair", "Good" and "Strong"; the caption is empty exactly for 0 |
| Signup.SignupForm.Label | app/routes/signup.tsx:164-170 | the shown caption is one of the five captions |
| ForgotPassword.ValidateEmail | app/routes/forgot-password.tsx:13-19 | the record has at most the key email, holding exactly the signup action's email error for the same input |
| ForgotPassword.Action | app/routes/forgot-password.tsx:9-27 | JSON status 200: `{ success: true }` when the email is valid, otherwise the record with just the email message |
| Login.ValidateLogin | app/routes/login.tsx:19-27 | only presence is checked: keys only among email and password, each erring exactly when missing or empty |
| Login.ClassifySignIn | app/routes/login.tsx:33-56 | authenticated exactly when the reply has a session (with its access token); a provider error gives its message, no session gives "Failed to sign in", a throw gives "An unexpected error occurred" |
| Login.Action | app/routes/login.tsx:13-57 | invalid input returns the record before the provider is asked; a rejection returns `{ errors: { form } }` with no cookie; success redirects to `/dashboard` with exactly one auth cookie for the session's token; `remember` plays no part |
| Login.LoginForm.constructor | app/routes/login.tsx:63-64 | not loading, no error, no navigation |
| Login.LoginForm.HandleClientSideLogin | app/routes/login.tsx:74-95 | an error shows its message and does not navigate; success navigates to `/dashboard`; a throw shows "An unexpected error occurred"; loading is off afterwards in every case |
| VerifyEmail.NewProfile | app/routes/auth.verify.tsx:44-54 | the new row has the user's id, the metadata's `username` and `full_name` and the user's email when present (`""` when missing), and `now` as its creation time |
| VerifyEmail.CountId | app/routes/auth.verify.tsx:36-40 | the number of rows with an id is zero exactly when no row has it |
| VerifyEmail.UniqueIdsCount | app/routes/auth.verify.tsx:36-43 | in a table with unique ids each id has at most one row |
| VerifyEmail.AppendNewId | app/routes/auth.verify.tsx:43-54 | inserting a row whose id is absent keeps ids unique and makes the id present |
| VerifyEmail.ProfileTable.constructor | app/routes/auth.verify.tsx:36-40 | a table starts from rows with unique ids |
| VerifyEmail.ProfileTable.Insert | app/routes/auth.verify.tsx:46-54 | an accepted insert appends the row and a rejected or throwing one changes nothing; ids stay unique |
| VerifyEmail.Load | app/routes/auth.verify.tsx:10-79 | the loader keeps ids unique and either leaves the table alone or appends exactly the verified user's new row, reporting `profileCreated: true` |
| VerifyEmail.Loader | app/routes/auth.verify.tsx:10-79 | the loader's payload and the table afterwards are those of `Load`; ids stay unique |
| VerifyEmail.LoadFailures | app/routes/auth.verify.tsx:15-78 | a bad link fails with "Invalid verification link" whatever the provider would answer; a provider error, missing user or throw fails with its message; none touches the table |
| VerifyEmail.LoadVerifiedUser | app/routes/auth.verify.tsx:35-78 | an existing profile gives `profileCreated: false` and no insert; an accepted insert appends exactly the new row and answers `{ success: true, profileCreated: true, user }` with no error; a failed insert still reports success with `profileCreated: false` and the insert's message; a thrown insert gives `{ success: false, error }` with the thrown message (or "An unexpected error occurred") and no new row |
| VerifyEmail.LoadTwice | app/routes/auth.verify.tsx:35-71 | once a run has left the user with a profile, a second run inserts nothing and reports success with `profileCreated: false`; the id has exactly one row |
| VerifyEmail.ClientRun | app/routes/auth.verify.tsx:88-165 | the effect never ends in 'verifying'; it ends in 'success' exactly when the link is valid, a user came back and no insert threw, so even a failed insert is a success; a row is appended exactly when the user had none and the insert was accepted; the message is the success text on success, else "Invalid verification link", the provider's message, "User not found" or the thrown error's message; ids stay unique |
| VerifyEmail.VerifyPage.constructor | app/routes/auth.verify.tsx:85-86 | the page starts as 'verifying' with an empty message |
| VerifyEmail.VerifyPage.RunVerification | app/routes/auth.verify.tsx:88-165 | the final status, message and table are those of `ClientRun`; ids stay unique |
| VerifyEmail.ServerThenClient | app/routes/auth.verify.tsx:35-151 | if the provider accepts the client's second exchange of the token with the same user, then after a successful loader run the client effect finds the profile, inserts nothing and ends in 'success'; the id has exactly one row |
| VerifyEmail.ServerThenClientTokenSpent | app/routes/auth.verify.tsx:35-110 | if the provider refuses the client's exchange because the loader spent the one-time token, the loader still reported success and left exactly one row for the user, but the page ends in 'error' with the provider's message and the table unchanged |
| Calendar.DaysInMonth | app/routes/dashboard._index.tsx:25-27 | the last day of the month is 28 to 31: 31 for the long months, 30 for April, June, September and November, 29 exactly in February of a Gregorian leap year |
| Calendar.EventsOn | app/routes/dashboard._index.tsx:42-45 | a day's events are the events with that month and day, in list order, each as often as in the list; the year is not compared |
| Calendar.GenerateCalendarDays | app/routes/dashboard._index.tsx:19-50 | over the event list it is given (the page passes its fixed mock list), the grid has first-weekday plus days-in-month cells: the leading cells are blank and not today, and the cell at first-weekday + d - 1 is day d, marked today exactly when d is today's date, with that day's events |
| Calendar.DayPosition | app/routes/dashboard._index.tsx:38-47 | every day of the month has its cell, at first-weekday + d - 1, with its events |
| Calendar.TodayExactlyOnce | app/routes/dashboard._index.tsx:41 | when today lies in the month, exactly one cell is marked today, and it is today's cell |
| Calendar.NextMonth | app/routes/dashboard._index.tsx:74-81 | the next state has a month in 0..11 and is exactly one month later counted as year × 12 + month |
| Calendar.PreviousMonth | app/routes/dashboard._index.tsx:65-72 | the previous state has a month in 0..11 and is exactly one month earlier counted as year × 12 + month |
| Calendar.MonthIndexInjective | app/routes/dashboard._index.tsx:65-81 | a month count determines the month and the year, so navigation has a single possible result |
| Calendar.NavigationInverse | app/routes/dashboard._index.tsx:65-81 | next then previous, and previous then next, restore the state |
| Calendar.CalendarView.constructor | app/routes/dashboard._index.tsx:60-62 | the view starts at the given month and year |
| Calendar.CalendarView.GoToPreviousMonth | app/routes/dashboard._index.tsx:65-72 | the state moves to the previous month, wrapping January to December of the year before |
| Calendar.CalendarView.GoToNextMonth | app/routes/dashboard._index.tsx:74-81 | the state moves to the next month, wrapping December to January of the year after |
| Calendar.CalendarView.MonthName | app/routes/dashboard._index.tsx:104 | the heading's month name is in bounds and is one of the twelve names |
| Calendar.NameTablesCover | app/routes/dashboard._index.tsx:52-57 | there are 12 month names and 7 weekday names, so every month navigation reaches has a name |
| Discover.FilteredEvents | app/routes/dashboard.discover.tsx:71-86 | the result is an order-preserving subsequence of the events, holding exactly the events that pass the category rule and, for a non-empty query, the search, each as often as in the input |
| Discover.AllWithoutQuery | app/routes/dashboard.discover.tsx:71-86 | category "all" with an empty query keeps every event |
| Discover.QueryRule | app/routes/dashboard.discover.tsx:72-83 | with a non-empty query, an event passes exactly when it is in the category and the lowercased query occurs in its lowercased title, location or organizer |
| Discover.CaseInsensitive | app/routes/dashboard.discover.tsx:76-83 | queries that differ only in letter case select the same events |
| Discover.FilterIdempotent | app/routes/dashboard.discover.tsx:71-86 | filtering the result again with the same selection changes nothing |

## Left out

- Session.PercentDecode: escapes of `%80` and above are treated as malformed. Real `decodeURIComponent` accepts valid multi-byte UTF-8 sequences such as `%C3%A9`. The model keeps the ASCII escapes, and the `URIError` for a broken or unfinished escape.
- Text.Lower: ASCII lowercasing only; Unicode case mapping is not modelled.
- Calendar.GenerateCalendarDays: the year, month, today's date and the weekday of the first come in as parameters instead of from `new Date()`. Event dates are pre-split into year, month and day. `new Date("2023-06-15")` parses as UTC and `getDate` reads local time, so west of UTC an event would show a day early. The model uses the date as written.
- The calendar grid always shows the real current month, not the navigated one. The model keeps grid generation and navigation separate, as the page does.
- The profile lookup by id (`ProfileTable.Has`, a stand-in for the `select`): a failing `select` (network or permission error) is not modelled. The lookup answers from the table.
- VerifyEmail.NewProfile: user metadata is a string-to-string map. Non-string metadata values are not modelled.
- Login.LoginForm.HandleClientSideLogin: the auth context's `signIn` is an input reply. app/context/auth.context is not part of this model.
- Concurrency is not modelled. The loader and the client effect run one after the other against one table. Their check-then-insert is not atomic, and interleaved runs could race.
- The backend client construction and its environment-variable fallback (app/utils/supabase.server.ts:5-25) are foreign library setup.
- The internals of the backend calls (`getUser`, `signInWithPassword`, `verifyOtp`, `select`, `insert`) are foreign. Their answers are inputs.
- The logout route (app/routes/logout.tsx:6-15) calls the provider's `signOut()`, then redirects to `/` with the cleared cookie. `signOut()` is a foreign call and is left out; the clearing is modelled by `Session.ClearAuthCookie`.
- The mock event lists of the calendar and discover pages (`MOCK_EVENTS`, `MOCK_PUBLIC_EVENTS`) are fixed data and are not reproduced. The grid and the filter take the event list as input, and their properties hold for every list.
- The browser deleting a cookie on `Max-Age=0` is not modelled. `Session.ClearThenResolve` covers the browser still sending the emptied cookie, and `Session.DroppedCookieResolves` covers it having dropped the cookie.
- React scheduling, `useEffect` redirects for an already signed-in user (app/routes/login.tsx:67-71, app/routes/auth.verify.tsx:168-172), the delayed `navigate` after verification and `console.error` logging are runtime behaviour, not logic.
- Signup never calls the identity provider (the action stops at a redirect), so there is no provider behaviour to model there.
