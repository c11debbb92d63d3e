# Taskflow client — a functional model in Dafny

Taskflow's web client is a React single-page app over a REST task API. Its
logic is a handful of pure list and record transformations. This project
models them as immutable Dafny datatypes and total functions, and proves what
each one keeps. They are:

- the Tasks page: the status filter plus case-insensitive search
  (`filteredTasks`), the three kanban columns (`groupedTasks`), loading the
  list, and the local edits after the API answers (create prepends, a status
  change replaces by id, delete removes by id; on failure only the error
  banner changes);
- `getTaskStats`: per-status counts over the single fetched page of 100 tasks,
  and a `total` that falls back to the page length; `getTasks` paging defaults;
- the Register page: its two password rules in order, the payload it posts,
  and the error it shows;
- the task form: initial values with falsy fallbacks, field edits, the
  blank-title guard and the `loading` reset;
- the session store (`AuthContext`): `auth` restored from storage, `login`
  and `logout` as transitions on `(auth, storage)`, and the storage writes
  the login page makes around `login`.

The JavaScript primitives these rely on are modelled as well: `toLowerCase`
(ASCII), `includes`, `trim`, `length` in UTF-16 code units,
`Number`/`String` on decimal integers, and `JSON.stringify`/`JSON.parse` on
string values. `parse ∘ stringify = id` is proved, not assumed.

The modules `TaskForm`, `TaskApi`, `TaskBoard`, `Register`, `AuthContext`
and `HttpClient` follow the source's components and API files. They rest on
five supporting modules:
- `Base`: absent values, API replies, storage.
- `Seqs`: `Array.prototype.filter` and its laws.
- `Text`: string primitives.
- `JsonString`: the JSON string codec.
- `TaskModel`: the task record and its statuses.

Two behaviours of the code are easy to misread:

- A task whose status is not OPEN, IN_PROGRESS or DONE is kept by the filter
  but lands in no column. The columns partition the filtered list only when
  there are no such tasks.
- A `totalElements` of 0 counts as missing (`||`), so `total` falls back to
  the page length.

## Model

| member | source | states |
|---|---|---|
| `Seqs.Filter` | src/pages/Tasks.jsx:81-86 | every kept element passes the predicate and comes from the input; an input element is kept exactly when it passes |
| `Seqs.FilterIsSubsequence` | src/pages/Tasks.jsx:81-86 | a filtered list is an order-preserving subsequence of its input |
| `Seqs.FilterMultiplicity` | src/pages/Tasks.jsx:74 | a passing value occurs as often after filtering as before; a failing one not at all |
| `Seqs.FilterKeepsAll` | src/pages/Tasks.jsx:81-86 | filtering returns the input unchanged exactly when every element passes |
| `Seqs.FilterCongruent` | src/pages/Tasks.jsx:81-86 | two predicates that agree on every element of the list filter it to the same result |
| `Seqs.FilterLengthIsIndexCount` | src/api/taskApi.js:36-38 | the length of a filter's result is the number of positions whose element passes |
| `Base.OrElse` | src/components/TaskForm.jsx:5-8 | JavaScript's logical-or fallback on an optional string, as in `initialData?.title` or `""` (`Base.Truthy`: absent and `""` are falsy): a truthy value is kept, an absent or empty one gives the fallback, and the result is empty only when the fallback is |
| `Base.GetItem` | src/context/AuthContext.jsx:7 | `localStorage.getItem` is present exactly when the key is stored, and then gives its value |
| `Text.Lower` | src/pages/Tasks.jsx:83-84 | lowering keeps the length and lowers each character on its own (ASCII letters only) |
| `Text.LowerIdempotent` | src/pages/Tasks.jsx:83-84 | lowering already-lowered text changes nothing |
| `Text.Includes` | src/pages/Tasks.jsx:83-84 | `includes` holds exactly when the needle occurs at some position of the haystack |
| `Text.IncludesEmpty` | src/pages/Tasks.jsx:83-84 | the empty query occurs in every string |
| `Text.Trim` | src/components/TaskForm.jsx:14 | `trim` returns a contiguous slice framed by whitespace-only prefix and suffix, not starting or ending in whitespace |
| `Text.TrimEmpty` | src/components/TaskForm.jsx:14 | a string trims to empty exactly when it is all JavaScript whitespace |
| `Text.Utf16Length` | src/pages/Register.jsx:29 | `length` counts UTF-16 code units: between the character count and twice it, and equal to it for BMP-only text |
| `Text.Utf16Exact` | src/pages/Register.jsx:29 | `length` is the character count plus one for every character outside the BMP (each a surrogate pair) |
| `Text.Utf16Append` | src/pages/Register.jsx:29 | the `length` of a concatenation is the sum of the lengths |
| `Text.ToNumber` | src/pages/Tasks.jsx:50 | `Number(null)` and `Number` of blank text are 0; otherwise the result is a number exactly when the trimmed text is all digits, and then it is their decimal value |
| `Text.NatToDecimal` | src/pages/Login.jsx:27 | `String(n)` of an integer below 2^53 is non-empty decimal digits with no leading zero (`Text.DecimalRoundTrip` reads it back as `n`) |
| `Text.NumberOfDecimal` | src/pages/Tasks.jsx:50 | `Number(String(n)) == n`, so a user id stored as decimal text reads back unchanged |
| `JsonString.Stringify` | src/context/AuthContext.jsx:13 | `JSON.stringify` of a string is a literal opening and closing with `"`, at least two characters longer than the string |
| `JsonString.StringifyPlain` | src/context/AuthContext.jsx:13 | a string with no quote, backslash or control character is written as itself in quotes |
| `JsonString.StringifyPrintable` | src/context/AuthContext.jsx:13 | the JSON text of a string holds no raw control character |
| `JsonString.Parse` | src/context/AuthContext.jsx:8 | `JSON.parse` yields a string only when the text, after leading whitespace, opens with a quote |
| `JsonString.ParseSkipsLeadingWhitespace` | src/context/AuthContext.jsx:8 | whitespace before the value does not change what `JSON.parse` yields |
| `JsonString.ParseStringify` | src/context/AuthContext.jsx:8-13 | `JSON.parse(JSON.stringify(s)) == s` for every string |
| `JsonString.StringifyIsNotNull` | src/context/AuthContext.jsx:8 | a stored token's JSON text is never read back as `null` |
| `TaskModel.StatusCountIsPositions` | src/api/taskApi.js:36-38 | counting one status by filtering equals counting the positions holding that status |
| `TaskModel.StatusPartition` | src/pages/Tasks.jsx:89-93 | the three status filters and the "other status" filter together account for every task |
| `TaskModel.KnownStatusesCover` | src/pages/Tasks.jsx:89-93 | the three status counts sum to the list length exactly when no task has another status |
| `TaskApi.GetTasksQuery` | src/api/taskApi.js:10-13 | omitted page and size default to 0 and 20; the path is the user path with the user id recoverable from it |
| `TaskApi.StatsQuery` | src/api/taskApi.js:31 | statistics fetch page 0 of size 100 |
| `TaskApi.Content` | src/api/taskApi.js:32 | a missing `content` reads as the empty list |
| `TaskApi.Stats` | src/api/taskApi.js:30-40 | `total` is `totalElements` unless missing or 0, else the page length; each status figure is the number of page positions with that exact status; the three sum to at most the page length, and to exactly it iff every status is known |
| `TaskApi.StatsCountsIgnoreTotal` | src/api/taskApi.js:31-38 | the status figures depend only on the fetched page, never on `totalElements` |
| `TaskApi.StatsFallShortBeyondPage` | src/api/taskApi.js:31-38 | when `totalElements` exceeds the page, the status figures fall short of `total` by at least the unfetched remainder |
| `TaskBoard.FilteredTasks` | src/pages/Tasks.jsx:81-86 | a task is shown iff it is in the list, passes the status filter (or the filter is ALL) and its lowered title or description contains the lowered query; a shown task appears as many times as in the list, a hidden one not at all; the result is an ordered subsequence |
| `TaskBoard.FilteredTasksIdempotent` | src/pages/Tasks.jsx:81-86 | filtering again with the same filter and query changes nothing |
| `TaskBoard.ShowAllShowsEverything` | src/pages/Tasks.jsx:81-86 | filter ALL with an empty query shows the whole list in order |
| `TaskBoard.SearchIgnoresQueryCase` | src/pages/Tasks.jsx:83-84 | queries that lower to the same text select the same tasks |
| `TaskBoard.SearchByLoweredQuery` | src/pages/Tasks.jsx:83-84 | searching for the lowered query shows the same list as searching for the query |
| `TaskBoard.SearchExample` | src/pages/Tasks.jsx:83-84 | "Buy milk" / "from store" is found by "MILK" and "store" and not by "bread" |
| `TaskBoard.Group` | src/pages/Tasks.jsx:89-93 | each column holds exactly the filtered tasks of its status, in order; other statuses appear in no column; column sizes sum to the filtered count iff every status is known |
| `TaskBoard.GroupKeepsDuplicates` | src/pages/Tasks.jsx:89-93 | a task occurs in its column as often as in the filtered list |
| `TaskBoard.ColumnsMatchStats` | src/pages/Tasks.jsx:89-93 | unfiltered, the column sizes equal the statistics' per-status figures for the same page |
| `TaskBoard.ReplaceById` | src/pages/Tasks.jsx:65 | length is kept, every element with the id becomes the returned record, every other element stays in place |
| `TaskBoard.DeleteById` | src/pages/Tasks.jsx:74 | exactly the tasks with the id are removed, every other task keeps all its copies and their order, and the length drops by the number removed |
| `TaskBoard.ReplaceByIdIdempotent` | src/pages/Tasks.jsx:65 | applying the same replacement by id twice equals applying it once, whatever id the new record carries |
| `TaskBoard.DeleteAfterReplace` | src/pages/Tasks.jsx:65-74 | deleting a task after changing its status leaves what deleting it directly leaves |
| `TaskBoard.LoadQuery` | src/pages/Tasks.jsx:35 | the page loads page 0 of 50 tasks |
| `TaskBoard.LoadTasks` | src/pages/Tasks.jsx:22-45 | no stored user id sets "User not logged in" and leaves the list; a reply replaces the list with its content (missing reads empty) and clears the error; a failure sets "Failed to load tasks"; loading always ends |
| `TaskBoard.LoadShowsPage` | src/pages/Tasks.jsx:22-45 | after a successful load, ALL with no query shows exactly the page's content, whatever was showing before, and the column sizes equal the page's statistics |
| `TaskBoard.CreatePayload` | src/pages/Tasks.jsx:47-51 | the payload carries the form's fields and `Number` of whatever user id text is stored: 0 when absent or blank, `n` when `String(n)` is stored, NaN for non-numeric text |
| `TaskBoard.AfterCreate` | src/pages/Tasks.jsx:53-59 | success puts the new task first (length + 1) and closes the dialog; failure changes only the error |
| `TaskBoard.DeleteUndoesCreate` | src/pages/Tasks.jsx:55-74 | creating a task with a fresh id and deleting it restores the list |
| `TaskBoard.AfterStatusChange` | src/pages/Tasks.jsx:62-69 | success replaces every task with the id, keeps all others in place and the length; failure changes only the error |
| `TaskBoard.AfterDelete` | src/pages/Tasks.jsx:71-78 | success removes exactly the tasks with the id, keeps every other task with all its copies in order, and shrinks the list by the number removed; failure changes only the error |
| `TaskForm.InitialForm` | src/components/TaskForm.jsx:4-9 | without initial data the form is "", "", MEDIUM, OPEN; a truthy initial field is kept and a falsy one falls back to its default; priority and status are never blank |
| `TaskForm.InitialFormReproduces` | src/components/TaskForm.jsx:4-9 | seeding the form from the values it holds gives the same form back |
| `TaskForm.Edit` | src/components/TaskForm.jsx:36-79 | editing a field sets that field and leaves the other three unchanged |
| `TaskForm.EditsCommute` | src/components/TaskForm.jsx:36-79 | edits of different fields commute; a second edit of one field overrides the first |
| `TaskForm.Submit` | src/components/TaskForm.jsx:12-22 | an all-whitespace title calls nothing and leaves the state (loading included) as it was; otherwise `onSubmit` gets the data as held, loading ends false, and a throw escapes |
| `Register.Edit` | src/pages/Register.jsx:16-18 | a change sets the named field and leaves the other three unchanged |
| `Register.Validate` | src/pages/Register.jsx:24-32 | a mismatch reports "Passwords do not match"; otherwise fewer than 6 code units reports the length message; no error iff both rules hold |
| `Register.Submit` | src/pages/Register.jsx:20-48 | a broken rule sets its message and posts nothing; a valid form posts name, email and password only; success navigates to /login with no error; failure shows the server's message or the fallback |
| `Register.MismatchReportedFirst` | src/pages/Register.jsx:24-32 | a short, mismatched password reports the mismatch and posts nothing |
| `Register.SubmitClearsError` | src/pages/Register.jsx:22 | the error showing before a submit has no effect on its outcome |
| `AuthContext.InitialAuth` | src/context/AuthContext.jsx:6-9 | an absent or empty `token` gives null; stored text that parses as a JSON string restores that string; the literal `null` restores null; any other non-empty text cannot be restored |
| `AuthContext.Init` | src/context/AuthContext.jsx:6-9 | the session starts with the restored `auth` over the unchanged storage |
| `AuthContext.Login` | src/context/AuthContext.jsx:11-14 | `auth` becomes the token, `token` holds its JSON text, and no other key changes |
| `AuthContext.RestoresStoredToken` | src/context/AuthContext.jsx:6-13 | storage whose `token` holds a token's JSON text restores exactly that token |
| `AuthContext.LoginSurvivesReload` | src/context/AuthContext.jsx:6-14 | restoring from the storage `login` leaves gives back the logged-in session |
| `AuthContext.Logout` | src/context/AuthContext.jsx:16-20 | `auth` becomes null; exactly `token` and `userId` are removed; every other key keeps its value; restoring gives null |
| `AuthContext.LogoutIdempotent` | src/context/AuthContext.jsx:16-20 | logging out twice equals logging out once |
| `AuthContext.LogoutUndoesLogin` | src/context/AuthContext.jsx:11-20 | logout after login leaves the earlier storage minus `token` and `userId` |
| `AuthContext.SignIn` | src/pages/Login.jsx:27-30 | after sign-in `auth` is the token, the keys are the earlier ones plus `token`, `userId` and `userName`, `token` holds the token's JSON text, the user id (an integer below 2^53) is stored as its decimal text, the display name is the claim's name or "", and every other key keeps its value |
| `AuthContext.SignInStoresUserId` | src/pages/Login.jsx:27-30 | `Number` of the user id stored at sign-in is the claim's id |
| `AuthContext.SignOutKeepsUserName` | src/context/AuthContext.jsx:16-20 | after sign-in then logout the display name survives and the user id reads as 0 |
| `HttpClient.AuthorizationAsWritten` | src/api/axios.js:9-17 | a header is added iff the stored token text is non-empty, and it is `Bearer ` followed by that text verbatim |
| `HttpClient.QuotedBearerAfterLogin` | src/api/axios.js:9-17 | after `login(t)` the header is `Bearer ` plus the JSON text of `t`, never `Bearer t` |
| `HttpClient.Authorization` | src/api/axios.js:9-17 | the header carries the token the session store restores, and is absent when none is restored |
| `HttpClient.BearerFollowsSession` | src/api/axios.js:9-17 | after `login(t)` the header is `Bearer t`; after `logout()` there is none |

## Findings

| source | as written | input that shows it | evidently intended | confidence | as-written member | corrected member |
|---|---|---|---|---|---|---|
| src/api/axios.js:10-13 | sends `Bearer ` plus the raw stored text, but `login` (src/context/AuthContext.jsx:13) stores `JSON.stringify(token)` | `login("abc")`, then any request: header `Bearer "abc"` | `Bearer abc` | not executed; medium (a lenient server might strip the quotes) | `HttpClient.QuotedBearerAfterLogin` | `HttpClient.BearerFollowsSession` |

## Left out

- HTTP transport: the Axios instance and base-URL choice (src/api/axios.js:5-7) are library setup. Only the header the interceptor adds is modelled.
- The REST calls (`createTask`, `updateTaskStatus`, `deleteTask`, `registerUser`, `loginUser`) are foreign calls. Their settled results are inputs (`Base.Reply`).
- Decoding the JWT in src/pages/Login.jsx (`atob`, `JSON.parse`) has no checkable logic. `AuthContext.SignIn` takes the decoded claims as inputs.
- AuthContext.SignIn: the `userId` claim is a non-negative integer here. The source stores whatever value the token carries; `undefined` would be stored as the text "undefined".
- Text.Lower: lowers only ASCII A-Z. JavaScript's `toLowerCase` also maps letters of other scripts.
- Text.NatToDecimal: `n` stands for a JavaScript integer below 2^53, where `String` writes plain digits and the value is exact. From 10^21 up `String` writes exponent text ("1e+21"), and above 2^53 a number is not held exactly; neither is modelled. The same bound applies to the `userId` that `AuthContext.SignIn` stores.
- Text.ToNumber: reads only decimal digits, after trimming. Signs, fractions, exponents, hex literals and `Infinity`, which JavaScript's `Number` accepts, read as NaN here. Precision loss beyond 2^53 is not modelled.
- AuthContext.InitialAuth: tracks only a stored JSON string or `null`. Other stored text gives `NotAStringToken`, which covers two source behaviours: `JSON.parse` throwing (the provider fails to mount) and `JSON.parse` returning a non-string value.
- JsonString.Parse: rejects a `\u` escape of an unpaired surrogate. Strings here are sequences of Unicode scalar values, so a lone surrogate cannot be represented anywhere in the model.
- Routing and the auth guard (src/App.jsx): `RequireAuth`, the Modal component and the auth API module are not part of this model.
- Presentation components (Dashboard, TaskCard, StatsCard, Header, Sidebar, Skeleton, layouts) only map labels and styles.
- React scheduling: each handler is applied to the page state it is given. The source's handlers close over the `tasks` of their render, so two overlapping requests could drop an update. The `useEffect` ordering and the dashboard's `Promise.all` are not modelled either.
- Browser form validation (`required`, `minLength`, `type="email"` on the inputs) runs before `handleSubmit` and is not modelled.
- The `loading` flag is modelled only after a submit or load settles, not while the request is in flight.
