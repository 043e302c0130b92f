# Civic issue admin portal — a Dafny model

The portal is a React front end for government staff. They use it to browse,
filter and chart civic complaints (potholes, garbage, street lights) from a
static mock store. This project models the logic the portal actually computes
as pure Dafny functions over sequences and records:

- the shared domain types and the mock store, with the referential and
  chronological invariants the store satisfies (`domain.dfy`, `mock_data.dfy`);
- the issue table's three-way filter, category drop-down and row cells
  (`issue_query.dfy`);
- the dashboard counts and charts (`dashboard.dfy`), built on a category tally.
  The tally is an ordered association list that keeps first-seen order, as a
  JavaScript object does for non-index keys (`tally.dfy`);
- the analytics page's CSV export (`csv_export.dfy`). Every cell is a JSON
  string literal as `JSON.stringify` writes it (`json_string.dfy`). A reader
  for that format proves that the export round-trips;
- the staff search and the staff table cells (`departments.dfy`), and the
  analytics category chart and heat-bar width (`analytics.dfy`);
- the session: the authentication context's login/logout transitions
  (`auth.dfy`), the sign-in form's validation gate (`login_form.dfy`), the
  route table with its `Protected` guard (`routes.dfy`), and the translation
  context (`i18n.dfy`).

Some JavaScript built-ins are written out in `seqs.dfy` and `text.dfy`:

- `Array.prototype.filter`, first-seen deduplication (`new Set`), join and split;
- `String.prototype.trim` with ECMAScript white space;
- `toLowerCase`, restricted to ASCII;
- `includes`, proved equal to a substring predicate;
- string length in UTF-16 code units.

Browser storage is a `map<string, string>` that each transition takes and
returns. The current time is a parameter (`now`). Timestamps are integer
milliseconds. The email-format check of the validation library is a
function parameter.

## Model

| member | source | states |
|---|---|---|
| Domain.ParseStatus | shared/api.ts:8 | a status name parses exactly when it is one of PENDING, IN_PROGRESS, RESOLVED, CRITICAL, and parses to the status with that name |
| Domain.StatusNameRoundTrip | shared/api.ts:8 | the four statuses have four distinct names, and each name parses back to its status |
| Domain.ParseRole | shared/api.ts:5 | a role name parses exactly when it is ADMIN, DEPT_HEAD or STAFF |
| Domain.RoleNameRoundTrip | shared/api.ts:5 | role names are distinct and parse back to their role |
| Domain.ParseLanguage | shared/api.ts:6 | a language code parses exactly when it is "en" or "hi" |
| Domain.LanguageNameRoundTrip | shared/api.ts:6 | language codes are distinct and parse back |
| Domain.ParseNotificationKind | shared/api.ts:64 | a notification type parses exactly when it is NEW_ISSUE, ASSIGNMENT or STATUS_UPDATE |
| Domain.NotificationKindNameRoundTrip | shared/api.ts:64 | notification type names are distinct and parse back |
| Domain.StatusName | shared/api.ts:8 | every status has a name among the four status names |
| Domain.RoleName | shared/api.ts:5 | every role has a name among the three role names |
| Domain.LanguageName | shared/api.ts:6 | every language has a code among "en" and "hi" |
| Domain.NotificationKindName | shared/api.ts:64 | every notification kind has a name among the three type names |
| MockData.DaysAgo | client/lib/data.ts:17-19 | `daysAgo(n)` is never later than `now` for n >= 0, and strictly earlier for n > 0 |
| MockData.DaysAgoStrictlyDecreasing | client/lib/data.ts:19 | a larger n gives a strictly earlier timestamp, exactly (n - m) days of 86400000 ms earlier |
| MockData.Issues | client/lib/data.ts:21-72 | the mock issue list holds issues i1001, i1002 and i1003, in that order, whatever the load time |
| MockData.MockStore | client/lib/data.ts:3-77 | the store assembled from the four mock collections meets every store invariant (unique ids, resolving references, consistent histories) |
| MockData.MockIdsDistinct | client/lib/data.ts:3-72 | department ids, staff ids and issue ids are each unique in the mock store |
| MockData.MockReferencesResolve | client/lib/data.ts:10-72 | every mock staff department id names a department and every mock assignee names a staff member |
| MockData.MockHistoriesConsistent | client/lib/data.ts:21-72 | every mock issue timeline starts PENDING at creation, is time-ordered and ends in the issue's status no later than its last update |
| MockData.MockStoreWellFormed | client/lib/data.ts:3-77 | ids are unique in each collection; every staff department and issue assignee resolves; each issue has createdAt <= updatedAt; each timeline is time-ordered, starts PENDING at createdAt and ends in the issue's status; every mock issue is assigned and has a timeline |
| MockData.StatusColor | client/lib/data.ts:79-86 | every status colour is a `text-` utility class |
| MockData.StatusColorInjective | client/lib/data.ts:79-86 | `statusColor` gives the four statuses four different classes |
| IssueQuery.Reset | client/pages/Issues.tsx:66 | Reset from any control state yields the initial controls ("all", "all", "") |
| IssueQuery.Apply | client/pages/Issues.tsx:22-28 | every shown issue is in the list and satisfies all three controls, and every issue of the list that satisfies them is shown |
| IssueQuery.ApplyIsSubsequence | client/pages/Issues.tsx:22-23 | the shown issues are a subsequence of the list, in list order |
| IssueQuery.StatusFilterMeaning | client/pages/Issues.tsx:24 | "all" imposes no status constraint; any other value keeps exactly the issues whose status has that name |
| IssueQuery.TextFilterMeaning | client/pages/Issues.tsx:26 | the search matches iff the query is blank, or the lower-cased untrimmed query occurs in the lower-cased description or in the lower-cased address when present; an issue without an address matches only on its description |
| IssueQuery.ApplyIsIntersection | client/pages/Issues.tsx:24-26 | the combined filter equals the text filter of the category filter of the status filter |
| IssueQuery.ConstraintsOnlyNarrow | client/pages/Issues.tsx:24-26 | relaxing any one control to its neutral value keeps every row already shown |
| IssueQuery.InitialAndResetShowAll | client/pages/Issues.tsx:15-17 | the first render and the state after Reset list the whole issue list unchanged |
| IssueQuery.ShownIffMatches | client/pages/Issues.tsx:23-27 | an issue of the list is shown exactly when it satisfies the controls |
| IssueQuery.StatusSelectAlone | client/pages/Issues.tsx:24 | the status select alone keeps exactly the issues with that status |
| IssueQuery.StatusOnlyMatches | client/pages/Issues.tsx:24-26 | with only the status select set, an issue matches the controls iff it has that status |
| IssueQuery.CategorySelectAlone | client/pages/Issues.tsx:25 | a category other than "all", selected alone, keeps exactly the issues of that category |
| IssueQuery.CriticalMockIssues | client/pages/Issues.tsx:24 | on the mock data, the CRITICAL filter shows exactly issue i1002 |
| IssueQuery.CategoryOptions | client/pages/Issues.tsx:20 | each category of the list appears exactly once, only categories of the list appear, and they appear in first-seen order |
| IssueQuery.FindStaff | client/pages/Issues.tsx:101 | `staff.find`: nothing iff no staff id matches, otherwise the first staff member with that id |
| IssueQuery.AssigneeCell | client/pages/Issues.tsx:101 | the Assigned cell is the first matching staff member's name when non-empty; it is the dash when the assignee is absent, resolves to nobody, or resolves to a staff member with an empty name; any other text is some staff member's name |
| IssueQuery.LocationCell | client/pages/Issues.tsx:94 | the Location cell is blank exactly when the issue has neither a non-empty address nor a non-empty ward; otherwise it shows one of the two, the address whenever that is non-empty |
| IssueQuery.StatusClass | client/pages/Issues.tsx:117-122 | the badge classes of a status include that status's text colour from the shared data module |
| IssueQuery.StatusClassInjective | client/pages/Issues.tsx:117-122 | the four statuses get four different badge classes |
| IssueQuery.StatusClassShape | client/pages/Issues.tsx:117-122 | the four badge class strings have lengths 68, 65, 65 and 44 and differ at the fifteenth character |
| Tally.Bump | client/pages/Dashboard.tsx:29 | bumping a key inserts it in the key order (appended only if new) |
| Tally.BumpEntries | client/pages/Dashboard.tsx:29 | for a new key, `acc[k] = (acc[k] \|\| 0) + 1` appends an entry with count 1; otherwise only that key's count grows by one, in place |
| Tally.BumpAbsent | client/pages/Dashboard.tsx:29 | bumping a key that is not yet present appends it with count 1 |
| Tally.BumpPresent | client/pages/Dashboard.tsx:29 | bumping a present key raises its count by one in place and leaves every other entry alone |
| Tally.BumpSum | client/pages/Dashboard.tsx:29 | each bump adds exactly one to the total count |
| Tally.BumpCounts | client/pages/Dashboard.tsx:28-31 | one more reduce step keeps every count equal to the key's multiplicity in the input seen so far |
| Tally.CountBy | client/pages/Dashboard.tsx:28-31 | the tally's keys are the distinct inputs in first-seen order, each count is that key's multiplicity (at least 1), and the counts sum to the input length |
| Tally.CountOfKey | client/pages/Dashboard.tsx:28-31 | a key is tallied iff it occurs in the input, with its multiplicity as count |
| Dashboard.CountWhereStatus | client/pages/Dashboard.tsx:23-25 | the filter-and-count of one status equals that status's multiplicity |
| Dashboard.CountStatus | client/pages/Dashboard.tsx:23-25 | `issues.filter(i => i.status === s).length` is the number of issues with status s, the multiplicity of s among the statuses |
| Dashboard.StatCards | client/pages/Dashboard.tsx:22-25 | total is the issue count and equals pending + inProgress + resolved + critical, so the three cards never sum past total |
| Dashboard.MultiplicitiesSum | shared/api.ts:8 | the four status multiplicities add up to the list length, since the status set is closed |
| Dashboard.BarData | client/pages/Dashboard.tsx:39-43 | exactly three bars, named Pending, In Progress, Resolved in that order, whose values are the numbers of issues with those statuses |
| Dashboard.BarDataOmitsCritical | client/pages/Dashboard.tsx:39-43 | the bars sum to total minus the CRITICAL count |
| Dashboard.Slices | client/pages/Dashboard.tsx:33-38 | `Object.entries(...).map(([name, value]) => ...)` keeps the tally's keys and counts in order |
| Dashboard.PieData | client/pages/Dashboard.tsx:33-38 | slice names are the categories in first-seen order and distinct; each value is that category's count (at least 1); values sum to the issue count |
| Dashboard.ByCategory | client/pages/Dashboard.tsx:27-32 | `byCategory` is exactly the value column of `pieData`, in the same order |
| Dashboard.PieColor | client/pages/Dashboard.tsx:44-49 | the colour index `idx % 4` always picks one of the four palette colours |
| Dashboard.PieColorRotation | client/pages/Dashboard.tsx:106 | colours repeat every four slices, and adjacent slices differ |
| Dashboard.RecentNotifications | client/pages/Dashboard.tsx:124 | the panel shows a prefix of the notifications of length min(6, count) |
| Dashboard.MockStatCards | client/pages/Dashboard.tsx:22-25 | on the mock data the cards read total 3, pending 0, in progress 1, resolved 1 |
| Dashboard.MockStatuses | client/lib/data.ts:21-72 | the mock issues have statuses IN_PROGRESS, CRITICAL and RESOLVED, in that order |
| Dashboard.MockPieNames | client/pages/Dashboard.tsx:33-38 | on the mock data the slices are Pothole, Garbage, Streetlight |
| Analytics.CategoryChart | client/pages/Analytics.tsx:36-41 | the analytics tally has first-seen distinct category names, multiplicity values, and sums to the issue count |
| Analytics.CategoryChartIsDashboardPie | client/pages/Analytics.tsx:36-41 | the analytics tally is the dashboard's pie data |
| Analytics.HeatWidth | client/pages/Analytics.tsx:140 | the heat-bar width never exceeds 100; it is count * 5 up to 20 and 100 from 20 on |
| Analytics.HeatWidthMonotone | client/pages/Analytics.tsx:140 | a larger count never gets a narrower bar |
| JsonString.EscapeIsPrintable | client/pages/Analytics.tsx:23 | an escaped string body holds no control character (section 7 of RFC 8259) |
| JsonString.EscapeChar | client/pages/Analytics.tsx:23 | `JSON.stringify` writes each character as one to six printable characters |
| JsonString.Escape | client/pages/Analytics.tsx:23 | each character is written as one to six characters, so the escaped body is empty exactly when the string is |
| JsonString.Quote | client/pages/Analytics.tsx:23 | `JSON.stringify` of a string is quoted at both ends and holds no control character, so no raw newline |
| JsonString.HexDigitValue | client/pages/Analytics.tsx:23 | each hex digit written reads back as its value |
| JsonString.ReadPlain | client/pages/Analytics.tsx:23 | a printable character other than `"` and `\` reads back as itself |
| JsonString.ReadShort | client/pages/Analytics.tsx:23 | a two-character escape reads back as its character |
| JsonString.ReadControl | client/pages/Analytics.tsx:23 | a `\u00XX` escape of a control character reads back as that character |
| JsonString.ReadUnicode | client/pages/Analytics.tsx:23 | a `\uXXXX` escape outside the surrogate range reads back as the character with that code |
| JsonString.ReadEscapeChar | client/pages/Analytics.tsx:23 | every escaped character reads back as itself |
| JsonString.ReadEscape | client/pages/Analytics.tsx:23 | an escaped body followed by the closing quote reads back as the original string |
| JsonString.QuoteRoundTrip | client/pages/Analytics.tsx:23 | reading the JSON literal of any string gives back that string and the text after it |
| CsvExport.Lookup | client/pages/Analytics.tsx:23 | `r[key]` is missing exactly when the key is not a key of the row, and is otherwise the value of the first field with that key |
| CsvExport.CellText | client/pages/Analytics.tsx:23 | `r[k] ?? ""`: a missing or null value gives the empty string, a string value gives itself |
| CsvExport.Lines | client/pages/Analytics.tsx:21-25 | the header plus one line per row: rows + 1 lines |
| CsvExport.ToCsv | client/pages/Analytics.tsx:19-25 | with no rows the export is empty; otherwise it starts with the comma-joined keys of the first row and a newline |
| CsvExport.EmptyExport | client/pages/Analytics.tsx:20-21 | an empty export is the empty string, with no header |
| CsvExport.LaterKeysNotExported | client/pages/Analytics.tsx:20 | a key missing from the first row is not a column |
| CsvExport.ParseCellsRoundTrip | client/pages/Analytics.tsx:23 | comma-joined JSON literals split back into the original cell texts |
| CsvExport.ParseLastCell | client/pages/Analytics.tsx:23 | a line holding one JSON literal reads back as its one value |
| CsvExport.ParseNextCell | client/pages/Analytics.tsx:23 | a JSON literal, a comma and a readable rest read back as the value in front of the rest's values |
| CsvExport.DataLineSingleLine | client/pages/Analytics.tsx:23 | a data line never contains a raw newline |
| CsvExport.ExportLines | client/pages/Analytics.tsx:21-25 | with non-empty input and newline-free keys, splitting the export on newlines gives the header and one line per row: rows + 1 lines |
| CsvExport.ExportRoundTrip | client/pages/Analytics.tsx:19-25 | with non-empty input and keys free of commas and newlines, reading the export back gives the first row's keys and every row's cell texts, with missing values as "" |
| CsvExport.ParseRowsOfLines | client/pages/Analytics.tsx:23 | the data lines read back as every row's cell texts |
| Departments.SearchStaff | client/pages/Departments.tsx:12 | the search keeps exactly the staff whose lower-cased name contains the lower-cased, untrimmed query |
| Departments.SearchStaffIsSubsequence | client/pages/Departments.tsx:12 | the search keeps staff in their original order |
| Departments.EmptyQueryListsAll | client/pages/Departments.tsx:12 | an empty query lists every staff member |
| Departments.SpaceQueryNotIgnored | client/pages/Departments.tsx:12 | unlike the issue search, a single space is a real query: a name without a space does not match it |
| Departments.DepartmentCell | client/pages/Departments.tsx:61 | the Department cell is the name of the first department with that id, or empty when none matches |
| Departments.ResolvedCell | client/pages/Departments.tsx:63 | the Resolved cell is the member's stored resolved count, read from all-zero statistics when there are none |
| Departments.AvgTimeCell | client/pages/Departments.tsx:64 | the Avg time cell is the member's stored average time, read from all-zero statistics when there are none |
| Departments.StaffTable | client/pages/Departments.tsx:57-66 | one row per member of the search result, in order, each with name, role, department name, email and the two statistics cells |
| Departments.EmptyQueryTable | client/pages/Departments.tsx:57-66 | with an empty search box the table has one row per staff member, in the staff list order |
| Departments.MockRow | client/lib/data.ts:10-15 | each mock member's row shows its department name and its stored statistics |
| Departments.MockStaffTable | client/pages/Departments.tsx:57-66 | the unfiltered mock table lists Anita Sharma, Ravi Kumar, Sunil Das and Pooja Verma with their departments and stored statistics |
| Departments.MockDepartmentCellsResolve | client/pages/Departments.tsx:61 | on the mock data, every staff member's Department cell is non-empty |
| Auth.Start | client/context/AuthContext.tsx:18 | the provider starts signed out, with no role and no email |
| Auth.Login | client/context/AuthContext.tsx:22-25 | login yields signed in with that role and email; it stores the session record and leaves other storage keys alone |
| Auth.Logout | client/context/AuthContext.tsx:26-29 | logout yields the signed-out state from any state and removes only the session record |
| Auth.LoginForgetsEverythingElse | client/context/AuthContext.tsx:22-23 | the result of login depends neither on the password nor on the earlier session |
| Auth.LogoutIdempotent | client/context/AuthContext.tsx:26-28 | logging out twice is logging out once |
| Auth.LoginLogoutRestoresStart | client/context/AuthContext.tsx:18-28 | login then logout returns to the start state, without the session record |
| Auth.TransitionsKeepConsistency | client/context/AuthContext.tsx:18-27 | `isAuthenticated` holds iff a role is set, at start and after either transition |
| Auth.SessionRecord | client/context/AuthContext.tsx:24 | the stored record opens with `{"email":`, closes with `}`, and the JSON literal after the key reads back as the email followed by the role member |
| Auth.SessionRecordInjective | client/context/AuthContext.tsx:24 | for one role, different emails give different stored records |
| LoginForm.Validate | client/pages/Index.tsx:12 | the schema accepts iff the email check passes, the password has at least 6 UTF-16 units and the role is one of the three; on failure the error is the form's message |
| LoginForm.Submit | client/pages/Index.tsx:23-31 | on failure only the error is set: session unchanged, no navigation; on success the session is signed in with the typed email and parsed role, and the page goes to /dashboard |
| LoginForm.WeakInputRejected | client/pages/Index.tsx:12 | a password shorter than 6 or an unknown role is refused whatever the email, with the session unchanged |
| LoginForm.DefaultRoleIsAdmin | client/pages/Index.tsx:17 | left on its default, the role select signs in as ADMIN |
| LoginForm.BadCredentialsScenario | client/pages/Index.tsx:24-28 | "bad-email" with password "123" leaves the session unchanged and does not navigate |
| Routes.Protected | client/App.tsx:21-25 | the guard renders its child iff signed in, and otherwise redirects to "/" |
| Routes.GuardedPage | client/App.tsx:37-76 | each guarded path leads to the page declared at that path, never to the sign-in or the not-found page |
| Routes.Resolve | client/App.tsx:36-77 | "/" always renders the sign-in page; the five pages render iff signed in and otherwise redirect to "/"; any other path renders NotFound whatever the session; only a signed-in user sees an app page |
| Routes.GuardedPagesDistinct | client/App.tsx:37-76 | the five guarded paths lead to five different pages |
| Routes.RedirectTerminates | client/App.tsx:23 | following the guard's redirect renders the sign-in page and never redirects again |
| Routes.GuardFollowsSession | client/App.tsx:21-25 | after logout every guarded path redirects; after login every one renders its page |
| Routes.EveryPageAtItsPath | client/App.tsx:36-77 | a signed-in user reaches every page but the not-found page at the path it is declared at |
| I18n.Table | client/context/I18nContext.tsx:4-39 | a message table exists exactly for "en" and "hi" |
| I18n.T | client/context/I18nContext.tsx:54 | `t` fails iff the language has no table; otherwise a key with a non-empty entry gives that entry, an unknown key comes back unchanged, and any answer other than the key is a table entry |
| I18n.Messages | client/context/I18nContext.tsx:4-39 | both tables define exactly the fifteen listed keys, none with an empty text |
| I18n.TranslateKnown | client/context/I18nContext.tsx:54 | in either language, a listed key translates to that table's entry and any other key to itself |
| I18n.Init | client/context/I18nContext.tsx:50 | the initial language is the stored value when non-empty, otherwise "en", not checked against the language codes |
| I18n.InitChecked | client/context/I18nContext.tsx:50 | the corrected start-up: a stored code is used only if it is "en" or "hi", so the language always has a table |
| I18n.SetLang | client/context/I18nContext.tsx:53 | `setLang(l)` makes l current and stores a code that parses back to l, leaving other storage keys alone |
| I18n.SetLangPersists | client/context/I18nContext.tsx:50-53 | a language chosen with `setLang` is the one restored on the next start |
| I18n.InitCheckedAgrees | client/context/I18nContext.tsx:50 | when storage holds a valid code or nothing, the corrected start-up agrees with the original |
| I18n.UncheckedStoredLanguageBreaksT | client/context/I18nContext.tsx:50-54 | as written, a stored "fr" becomes the language and every `t` call fails |
| I18n.CheckedStartNeverFails | client/context/I18nContext.tsx:50-54 | after the corrected start-up, `t` never fails whatever storage holds |
| Seqs.Filter | client/pages/Issues.tsx:23 | `Array.prototype.filter`: no longer than its input; keeps exactly the elements that satisfy the predicate |
| Seqs.FilterIsSubsequence | client/pages/Issues.tsx:23 | a filter result is a subsequence of its input |
| Seqs.FilterAll | client/pages/Issues.tsx:23 | filtering with a predicate every element satisfies changes nothing |
| Seqs.FilterConjunction | client/pages/Issues.tsx:24-26 | filtering by a conjunction is filtering twice |
| Seqs.FilterLength | client/pages/Dashboard.tsx:23-25 | `filter(...).length` is the number of elements satisfying the predicate |
| Seqs.FirstIndexAppend | client/pages/Issues.tsx:20 | appending elements does not move a value's first position |
| Seqs.Dedup | client/pages/Issues.tsx:20 | `Array.from(new Set(xs))`: distinct, with the same elements as the input |
| Seqs.DedupFirstSeenOrder | client/pages/Issues.tsx:20 | the deduplicated values are in first-seen order |
| Seqs.DedupOfDistinct | client/pages/Issues.tsx:20 | deduplicating a distinct sequence changes nothing |
| Seqs.Split | client/pages/Analytics.tsx:21-25 | splitting gives at least one part, none containing the separator |
| Seqs.JoinSplit | client/pages/Analytics.tsx:25 | joining the parts of a split restores the text |
| Seqs.SplitPrefix | client/pages/Analytics.tsx:25 | a separator-free prefix is split off as the first part |
| Seqs.SplitNoSeparator | client/pages/Analytics.tsx:25 | a text without the separator is one part |
| Seqs.SplitJoin | client/pages/Analytics.tsx:21-25 | splitting a join of separator-free parts gives the parts back |
| Seqs.JoinChars | client/pages/Analytics.tsx:23 | joining parts that lack a character, with another separator, does not introduce it |
| Seqs.SumAppend | client/pages/Dashboard.tsx:33-38 | the sum of a concatenation is the sum of the sums |
| Text.TrimStart | client/pages/Issues.tsx:26 | drops exactly a leading run of ECMAScript white space |
| Text.TrimEnd | client/pages/Issues.tsx:26 | drops exactly a trailing run of ECMAScript white space |
| Text.Trim | client/pages/Issues.tsx:26 | `trim` returns the piece of its input between a leading and a trailing run of white space, with no white space left at either end |
| Text.TrimEndOfSuffix | client/pages/Issues.tsx:26 | trimming the end of the trimmed start leaves the piece of the input between two white space runs |
| Text.BlankTrimStart | client/pages/Issues.tsx:26 | trimming an all-white-space text leaves nothing |
| Text.TrimEmptyIffBlank | client/pages/Issues.tsx:26 | `q.trim() === ""` iff q is all white space |
| Text.Lower | client/pages/Issues.tsx:26 | ASCII lower-casing maps each character on its own, upper-case ASCII letters to lower case and everything else unchanged, so the length is kept |
| Text.LowerIdempotent | client/pages/Issues.tsx:26 | lower-casing twice is lower-casing once |
| Text.IncludesIffContains | client/pages/Issues.tsx:26 | `includes` holds iff the needle occurs at some position |
| Text.IncludesEmpty | client/pages/Departments.tsx:12 | every text includes the empty string |
| Text.Utf16Length | client/pages/Index.tsx:12 | the UTF-16 length is the character count plus one for each character outside the Basic Multilingual Plane, so between the character count and twice it |
| Text.Utf16LengthAppend | client/pages/Index.tsx:12 | the UTF-16 length of a concatenation is the sum of the lengths |
| Text.Utf16LengthBmp | client/pages/Index.tsx:12 | a text of Basic Multilingual Plane characters has UTF-16 length equal to its character count |

## Left out

- Text.Lower: `toLowerCase` is modelled on ASCII letters only, because the full Unicode tables are outside the model. In JavaScript some characters lower-case to more than one code unit (U+0130 becomes "i" plus a combining dot), so the length-keeping promise holds for the ASCII model, not for the source on such input.
- The email format check is a parameter of `LoginForm.Validate` and `LoginForm.Submit`, because it is the validation library's regular expression.
- ISO-8601 formatting of timestamps (`toISOString`, `toLocaleString`) is left out: times are integer milliseconds, so the ordering facts are stated on numbers.
- Latitude and longitude are carried as opaque `real` fields, with no arithmetic on them.
- The response-time table, ward heat data and trend chart (client/pages/Analytics.tsx:42-53, 156-161) are literal demo constants, not computed from issues. Only the width formula for the heat bars is modelled.
- The Blob download of the CSV, `window.print`, and the real session and local storage are left out. Storage is a map passed into and returned by each transition.
- The conversion of an issue object into an export row is left out. The CSV model takes rows of string-or-missing cells, so object-valued fields (location, timeline) are not covered.
- `JsonString.ReadBody`: the literal reader refuses `\u` escapes of surrogate code units. `JSON.stringify` writes such escapes only for lone surrogates, which a Dafny `string` cannot hold.
- Tally.CountBy: the tally is a plain object, so a category that names an inherited `Object.prototype` property behaves differently in the source. "constructor" or "toString" starts from the inherited function and its count becomes a string, and "__proto__" never becomes a key. Array-index-like keys are also enumerated first by JavaScript. The model treats every category as an ordinary key in insertion order, so it does not promise the source's behaviour for such names.
- Tally.Bump: the same for one step; an inherited property name is not counted as the model counts it.
- Tally.BumpEntries: the same; not promised for inherited property names.
- Tally.BumpAbsent: the same; not promised for inherited property names.
- Tally.BumpPresent: the same; not promised for inherited property names.
- Tally.BumpSum: the same; not promised for inherited property names.
- Tally.BumpCounts: the same; not promised for inherited property names.
- Tally.CountOfKey: the same; not promised for inherited property names.
- Dashboard.PieData: built on the tally, so its slices are not promised for categories named like inherited properties.
- Analytics.CategoryChart: the same tally, with the same exception.
- I18n.T: keys inherited from `Object.prototype` (for example "toString") are treated like unknown keys. In the source they return a function rather than the key.
- I18n.Table: a language named like an inherited property ("constructor", "toString", "__proto__") has no table in the model. In the source `messages[lang]` is then the inherited object, so `t` does not throw but returns the key or an inherited value. The model's failure for such names is therefore stronger than the source's behaviour, and `I18n.T` shares this exception.
- Path matching is exact string equality. The router's case-insensitive matching and trailing-slash handling are not modelled, and neither is navigation history (`replace`).
- Staff statistics are integers. The displayed numbers are whatever the store holds.
- Status changes, assignment and timeline updates are not modelled: the issue drawer's Save button (client/pages/Issues.tsx:181) has no handler, so there is no transition to model.
- The map page, the layout sidebar, the background artwork, the chart and UI component libraries, and class-name merging are presentation only.

## Findings

| source | as written | input that shows it | evidently intended | confidence | as-written member | corrected member |
|---|---|---|---|---|---|---|
| client/context/I18nContext.tsx:50 | the stored language is cast to `LanguageCode` without a check, so any non-empty stored value becomes the language | local storage "lang" = "fr": `messages["fr"]` is undefined and every `t(key)` throws a TypeError | fall back to "en" unless the stored value is "en" or "hi" | medium, not executed | I18n.UncheckedStoredLanguageBreaksT | I18n.CheckedStartNeverFails |
