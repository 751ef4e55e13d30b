# Toggl Worklog API client, modelled in Dafny

The Toggl Worklog integration reports worked time from Toggl Track to Home
Assistant. Its core is the `TogglApi` client class. It keeps:

- a stripped API token, the workspace id and a sync period in months;
- one cache: the time entries of the sync period, fetched once and then reused.

Six windows are computed from the cache:

- three rolling windows: the last 24, 168 and 720 hours before now;
- three calendar windows: today, this week from Monday, and this month.

Each window is summed into milliseconds, whole hours and remaining minutes.
The client also validates its token against the `/me` endpoint. That
endpoint answers in one of three JSON layouts.

The model has one module per concern:

| module | what it holds |
|---|---|
| `Wrappers` | `Option` and `Result` |
| `Seqs` | order-preserving subsequences |
| `Calendar` | the proleptic Gregorian calendar as Python's `datetime` implements it: ordinals, weekday, `date - timedelta(days=…)`, `datetime - timedelta(hours=…)`, naive comparison |
| `IsoFormat` | `date.isoformat()`, the range strings sent to the API, and a parser for the restricted RFC 3339 (section 5.6) `date-time` form they use |
| `Token` | Python's `str.strip()` whitespace and the token preview |
| `Transport` | `_make_request`: every failure becomes one `TogglApiError` |
| `Entries` | normalisation, the two filters, the total, the summary and the windows. Each loop is a method, proved against a recursive specification function. |
| `Validation` | decoded JSON, Python's `in` / `.get` / `==` / `int()` on it, and the if/elif chain of `validate_api_token` |
| `Client` | the `TogglApi` class, its cache field and the methods that use it |

The HTTP server and the clock are parameters:

- Each method that may send a request receives the server's answer to that
  request as an `HttpOutcome`: what the session ends with once its retries
  are spent. That is a response with a status and a body, a connect timeout,
  a read timeout, a connection failure, or any other failure.
- The class keeps a ghost log of the time-entries queries it sent. This is how the cache
  contracts say "no request was made".
- `now` is one clock reading, and `today` is its date.

A failed fetch becomes an empty list, and that empty list is cached like any
other result. So until `clear_cache`, every window reports nothing.
`Client.CacheLifecycle` states this.

## Model

| member | source | states |
|---|---|---|
| Token.Strip | custom_components/toggl_worklog/api.py:34 | the stripped token is a contiguous piece of the raw token; what is removed on each side is whitespace; the result neither starts nor ends with whitespace |
| Token.StripEmptyIffBlank | custom_components/toggl_worklog/api.py:34-38 | the stripped token is empty exactly when the raw token is all whitespace, which is when construction raises |
| Token.StripIdempotent | custom_components/toggl_worklog/api.py:34 | stripping the stored token again changes nothing |
| Token.StripKeepsTrimmed | custom_components/toggl_worklog/api.py:34 | a string that neither starts nor ends with whitespace is left as it is |
| Token.TokenPreview | custom_components/toggl_worklog/api.py:42 | a token longer than 8 characters is shown as its first 4 characters, `...` and its last 4 (11 characters in all); a shorter one is shown as `***` |
| Token.PreviewRevealsLess | custom_components/toggl_worklog/api.py:42 | apart from `...`, the preview's characters are drawn from the token, and there are fewer of them than the token has |
| Token.PreviewDependsOnlyOnEnds | custom_components/toggl_worklog/api.py:66 | two long tokens with the same first and last four characters get the same preview |
| IsoFormat.FormatFixed | custom_components/toggl_worklog/api.py:112 | a zero-padded decimal field has exactly its width, and all its characters are digits |
| IsoFormat.ParseDigits | custom_components/toggl_worklog/api.py:112-113 | a digit string has a value exactly when all its characters are digits, and that value is below 10 to the power of its length |
| IsoFormat.ParseFormatFixed | custom_components/toggl_worklog/api.py:112 | reading back a zero-padded field gives the number it was written from |
| IsoFormat.FormatParseDigits | custom_components/toggl_worklog/api.py:112 | writing a parsed digit string back at its own width gives the same string |
| IsoFormat.IsoDate | custom_components/toggl_worklog/api.py:112 | `isoformat()` is 10 characters long, with dashes at positions 4 and 7 |
| IsoFormat.ParseUtc | custom_components/toggl_worklog/api.py:112-113 | an accepted `YYYY-MM-DDTHH:MM:SSZ` string is 20 characters long and names a valid date-time in UTC |
| IsoFormat.RangeQuery | custom_components/toggl_worklog/api.py:112-118 | `start_date` parses as midnight UTC of the first day, and `end_date` as 23:59:59 UTC of the last day |
| IsoFormat.RangeStartParses | custom_components/toggl_worklog/api.py:112 | `<date>T00:00:00Z` is a well-formed RFC 3339 date-time naming that day's midnight in UTC |
| IsoFormat.RangeEndParses | custom_components/toggl_worklog/api.py:113 | `<date>T23:59:59Z` is a well-formed RFC 3339 date-time naming that day's last whole second in UTC |
| IsoFormat.RangeQueryInjective | custom_components/toggl_worklog/api.py:112-118 | different date ranges give different query parameters |
| IsoFormat.RangeBoundsOrdered | custom_components/toggl_worklog/api.py:112-113 | for an ordered pair of days, the lower bound does not come after the upper bound |
| Transport.MakeRequest | custom_components/toggl_worklog/api.py:51-107 | success exactly for a response with a status below 400 or at least 600 and a body that is empty or JSON; the decoded body is `None` exactly when the body is empty; a 4xx or 5xx status the session does not retry is reported as an HTTP error with that status; a retried status (402, 429, 500, 502, 503, 504) still answered after the retries, a spent read timeout and a connection failure are communication errors; the failure is a timeout exactly for a connect timeout |
| Calendar.Weekday | custom_components/toggl_worklog/api.py:241 | `weekday()` lies in 0..6 |
| Calendar.DateLeIffOrdinalLe | custom_components/toggl_worklog/api.py:170 | Python's field-wise date order is the order of the day ordinals, and the ordinal identifies the date |
| Calendar.SubDays | custom_components/toggl_worklog/api.py:210 | `d - timedelta(days=n)` is a valid date whose ordinal is `n` less |
| Calendar.SubDaysIsFromOrdinal | custom_components/toggl_worklog/api.py:210 | that date is the only valid date with that ordinal |
| Calendar.StartOfWeek | custom_components/toggl_worklog/api.py:241 | `today - timedelta(days=today.weekday())` is a valid date whose ordinal is the weekday less than today's |
| Calendar.WeekdayAnchor | custom_components/toggl_worklog/api.py:241 | 2025-01-06 has weekday 0 (Monday) and 2025-01-05 weekday 6 (Sunday) |
| Calendar.StartOfWeekIsMonday | custom_components/toggl_worklog/api.py:241 | the week window starts on a Monday |
| Calendar.StartOfWeekWithinSixDays | custom_components/toggl_worklog/api.py:241 | the week window starts no later than today and at most six days earlier |
| Calendar.StartOfWeekIsLatestMonday | custom_components/toggl_worklog/api.py:241 | every Monday on or before today is on or before the week's start |
| Calendar.StartOfMonth | custom_components/toggl_worklog/api.py:248 | `today.replace(day=1)` is a valid first of a month, on or before today |
| Calendar.MonthWindowIsCurrentMonth | custom_components/toggl_worklog/api.py:248-250 | a day lies in `[start of month, today]` exactly when it is in today's year and month and not after today |
| Calendar.WeekWindowIsCurrentWeek | custom_components/toggl_worklog/api.py:241-243 | a day lies in `[start of week, today]` exactly when its ordinal is between the Monday's and today's |
| Calendar.NaiveLeIffMicrosLe | custom_components/toggl_worklog/api.py:199 | comparing naive date-times field by field is comparing their microsecond counts |
| Calendar.SubHours | custom_components/toggl_worklog/api.py:185 | `now - timedelta(hours=h)` is a valid date-time with the same offset, exactly `h` hours earlier |
| Calendar.SubHoursDefinedIffInRange | custom_components/toggl_worklog/api.py:185 | the subtraction stays in the calendar exactly when the result is not before 0001-01-01T00:00, which is when Python does not raise `OverflowError` |
| Calendar.SubHoursAntitone | custom_components/toggl_worklog/api.py:185 | looking further back gives an earlier or equal cutoff |
| Entries.FetchedEntries | custom_components/toggl_worklog/api.py:122-131 | a non-empty result comes only from a successful JSON response and is its body; a successful JSON response gives exactly its body; every failure gives `[]` |
| Entries.FailedFetchIsEmpty | custom_components/toggl_worklog/api.py:126-131 | a failed request normalises to no entries |
| Entries.ToTimeEntries | custom_components/toggl_worklog/api.py:147-156 | re-keying keeps the length, and each output entry is the re-keyed input at the same position, with `seconds` equal to the duration |
| Entries.NormalizeEntries | custom_components/toggl_worklog/api.py:133-159 | the append loop returns the re-keyed completed entries |
| Entries.CompletedEntriesExact | custom_components/toggl_worklog/api.py:139-145 | the kept raw entries are an order-preserving subsequence, containing each entry with a duration (0 when missing) of at least 0 as often as the input does, and no other entry |
| Entries.NormalizedNonNegative | custom_components/toggl_worklog/api.py:139-156 | every normalised entry has `seconds`, and it is not negative |
| Entries.FilterEntriesByDate | custom_components/toggl_worklog/api.py:161-172 | the append loop returns the entries that have a start whose date is in `[start_date, end_date]` |
| Entries.OnDatesExact | custom_components/toggl_worklog/api.py:161-172 | that result is an order-preserving subsequence, containing exactly the entries with a start on one of those days, as often as the input does |
| Entries.OnDatesWiden | custom_components/toggl_worklog/api.py:161-172 | moving the first day earlier keeps every entry kept before |
| Entries.FilterEntriesByTimestamp | custom_components/toggl_worklog/api.py:174-202 | the append loop returns the entries whose start, with its offset discarded, is not before `now - hours_ago` |
| Entries.SinceCutoffExact | custom_components/toggl_worklog/api.py:187-202 | that result is an order-preserving subsequence, containing exactly the entries started since the cutoff, as often as the input does |
| Entries.SinceCutoffAntitone | custom_components/toggl_worklog/api.py:199 | an earlier cutoff keeps every entry a later cutoff keeps |
| Entries.StartedSinceIffWithinHours | custom_components/toggl_worklog/api.py:184-199 | an entry passes exactly when its wall-clock start, offset ignored, is at most `hours_ago` hours before `now` |
| Entries.CalculateTotalDuration | custom_components/toggl_worklog/api.py:252-265 | the accumulating loop returns 1000 times the sum of the seconds that are present |
| Entries.SumSecondsAppend | custom_components/toggl_worklog/api.py:261-265 | the total of two lists together is the sum of their totals |
| Entries.SumSecondsSubseq | custom_components/toggl_worklog/api.py:261-265 | over non-negative durations, a subsequence never totals more |
| Entries.SumSecondsNonNegative | custom_components/toggl_worklog/api.py:261-265 | non-negative durations total at least 0 |
| Entries.TotalExamples | tests/test_api.py:76-92 | 3600 s gives 3 600 000 ms; 1800 s twice gives 3 600 000 ms; 100 s and 200 s give 300 000 ms; `[]` gives 0; a null gives 0; 60 s, a null and 120 s give 180 000 ms |
| Entries.WorkedTimeSummaryOf | custom_components/toggl_worklog/api.py:272-283 | the total is in milliseconds; the minutes are below 60; hours and minutes bracket the total to the minute; the count and the entries are those of the window |
| Entries.DecompositionUnique | custom_components/toggl_worklog/api.py:279-280 | whole hours and minutes below 60 that bracket the total to the minute are exactly `total // 3600000` and `(total % 3600000) // 60000` |
| Entries.Window.LookbackHours | custom_components/toggl_worklog/api.py:217-230 | the rolling windows look back whole days: 24, 168 and 720 hours |
| Entries.Window.StartDate | custom_components/toggl_worklog/api.py:232-250 | each calendar window starts on a valid day no later than today: today for the day window, and the first of today's month for the month window |
| Entries.RollingWindowsNested | custom_components/toggl_worklog/api.py:217-230 | the last 24 hours' entries are a subsequence of the last 168 hours', which are a subsequence of the last 720 hours' |
| Entries.CalendarWindowsNested | custom_components/toggl_worklog/api.py:232-250 | today's entries are a subsequence of this week's and of this month's |
| Entries.CalendarWindowDays | custom_components/toggl_worklog/api.py:232-250 | a dated entry is kept by the day window exactly when it starts today; by the week window exactly when it starts from Monday to today; by the month window exactly when it starts in today's month, up to today |
| Entries.RollingTotalsOrdered | custom_components/toggl_worklog/api.py:285-295 | the 24-hour total is at most the 7-day total, which is at most the 30-day total |
| Validation.In | custom_components/toggl_worklog/api.py:315 | Python's `in` tests a dict's keys and a list's elements; it raises `TypeError` exactly on `None`, booleans and numbers |
| Validation.Get | custom_components/toggl_worklog/api.py:317 | `.get(key, default)` gives the value stored under the key, or the default when there is none |
| Validation.AnyWorkspace | custom_components/toggl_worklog/api.py:318 | an empty workspace list matches nothing |
| Validation.AnyWorkspaceTrueIff | custom_components/toggl_worklog/api.py:318 | `any(...)` answers `True` exactly when some workspace carries the id and every workspace before it is a dict |
| Validation.AnyWorkspaceRaises | custom_components/toggl_worklog/api.py:318 | the scan of a list of dicts never raises once the id is an int; it raises only because of an element that is not a dict or a workspace id `int()` rejects |
| Validation.AnyInWorkspaces | custom_components/toggl_worklog/api.py:317-318 | a list is scanned; `None`, booleans and numbers are not iterable and raise `TypeError` |
| Validation.PyInt | custom_components/toggl_worklog/api.py:318 | `int()` accepts a string exactly when, once stripped, it is an optional `+` or `-` followed by at least one ASCII digit |
| Validation.IntLiteral | custom_components/toggl_worklog/api.py:318 | an integer literal is read exactly when it has that shape, and is `None` on any other |
| Validation.IntLiteralSigned | custom_components/toggl_worklog/api.py:318 | digits read as their decimal value, unchanged after `+` and negated after `-` |
| Validation.PyIntOfDigits | custom_components/toggl_worklog/api.py:318 | a plain digit string reads as its decimal value |
| Validation.PyIntIgnoresSurroundingSpace | custom_components/toggl_worklog/api.py:318 | `int()` ignores the whitespace around the id |
| Validation.Classify | custom_components/toggl_worklog/api.py:315-329 | a falsy answer is unrecognised; a dict never raises; the nested layout is chosen only for a dict whose `me` is a dict; the list layout only for a non-empty list, with its first element; the flat layout only for a dict with `default_workspace_id` whose `me` is missing or is not a dict |
| Validation.CheckLayout | custom_components/toggl_worklog/api.py:315-335 | an unrecognised answer is `False`; the nested layout looks only at `me.workspaces[].id` (default `[]`); the list layout raises `AttributeError` when its first element is not a dict and otherwise looks only at that element's `workspaces[].workspace_id` (default `[]`); the flat layout is the equality of `default_workspace_id` with the id, and raises `ValueError` when the id is not an integer |
| Validation.CheckResponse | custom_components/toggl_worklog/api.py:312-335 | a falsy answer (`None`, `{}`, `[]`, …) is `False` |
| Validation.ValidateApiToken | custom_components/toggl_worklog/api.py:309-338 | a failed request is `False`; otherwise the verdict is the one on the decoded answer, with an empty body read as `None` |
| Validation.NestedMeDecides | custom_components/toggl_worklog/api.py:315-319 | with a `me` dict, the answer is `True` exactly when one of its workspaces carries the id after only dicts; a flat `default_workspace_id` next to it is never consulted |
| Validation.UserListDecides | custom_components/toggl_worklog/api.py:322-326 | a non-empty list without the string `"me"`, whose first user is a dict with a workspace list, is `True` exactly when one of those workspaces carries the id as `workspace_id` after only dicts |
| Validation.FlatDefaultDecides | custom_components/toggl_worklog/api.py:328-331 | a flat answer is `True` exactly when `default_workspace_id` equals the id |
| Validation.FailedRequestIsInvalid | custom_components/toggl_worklog/api.py:337-338 | whenever the request raises `TogglApiError`, whatever the kind, validation gives `False` and raises nothing |
| Validation.EmptyAnswersAreInvalid | custom_components/toggl_worklog/api.py:312-335 | an empty body, `{}` and `[]` give `False` |
| Validation.OnlyMeAnswer | custom_components/toggl_worklog/api.py:315-317 | an answer holding only a `me` dict is read by the nested layout |
| Validation.OneUserAnswer | custom_components/toggl_worklog/api.py:322-324 | a one-user list is read by the list layout |
| Validation.ExampleId | custom_components/toggl_worklog/api.py:318 | `int("1234567")` is 1234567 |
| Validation.NestedMeExamples | tests/test_api.py:44-47 | the nested layout with the configured workspace is `True`, and with another workspace it is `False` |
| Validation.UserListExamples | tests/test_api.py:48-51 | the list layout with the configured workspace is `True`, and with another workspace it is `False` |
| Validation.FlatDefaultExamples | tests/test_api.py:52-55 | the flat layout with the configured default is `True`, and with another default it is `False` |
| Validation.NoUserDataExamples | tests/test_api.py:56-59 | `{}`, `{"me": {}}` and `[]` are `False` for every workspace id |
| Client.SyncQuery | custom_components/toggl_worklog/api.py:209-213 | the sync request's parameters name 30 × `sync_months` days before today as the first day and today as the last |
| Client.WindowEntriesWithinSync | custom_components/toggl_worklog/api.py:217-250 | every window's entries are an order-preserving subsequence of the synced entries |
| Client.WindowTotalWithinSync | custom_components/toggl_worklog/api.py:272-283 | no window's total is negative or larger than the sync period's total |
| Client.TogglApi.constructor | custom_components/toggl_worklog/api.py:32-49 | the stored token is the stripped token; the id and the sync months are kept as given; the cache is empty; the invariant holds |
| Client.TogglApi.Create | custom_components/toggl_worklog/api.py:32-38 | construction fails exactly for a blank token, and otherwise gives a fresh client as the constructor does |
| Client.TogglApi.GetTimeEntries | custom_components/toggl_worklog/api.py:133-159 | exactly one request is sent, for the inclusive range; the result is the normalised answer, with no negative durations |
| Client.TogglApi.AllEntriesForSyncPeriod | custom_components/toggl_worklog/api.py:204-215 | with a cached list, that list is returned and no request is sent; without one, exactly one request for the sync period is sent, and its normalised answer is returned and cached |
| Client.TogglApi.ClearCache | custom_components/toggl_worklog/api.py:267-269 | the cache is empty again |
| Client.TogglApi.GetWindowEntries | custom_components/toggl_worklog/api.py:217-250 | the result is the window's filter applied to the cached entries, and is a subsequence of them; a filled cache is reused without a request; an empty one is filled by exactly one sync-period request |
| Client.TogglApi.GetWorkedTime | custom_components/toggl_worklog/api.py:272-307 | the summary is that of the window's entries; its total is not negative and at most the sync period's total; hours and minutes bracket it to the minute; a filled cache is reused without a request, an empty one is filled by exactly one sync-period request |
| Client.TogglApi.ValidateApiToken | custom_components/toggl_worklog/api.py:309-338 | the client's verdict for its own workspace id, which is `False` whenever the request fails |
| Client.CacheLifecycle | tests/test_api.py:120-130 | two reads without `clear_cache` both return the first answer's entries, whatever the second answer; a failed first request leaves `[]` cached; after `clear_cache` the next read returns the new answer's entries |

## Left out

- HTTP transport: the `requests` session, the number of attempts and the backoff between them, the timeout value, authentication headers and `close()` belong to foreign libraries. The model receives the server's answer to each request as a parameter (`HttpOutcome`).
- Logging is not modelled, apart from the token preview string it prints.
- `datetime.now()` and `date.today()` are one parameter `now`, whose date is today. The source reads the clock separately in each method, so around midnight its readings can disagree; the model does not capture that.
- `datetime.fromisoformat` on an entry's `start` is not modelled. An entry carries its start already parsed, or `None` when it is missing or empty. A malformed `start` raises in the source, and the model has no such entry.
- An explicit JSON `null` `duration` raises `TypeError` in the source's comparison. The model's `None` stands for a missing key only, which counts as 0.
- Time-entries answers whose JSON body is not a list of entry objects are not modelled. Such a body in the source would raise or be iterated oddly.
- JSON numbers are integers. Floats in `/me` answers and float durations are not modelled.
- `Validation.PyInt`: Python's `int()` also accepts underscores between digits and non-ASCII decimal digits. The model rejects both, so for such ids it raises `ValueError` where Python does not.
- `sync_months` is a natural number. A negative value, which would make Python fetch a range starting in the future, is not modelled.
- `Client.TogglApi.AllEntriesForSyncPeriod`, `Client.TogglApi.GetWindowEntries` and `Client.TogglApi.GetWorkedTime` require the sync start, and for rolling windows the cutoff, not to fall before year 1. Python raises `OverflowError` there; the model does not capture that error.
- Concurrency: two sensors reading an empty cache at the same time can both fetch. The model is sequential.
- `sensor.py`, `config_flow.py` and `__init__.py` are not part of this model: Home Assistant entities, the setup wizard and the refresh service. `const.py` contributes only constants.
- The model follows the code where the tests in `tests/test_api.py` disagree with it:
  - `get_time_entries` does not flatten grouped answers (the test at lines 94-106 expects it to).
  - A `TogglApiError` during validation gives `False` rather than an exception (the test at lines 70-74 expects an exception).
