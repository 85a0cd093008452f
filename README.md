# mood-app core, modelled in Dafny

This project models the deterministic core of the mood-journaling app.

- **Task list and analytics of the Today page.** This covers the task list and its optimistic add, toggle and delete. It also covers the UTC date key of an instant ("YYYY-MM-DD"), the seven-day `weeklySummary` loop, and today's count. The goal figures are the floored goal, the rounded completion rate, the weekly total and goal, the bar scale, and the goal field's input coercion.
- **Progress screen.** It reads route parameters with defaults and recomputes the goal figures.
- **Request shaping of the Express backend.** This covers `parseDateOrNow`, the validation and defaults of task creation, and the PATCH field builder. It also covers the journal upsert keyed by date, chat transcript normalisation with its reply fallback, and the CORS origin callback.
- **Journal note editor.** This covers the 1000-character guard, the counter's near-limit flag and prompt insertion.
- **Support-chat card.** Its send is a state machine over the card's messages, input and loading flag.

Time values are integer milliseconds. The UTC day of an instant is `t / 86400000`, and "now" is always a parameter. A network call or a database query is never run. Its outcome is a parameter: a success flag, the returned row, or the model's reply.

Modules:

| file | module | contents |
|---|---|---|
| maybe.dfy | Maybe | `Option` |
| strings.dfy | Strings | JavaScript `trim`, `trimEnd`, `parseInt(s, 10)` and decimal numerals |
| date_keys.dfy | DateKeys | days to civil dates, and `toISOString().slice(0, 10)` |
| task_routes.dfy | TaskRoutes | `parseDateOrNow`, `POST /api/tasks` validation, the PATCH builder and its SQL |
| tasks.dfy | Tasks | the client task record, the list transforms, and the `TaskBoard` class holding the `tasks` state |
| analytics.dfy | Analytics | the weekly loop (a method with a loop) and the derived figures |
| progress_page.dfy | ProgressPage | app/progress.js |
| journal_route.dfy | JournalRoute | `POST /api/journal` as an upsert on a map, and `saveToday` |
| chat_route.dfy | ChatRoute | `POST /api/chat`: the transcript loop (a method with a loop), its specification and the reply |
| cors_policy.dfy | CorsPolicy | the CORS `origin` callback |
| journal_input.dfy | JournalInput | the note editor's rules, as functions that return the new note |
| support_chat.dfy | SupportChat | the `SupportCard` class with the card's state and its send steps |

Two behaviours of the code are worth stating directly.

- **Tasks with an unparseable `createdAt`.** On the Today page (app/TodayPage.jsx:168), `getDateKey(t.createdAt || today)` puts a task into today's bucket only when `createdAt` is falsy. A truthy string that does not parse makes `new Date(...).toISOString()` throw `RangeError`. The model's `Task.createdAt` is an instant or `None` (falsy), so the client-side case cannot arise. On the server, `parseDateOrNow` (backend/index.js:83-87) maps a falsy or unparseable value to "now" (`TaskRoutes.ParseDateOrNow`).
- **Years outside 0000 to 9999.** The comment on `getDateKey` (app/TodayPage.jsx:24) calls its result `"YYYY-MM-DD"`. For years outside 0000 to 9999, `toISOString` writes an expanded year such as "+010000", and the ten-character slice stops after the month. Days of one month then share a key (`DateKeys.ExpandedYearsCollide`). Uniqueness of keys, and the week-level facts that rest on it, are proved for four-digit years.

## Model

| member | source | states |
|---|---|---|
| DateKeys.CivilOf | app/TodayPage.jsx:25-28 | the UTC calendar date of a day number is a valid proleptic Gregorian date, and converting it back gives the same day number |
| DateKeys.FourDigitYears | app/TodayPage.jsx:25-28 | the days from 0000-01-01 to 9999-12-31 are exactly the day numbers `FirstDay..LastDay` |
| DateKeys.KeyOfDay | app/TodayPage.jsx:27 | the key of any day is 10 characters long, and for a four-digit year it is the full ISO date |
| DateKeys.DateKey | app/TodayPage.jsx:25-28 | `getDateKey(t)` has 10 characters, and for a four-digit year it is the ISO date of t's UTC day |
| DateKeys.KeyOfDayShape | app/TodayPage.jsx:25-28 | for a four-digit year the key has the `YYYY-MM-DD` shape: hyphens at positions 4 and 7 and digits everywhere else |
| DateKeys.IsoDateFields | app/TodayPage.jsx:27 | the year, month and day fields sit at [0,4), [5,7) and [8,10) as zero-padded numerals |
| DateKeys.DateKeySameDay | app/TodayPage.jsx:25-28 | two instants on the same UTC day get the same key |
| DateKeys.KeyOfDayInjective | app/TodayPage.jsx:25-28 | two four-digit-year days with the same key are the same day |
| DateKeys.KeyOfDayMatches | app/TodayPage.jsx:25-28 | a four-digit-year day shares its key with no other day, whatever that day's year |
| DateKeys.KeyOfDayFirstChar | app/TodayPage.jsx:27 | a key starts with a digit exactly for the four-digit years, and otherwise with the sign of the expanded year |
| DateKeys.DateKeySameDayIff | app/TodayPage.jsx:25-28 | two instants of four-digit years share a key if and only if they fall on the same UTC day |
| DateKeys.ExpandedYearsCollide | app/TodayPage.jsx:27 | 10000-01-01 and 10000-01-02 both get the key "+010000-01" |
| DateKeys.DateKeyOfEpoch | app/TodayPage.jsx:25-28 | instant 0 has the key "1970-01-01" |
| DateKeys.DateKeyOfLeapDay | app/TodayPage.jsx:25-28 | 2024-02-29T00:00:00Z has the key "2024-02-29" |
| Strings.TrimEnd | components/JournalInput.native.jsx:25 | `trimEnd` gives the prefix that ends just before the trailing white space, and that prefix does not end in white space |
| Strings.Trim | components/SupportChatCard.native.jsx:42 | `trim` gives the slice from the first non-space character to the last, and nothing of it is white space at either end |
| Strings.TrimEmptyIffBlank | app/TodayPage.jsx:71 | a string trims to the empty string if and only if every character is white space |
| Strings.ParseInt | app/TodayPage.jsx:207 | `parseInt(s, 10)` is `NaN` exactly when no digit follows the leading white space and an optional sign; the number read is given by `Strings.ParseIntOfParts` |
| Strings.ParseIntOfParts | app/TodayPage.jsx:207 | on white space, an optional `+` or `-`, a run of digits and a rest that does not start with a digit, `parseInt` gives the value of that run, negated after `-` |
| Strings.ParseIntOfNatToString | app/TodayPage.jsx:205-208 | `parseInt(String(n), 10) == n` for every n ≥ 0, over unbounded integers; JavaScript keeps this only below 10^21 (see "## Left out") |
| TaskRoutes.ParseDateOrNow | backend/index.js:83-87 | a falsy or unparseable `createdAt` gives the server's now; an instant is kept |
| TaskRoutes.ValidateCreate | backend/index.js:107-117 | 400 "text is required" if and only if `text` is missing, not a string, or empty; otherwise the text is kept, `done` is stored as 1 exactly when it was true (else 0), `source` defaults to "web", and `created_at` is `parseDateOrNow(createdAt)` |
| TaskRoutes.BuildPatch | backend/index.js:138-153 | 400 "Nothing to update" if and only if neither a string `text` nor a boolean `done` is given; otherwise one assignment and one value per given field, text before done, then the id; the statement has exactly one placeholder per bound value |
| TaskRoutes.PatchPlaceholdersMatch | backend/index.js:153-155 | the built `UPDATE` statement has as many `?` as values, one more than the assignments |
| TaskRoutes.PlaceholdersOfJoin | backend/index.js:155 | joining one-placeholder assignments with ", " gives one placeholder per assignment |
| Tasks.SetDone | app/TodayPage.jsx:106-108 | the `map` keeps the length and order, sets `done` to the given value on the tasks with the id, and leaves every other task as it was |
| Tasks.Without | app/TodayPage.jsx:124 | the `filter` is no longer than the list, and every task it keeps is from the list and has another id |
| Tasks.Toggled | app/TodayPage.jsx:99-119 | the list after a toggle has the same length, and each position keeps its id, text and creation time; an id no task has leaves the list as it was |
| Tasks.Deleted | app/TodayPage.jsx:121-133 | a failed delete gives back the snapshot; after a successful one every task left is from the list and has another id |
| Tasks.FromRows | app/TodayPage.jsx:50-57 | the loaded list has one task per row, in order, each mapped from its row |
| Tasks.Find | app/TodayPage.jsx:100 | `find` is `None` exactly when no task has the id; otherwise it is the first task with the id |
| Tasks.TaskBoard.constructor | app/TodayPage.jsx:43 | the task list starts empty |
| Tasks.TaskBoard.Load | app/TodayPage.jsx:47-61 | a successful GET replaces the list with the mapped rows; a failed one keeps it |
| Tasks.TaskBoard.AddTask | app/TodayPage.jsx:70-97 | blank text sends nothing and keeps the list; otherwise the request is the text, not done, created now, from "mobile", and a created row is put in front of the list |
| Tasks.TaskBoard.ToggleTask | app/TodayPage.jsx:99-119 | an unknown id sends nothing; otherwise the PATCH carries the negated `done`, and the list becomes the optimistic flip, reverted when the PATCH fails |
| Tasks.TaskBoard.DeleteTask | app/TodayPage.jsx:121-133 | the list becomes the filtered list on success and the snapshot on failure |
| Tasks.ToggleSucceeds | app/TodayPage.jsx:106-108 | a successful toggle keeps the length and order, flips `done` on the tasks with the id, and changes no other task and no other field |
| Tasks.ToggleUnknownId | app/TodayPage.jsx:100-101 | toggling an id no task has changes nothing, whatever the outcome |
| Tasks.ToggleFailureRestores | app/TodayPage.jsx:114-117 | a failed toggle restores the list when the tasks with that id agree on `done` |
| Tasks.ToggleFailureWithRepeatedId | app/TodayPage.jsx:114-117 | with two tasks that share an id and disagree on `done`, a failed toggle does not restore the list |
| Tasks.WithoutRemovesExactly | app/TodayPage.jsx:124 | the filter keeps no task with the id, and keeps every task without it as many times as it occurs |
| Tasks.WithoutAbsentId | app/TodayPage.jsx:124 | filtering on an id no task has keeps the whole list |
| Tasks.WithoutKeepsOrder | app/TodayPage.jsx:124 | the filter distributes over concatenation, so the survivors keep their order |
| Tasks.DeleteOutcomes | app/TodayPage.jsx:121-133 | a failed delete gives back the snapshot; after a successful one a task is in the list if and only if it was there and has another id |
| Tasks.AddTaskRoundTrip | app/TodayPage.jsx:70-93 | the POST that `addTask` sends for non-blank text passes the server's validation with source "mobile", and the returned row maps back to the same text, not done, created at the client's now |
| Analytics.Intensity | app/TodayPage.jsx:172 | the intensity is between 0 and 100, is 100 if and only if at least five tasks were completed, and is 20 per task below that; the goal plays no part |
| Analytics.Entry | app/TodayPage.jsx:157-174 | an entry is labelled "Today" exactly when it is the day 0 days back; its count is at most the number of done tasks; its intensity is `Intensity(completed)`, that is `min(100, 20·completed)` |
| Analytics.WeekOf | app/TodayPage.jsx:155-177 | the reference week: seven entries, entry i for the day 6 − i days back |
| Analytics.BuildWeeklySummary | app/TodayPage.jsx:155-177 | the loop yields exactly seven entries, entry i for the day 6 − i days back, each with that day's key, its label, its count and its intensity |
| Analytics.ComputeAnalytics | app/TodayPage.jsx:155-192 | the figures come from the week the loop built; today's count is that week's last entry's; the goal is at least 1; the rate is within 0..100; the weekly goal is seven goals and the bar scale one; for four-digit years the weekly total is the number of done tasks created in those seven days and at most the number of done tasks |
| Analytics.CompletedToday | app/TodayPage.jsx:179-181 | today's count is the count of the summary's entry for today, and at most the number of done tasks |
| Analytics.TotalCompleted | app/TodayPage.jsx:183 | the weekly total is at least each entry's count, and 0 for an empty summary |
| Analytics.StatsOf | app/TodayPage.jsx:179-192 | today's count is today's entry's count and the weekly total is the summary's sum; the goal is `SafeGoal(dailyGoal)`, so a positive `dailyGoal` and otherwise 1; the rate is `CompletionRate(completedToday, safeGoal)`, that is `min(100, round(100·completedToday/safeGoal))`, so within 0..100 and 100 once the count reaches the goal; the weekly goal is seven goals and the bar scale one |
| Analytics.SafeGoal | app/TodayPage.jsx:185 | the goal is at least 1, equals `dailyGoal` when that is positive, and is 1 otherwise |
| Analytics.RoundedPercent | app/TodayPage.jsx:188 | the result is the integer nearest to 100·c/g, halves rounded up |
| Analytics.CompletionRate | app/TodayPage.jsx:186-189 | the rate is `min(100, round(100·c/g))`: the rounded percentage when that is below 100, and 100 otherwise; it is non-negative for a non-negative count, and 100 once the count reaches the goal |
| Analytics.RoundedPercentMonotone | app/TodayPage.jsx:188 | rounding keeps the order of the counts |
| Analytics.CompletionRateMonotone | app/TodayPage.jsx:186-189 | completing more tasks never lowers the completion rate |
| Analytics.RoundedPercentBounds | app/TodayPage.jsx:186-189 | a count of 0 rounds to 0, a non-negative count to at least 0, and a count at the goal or above to at least 100 |
| Analytics.GoalFromInput | app/TodayPage.jsx:206-209 | the goal field always sets a goal of at least 1; non-numeric text gives 1 and a number below 1 gives 1 |
| Analytics.GoalInputRoundTrip | app/TodayPage.jsx:205-209 | the text the field shows for a goal reads back as that goal, over unbounded integers; JavaScript keeps this only below 10^21 (see "## Left out") |
| Analytics.CompletedOnDay | app/TodayPage.jsx:167-169 | a task is counted under a four-digit-year day's key if and only if it is done and was created that day, or has no creation time and today is that day |
| Analytics.CountCompletedByDay | app/TodayPage.jsx:167-169 | counting by that key equals counting done tasks created on that day |
| Analytics.CompletedTodayByDay | app/TodayPage.jsx:179-181 | for four-digit years, today's count is the number of done tasks created today |
| Analytics.EntryCounts | app/TodayPage.jsx:167-169 | for four-digit years, each entry's count is the number of done tasks created on its day |
| Analytics.TodayLabelOnlyLast | app/TodayPage.jsx:162-165 | an entry is labelled "Today" if and only if it is the last one |
| Analytics.WeekKeysDistinct | app/TodayPage.jsx:157-161 | entry i carries the key of the day 6 − i days back, and two entries share a key only if they are the same entry |
| Analytics.CompletedTodayIsLastEntry | app/TodayPage.jsx:179-181 | `completedToday` equals the last entry's `completed` |
| Analytics.CountCompletedAtMostDone | app/TodayPage.jsx:167-169 | no day counts more tasks than are done, and with none done every count is 0 |
| Analytics.TaskLandsInItsDay | app/TodayPage.jsx:167-169 | for a week in four-digit years, adding a done task created k days back raises the entry k days back by one and no other entry |
| Analytics.MissingCreatedAtCountsToday | app/TodayPage.jsx:168 | for a week in four-digit years, adding a done task without a creation time raises today's entry by one and no other entry |
| Analytics.TotalIsWeekDayTotal | app/TodayPage.jsx:183 | for a week in four-digit years, the reduce over the summary sums the days' counts of done tasks |
| Analytics.WeekDayTotalAtMostDone | app/TodayPage.jsx:183 | over any run of days the summed count is at most the number of done tasks |
| Analytics.WeeklyTotalAtMostDone | app/TodayPage.jsx:183 | `totalCompletedWeek` never exceeds the number of done tasks |
| Analytics.ExampleTwoOfFive | app/TodayPage.jsx:179-189 | two done tasks and one open one, created today in a four-digit year, against goal 5: the page's count is 2, the goal 5 and the rate 40 |
| Analytics.ExampleZeroGoal | app/TodayPage.jsx:185-189 | goal 0 is floored to 1, and three completions then give the rate 100 |
| ProgressPage.CountOf | app/progress.js:12-13 | a missing count reads 0, a numeric one reads as its number, and anything else is `NaN` |
| ProgressPage.SummaryOf | app/progress.js:15-21 | a parsed summary is shown as parsed; a missing or malformed one is the empty list |
| ProgressPage.RateOf | app/progress.js:24-26 | the rate is `NaN` exactly when the count is, and otherwise the Today page's `CompletionRate` of the count |
| ProgressPage.ViewOf | app/progress.js:12-29 | the goal is at least 1 and equals a positive `dailyGoal`; the weekly goal is seven goals and the bar scale one; a present count is shown as given, a missing one as 0 and a non-number as `NaN`; a parsed summary is shown as parsed, and a missing or malformed one as the empty list; a numeric count's rate is the Today page's `CompletionRate`, so it is at most 100, non-negative for a non-negative count, and 100 at the goal |
| ProgressPage.NoParamsView | app/progress.js:12-21 | with no parameters the screen shows zero done, rate 0, total 0 and an empty week |
| ProgressPage.NotANumberRate | app/progress.js:24-26 | a count that is not a number gives a `NaN` rate |
| ProgressPage.AgreesWithTodayPage | app/progress.js:23-29 | given the Today page's parameters and the same goal setting, every figure equals the Today page's |
| JournalRoute.Upsert | backend/index.js:188-198 | the keys become the old keys plus this one; that key holds the posted mood and note, updated now; every other key keeps its row |
| JournalRoute.PostJournal | backend/index.js:184-198 | 400 "dateKey is required" if and only if `dateKey` is missing or empty; otherwise the upsert is done with absent mood or note stored as null, and the answer is the row now stored under the key |
| JournalRoute.UpsertStores | backend/index.js:188-198 | after an upsert the keys are the old keys plus this one, the key holds the posted mood and note, and no other key changes |
| JournalRoute.UpsertExistingKey | backend/index.js:192-195 | posting an existing key adds no row and keeps the row's id and creation time, replacing mood and note |
| JournalRoute.UpsertNewKey | backend/index.js:189-191 | posting a new key adds exactly one row, with an id no other row has |
| JournalRoute.UpsertKeepsValid | backend/index.js:188-198 | upserts keep row ids unique |
| JournalRoute.UpsertIdempotent | backend/index.js:188-198 | posting the same body twice stores what posting it once stores, apart from the update time |
| JournalRoute.PostJournalOutcome | backend/index.js:184-205 | a post with a date key succeeds and answers with the posted mood and note, under the old id when the key existed |
| JournalRoute.SaveTodayAccepted | app/TodayPage.jsx:135-139 | the Today page's save is never refused; it stores the mood and note under today's key, and a second save that day overwrites that row without adding one |
| ChatRoute.ContentOf | backend/index.js:229 | the content is the message's `content` when that is non-empty, and its `text` otherwise |
| ChatRoute.RoleOf | backend/index.js:232 | the role is never system, and is user if and only if the client's role is "user" |
| ChatRoute.Normalised | backend/index.js:228-235 | the client's part of the transcript is no longer than the client's messages |
| ChatRoute.Transcript | backend/index.js:217-236 | the transcript opens with the system prompt and has at most one message more than the client sent |
| ChatRoute.BuildChatMessages | backend/index.js:217-236 | the loop yields the system prompt followed by the normalised client messages, or the prompt alone for a non-array |
| ChatRoute.NormalisedAppend | backend/index.js:228-235 | kept messages stay in their order: normalising a concatenation concatenates the results |
| ChatRoute.NormalisedSingle | backend/index.js:229-234 | a message without content is dropped; one with content yields exactly one message, a user message if and only if its role was "user" |
| ChatRoute.NormalisedMessages | backend/index.js:228-235 | every normalised message has content, is not a system message, and is the conversion of a client message with content |
| ChatRoute.NormalisedKeepsAll | backend/index.js:228-235 | when every client message has content, each is converted in place and none is dropped |
| ChatRoute.ExactlyOneSystemMessage | backend/index.js:217-236 | the transcript starts with the system prompt and holds no other system message; a non-array gives the prompt alone |
| ChatRoute.ReplyOf | backend/index.js:243-245 | the reply is never empty: the model's content when non-empty, else "I'm here with you. I'm listening." |
| ChatRoute.ChatResult | backend/index.js:238-253 | a failed model call gives the 500 body "chat server error" with its apology; otherwise `{ reply }` with the fallback applied |
| ChatRoute.ReplyNeverEmpty | backend/index.js:243-253 | every answer carries a non-empty reply |
| CorsPolicy.Decide | backend/index.js:26-52 | a missing or empty origin takes the first rule; the local and LAN prefixes take the second; only an allow-listed origin takes the third |
| CorsPolicy.EveryOriginAllowed | backend/index.js:26-52 | every origin is allowed |
| CorsPolicy.AllowListUnreachable | backend/index.js:31-48 | every allow-list entry starts with "http://localhost:", so the allow-list rule never decides |
| JournalInput.Remaining | components/JournalInput.native.jsx:16 | `remaining` is at most 1000, and is non-negative exactly when the note is within the limit |
| JournalInput.IsNearLimit | components/JournalInput.native.jsx:17 | the counter warns if and only if the note holds at least 900 characters |
| JournalInput.HandleChange | components/JournalInput.native.jsx:19-21 | an edit within 1000 characters replaces the note; a longer one leaves it; and a note within the limit stays within it |
| JournalInput.EditsKeepLimit | components/JournalInput.native.jsx:19-21 | any run of edits keeps a note within the limit |
| JournalInput.AfterEditsIsLastAccepted | components/JournalInput.native.jsx:19-21 | after a run of edits the note is the last edit within the limit, or the old note if there was none |
| JournalInput.InsertPrompt | components/JournalInput.native.jsx:23-26 | the new note's length is the prompt's plus one, plus the trimmed note's and two when the note was not blank; its content is stated by `InsertPromptOnBlank` and `InsertPromptKeepsNote` |
| JournalInput.BlankIsEmptyTrim | components/JournalInput.native.jsx:24 | the test `!note.trim()` is the blank test |
| JournalInput.InsertPromptOnBlank | components/JournalInput.native.jsx:24 | on a blank note the result is the prompt and a space |
| JournalInput.InsertPromptKeepsNote | components/JournalInput.native.jsx:25 | on a note with writing the result is the note up to its last visible character, then "\n\n", the prompt and a space |
| JournalInput.InsertPromptNotBlank | components/JournalInput.native.jsx:23-26 | after a prompt is inserted the note is never blank |
| JournalInput.InsertPromptCanExceedLimit | components/JournalInput.native.jsx:25 | inserting a prompt into a note of 1000 letters takes it over the limit |
| SupportChat.PayloadOf | components/SupportChatCard.native.jsx:32-39 | the payload has one message per card message, in order, with its role and its text as `content` |
| SupportChat.ReplyText | components/SupportChatCard.native.jsx:55-67 | the appended text is never empty: the reply when non-empty, "(No reply received)" when it is empty or missing, the apology on failure |
| SupportChat.SupportCard.constructor | components/SupportChatCard.native.jsx:18-28 | the card starts closed, with the greeting alone, no input and not loading |
| SupportChat.SupportCard.SetOpen | components/SupportChatCard.native.jsx:80 | the switch sets `isOpen` and nothing else |
| SupportChat.SupportCard.SetInput | components/SupportChatCard.native.jsx:113 | typing sets the input and nothing else |
| SupportChat.SupportCard.BeginSend | components/SupportChatCard.native.jsx:41-53 | with a blank input or a send under way nothing changes and nothing is sent; otherwise exactly one user message with the trimmed text is appended, the input is cleared, loading is set and the whole transcript is posted |
| SupportChat.SupportCard.CompleteSend | components/SupportChatCard.native.jsx:55-70 | exactly one assistant message is appended (reply, default or apology) and loading is cleared |
| SupportChat.SupportCard.HandleSend | components/SupportChatCard.native.jsx:41-71 | a whole send keeps `isOpen`, and either changes nothing or appends the user message and then one assistant message, leaving the card ready to send again |
| SupportChat.AppendKeepsWellFormed | components/SupportChatCard.native.jsx:45-67 | the card keeps the greeting first and only non-empty assistant or trimmed user messages |
| SupportChat.PayloadReachesModel | components/SupportChatCard.native.jsx:52 | the server's normalisation drops none of a well-formed card's messages: the model sees the system prompt and then each card message in order, with user messages as user |
| SupportChat.RouteReplyShown | components/SupportChatCard.native.jsx:55-67 | when the chat route answers, the card shows its apology for a failed model call and otherwise the route's reply; "(No reply received)" appears only if the model wrote those words |

## Left out

- Rendering, styles, navigation and the settings context are left out. The shared `dailyGoal` is a parameter.
- Polling, concurrency and stale closures are left out. The 5-second polling is one of these. So are overlapping async writes, where `toggleTask` and `deleteTask` read the `tasks` of an earlier render. Each operation is one sequential step on the current list.
- The local-time calendar is left out. This covers `d.setDate(today.getDate() - offset)`, which steps local calendar days, and the locale weekday names. The model steps UTC day numbers (`Analytics.DayBefore`), and the labels are opaque (`Label.Weekday(day)`).
- What UTC stepping hides: app/TodayPage.jsx:158-161 steps local wall-clock days but keys each one with `toISOString()`, which is UTC. Across a daylight-saving change two of the seven entries can then share a key. An example is America/New_York on the evening of 2025-03-10, where offsets 1 and 2 both give "2025-03-09". That day's done tasks are then shown and counted twice, so `totalCompletedWeek` can exceed the number of done tasks. The week facts hold of the UTC-day model only.
- The `weeklySummary` memo depends on `[tasks]` only, so its "today" can lag the render's. The model uses one "now" for the loop and for `completedToday`.
- Floating point is left out. `Math.round(c / g * 100)` is exact rational rounding with halves upward (`Analytics.RoundedPercent`). The unrounded bar height is not modelled.
- String lengths count Unicode scalar values. JavaScript's `length` counts UTF-16 code units, so the model does not capture a note of characters outside the Basic Multilingual Plane reaching the 1000 limit sooner.
- Strings.ParseIntOfNatToString: numbers are unbounded integers here, not IEEE-754 doubles. JavaScript's `String(n)` switches to exponent form from 10^21 (`String(1e21)` is `"1e+21"`, so `parseInt` reads 1), so the round trip holds in JavaScript only for n < 10^21.
- Analytics.GoalInputRoundTrip: for the same reason, a goal of 10^21 or more, which 22 or more typed digits reach (app/TodayPage.jsx:205-208), is shown as exponent text and reads back as a different goal. The lemma holds over unbounded integers only.
- Analytics.GoalFromInput: `max(1, v)` is exact here. In JavaScript `parseInt` rounds a digit run past 2^53 to the nearest double, and a run of 309 or more digits gives `Infinity`. Neither rounding nor `Infinity` is modelled.
- JSON and `Number` coercions are inputs of a small datatype. This covers route parameters, request bodies, `m?.content` of a non-string and the like. Fractional route numbers are not modelled. Neither is `JSON.parse` of a value that is valid JSON but not a list.
- `Task.createdAt`'s truthy-but-unparseable case, where `toISOString` throws `RangeError`, is not representable. See the note above the table.
- MySQL, axios, the OpenAI call and HTTP status plumbing are left out. Their outcomes are parameters. The GET, DELETE and weekly SQL endpoints are SQL only and are not modelled. Neither is `ORDER BY`. The journal's `AUTO_INCREMENT` is simplified to a counter that an update does not consume; MySQL's InnoDB usually uses up a value on `ON DUPLICATE KEY UPDATE` as well, so real ids can have gaps the model does not have.
- JournalRoute.Upsert: assumes that `journal_entries` has a UNIQUE key on `date_key`, since only that makes `ON DUPLICATE KEY UPDATE` update the row instead of inserting a second one. It also assumes that `created_at` and `updated_at` default to the insert time. The table's schema is not part of this model; backend/index.js:188-198 only implies both.
- Tasks.AddTaskRoundTrip: assumes that the `tasks` table stores `created_at` exactly as the instant inserted (`TaskRoutes.InsertedRow`). The table's schema is not part of this model, so column precision and time-zone conversion are not captured.
- DateKeys.KeyOfDayInjective: proved only for four-digit years, because for other years `slice(0, 10)` makes days of one month share a key (`DateKeys.ExpandedYearsCollide`).
- Analytics.WeekKeysDistinct: needs the week to lie in four-digit years, for the same reason. It also holds of UTC days only: under a daylight-saving change the source's local stepping can give two entries one key.
- Analytics.ComputeAnalytics: states the weekly-total facts only for a week in four-digit years, for the same reason. Those facts also hold of UTC days only, for the daylight-saving reason above.
- Analytics.WeeklyTotalAtMostDone: needs the week in four-digit years, for the same reason. It also holds of UTC days only: with a key repeated across a daylight-saving change, the source's weekly total can exceed the done count.
- Tasks.ToggleFailureRestores: needs the tasks with the id to agree on `done`. Without that the revert does not restore the list (`Tasks.ToggleFailureWithRepeatedId`).
