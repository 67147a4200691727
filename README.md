# Task calendar: a verified model

A model in Dafny of the task-record logic of a small task-calendar
application, on both its server and its client side.

- **Backend** (`simpleReactProject2/backend`):
  - the in-memory task store the API runs against when it is given a test
    database: a list of tasks and an id counter (`MockStore.MockDatabase`);
  - the SQLite store's statement building and row decoding (`SqlStore`);
  - the request handlers: validating a new task, the two-step toggle, and
    the mapping of store outcomes to status codes and error bodies
    (`Server`).
- **Frontend**:
  - the calendar's month grid, with JavaScript `Date` normalisation
    (`CalendarGrid`);
  - the task list of the selected day and its add-task form
    (`TaskListView`);
  - the local-only app's list updaters (`LocalApp`);
  - the server-backed app's state transitions once a server call has
    settled (`SyncedApp`).

Shared pieces:

- `TaskModel` holds the task record, the partial-update record and the list
  filters.
- `JsText` holds the JavaScript primitives the code relies on: `trim`, integer
  `toString` and `parseInt`.
- `Integration` connects the pieces: the form's submissions pass the API's
  validation, and one task goes through a whole API workflow.

What is passed in rather than computed:

- The clock: the id the API mints (`Date.now()`) is the parameter `now`, and
  "today" in the calendar is a parameter.
- The conversion of a selected date to its `YYYY-MM-DD` string is a
  parameter.
- The outcome of each server call is a parameter.
- The outcome of each SQLite statement is a parameter.

## Model

| member | source | states |
|---|---|---|
| JsText.LeadingWhite | simpleReactProject2/backend/app.js:51 | the count of white characters at the front: all of them white, and the next character, if any, not |
| JsText.TrailingWhite | simpleReactProject2/backend/app.js:51 | the count of white characters at the end: all of them white, and the one before them, if any, not |
| JsText.Trim | simpleReactProject2/backend/app.js:51 | the result is the infix of the input that starts after its leading white space and is followed only by white space; it is empty or neither begins nor ends with white space |
| JsText.TrimEmptyIff | simpleReactProject2/backend/app.js:51-54 | the trimmed text is empty exactly when the input is all white space |
| JsText.TrimIdempotent | simpleReactProject1/src/components/TaskList.tsx:45-47 | trimming an already trimmed text changes nothing |
| JsText.NatToString | simpleReactProject2/backend/app.js:57 | the numeral of an integer is non-empty, all digits, and has no leading zero |
| JsText.ParseInt | simpleReactProject2/backend/tests/mockDatabase.js:60 | `parseInt(t.id)` with no radix: leading white space, a sign, `0x` for base 16, the longest run of digits, NaN for none; `JsText.ParseIntNatToString` states it reads a counter numeral back |
| JsText.ParseIntNatToString | simpleReactProject2/backend/tests/mockDatabase.js:60 | `parseInt` reads the numeral of a non-negative integer back as that integer |
| JsText.NatToStringInjective | simpleReactProject2/backend/tests/mockDatabase.js:20 | different counter values give different ids |
| TaskModel.Merge | simpleReactProject2/backend/tests/mockDatabase.js:33 | `{ ...task, ...updates }`: each property the update carries replaces the task's, the rest stay; stated by `MockStore.MockDatabase.UpdateTask` and `SqlStore.UpdateAgreesWithMerge` |
| TaskModel.FindIndex | simpleReactProject2/backend/tests/mockDatabase.js:28 | absent exactly when no task has the id; otherwise the first index holding it |
| TaskModel.WithDate | simpleReactProject2/backend/tests/mockDatabase.js:13 | keeps exactly the tasks on the date |
| TaskModel.WithDateAppend | simpleReactProject1/src/components/TaskList.tsx:42 | the date filter keeps list order: it distributes over concatenation |
| TaskModel.WithDateAllOn | simpleReactProject2/backend/tests/server.test.js:75-81 | a list all on one date filters to itself |
| TaskModel.WithDateNoneOn | simpleReactProject2/backend/tests/server.test.js:83-89 | a date no task has gives the empty list |
| TaskModel.WithoutId | simpleReactProject1/src/App.tsx:45-47 | keeps exactly the tasks without the id |
| TaskModel.WithoutIdAppend | simpleReactProject1/src/App.tsx:46 | removing by id keeps the order of the rest |
| TaskModel.WithoutAbsentId | simpleReactProject1/src/App.tsx:45-47 | removing an id no task has leaves the list as it was |
| TaskModel.RemoveAt | simpleReactProject2/backend/tests/mockDatabase.js:43 | `splice(i, 1)`: the elements before `i` stay, those after it move down by one |
| TaskModel.CompletedCount | simpleReactProject1/src/components/TaskList.tsx:122 | at most the length of the list; 0 exactly when no task is completed, the full length exactly when every task is |
| TaskModel.CompletedCountAppend | simpleReactProject1/src/components/TaskList.tsx:122 | `filter(t => t.completed).length`: additive over concatenation, and a single task counts 1 exactly when it is completed |
| MockStore.MaxOrNaN | simpleReactProject2/backend/tests/mockDatabase.js:60 | `Math.max(..., 0)` over possibly-NaN values: NaN exactly when one value is; otherwise at least 0, at least every value, and 0 or one of them |
| MockStore.MaxParsedId | simpleReactProject2/backend/tests/mockDatabase.js:60 | NaN exactly when some id does not parse; otherwise at least 0, at least every parsed id, and 0 or one of them |
| MockStore.SeedCounter | simpleReactProject2/backend/tests/mockDatabase.js:60 | `Math.max(...ids, 0) + 1`, or NaN; `MockStore.SeededIdIsFresh` and `MockStore.NonNumericSeedJamsCounter` state what it leaves |
| MockStore.SeededIdIsFresh | simpleReactProject2/backend/tests/mockDatabase.js:58-61 | after seeding with numeric ids, the next minted id is carried by no seeded task |
| MockStore.NonNumericSeedJamsCounter | simpleReactProject2/backend/tests/mockDatabase.js:60 | one id that does not parse makes the counter NaN for good, and the minted id "NaN" |
| MockStore.CreateThenDeleteRestores | simpleReactProject2/backend/tests/mockDatabase.js:17-45 | a task created with a fresh id and deleted by it leaves the list as it was |
| MockStore.DeleteRemovesId | simpleReactProject2/backend/tests/mockDatabase.js:37-45 | with unique ids, no task has the id after a delete, and ids stay unique |
| MockStore.MockDatabase.constructor | simpleReactProject2/backend/tests/mockDatabase.js:3-6 | no tasks, counter 1 |
| MockStore.MockDatabase.GetAllTasks | simpleReactProject2/backend/tests/mockDatabase.js:8-10 | the stored list in stored order; nothing changes |
| MockStore.MockDatabase.GetTasksByDate | simpleReactProject2/backend/tests/mockDatabase.js:12-15 | the stored tasks on the date in stored order; nothing changes |
| MockStore.MockDatabase.CreateTask | simpleReactProject2/backend/tests/mockDatabase.js:17-25 | appends one task and returns it; it keeps its id when it has one, otherwise takes the counter's, which reads back as a positive number unless the counter is NaN; the counter advances either way |
| MockStore.MockDatabase.UpdateTask | simpleReactProject2/backend/tests/mockDatabase.js:27-35 | an unknown id fails with "Task not found" and changes nothing; otherwise only the first task with the id is replaced by its merge with the update, which is returned |
| MockStore.MockDatabase.DeleteTask | simpleReactProject2/backend/tests/mockDatabase.js:37-45 | an unknown id fails with "Task not found" and changes nothing; otherwise the first task with the id is cut out and `{deleted: true, id}` returned |
| MockStore.MockDatabase.Reset | simpleReactProject2/backend/tests/mockDatabase.js:53-56 | no tasks, counter 1 |
| MockStore.MockDatabase.SeedData | simpleReactProject2/backend/tests/mockDatabase.js:58-61 | the given tasks, the counter one past the largest numeric id (1 for no tasks) |
| SqlStore.CompletedValue | simpleReactProject2/backend/database.js:77 | `completed` is stored as 1 or 0 and reads back as itself |
| SqlStore.DecodeRow | simpleReactProject2/backend/database.js:46-49 | the flag is the truth of the column value; every other column is kept |
| SqlStore.DecodeRows | simpleReactProject2/backend/database.js:62-65 | decodes every row, in row order |
| SqlStore.RowRoundTrip | simpleReactProject2/backend/database.js:46-49 | decoding undoes encoding, and encoding undoes decoding on rows with a 0/1 flag |
| SqlStore.RowsRoundTrip | simpleReactProject2/backend/database.js:62-65 | a table of encoded tasks decodes to the tasks, in order |
| SqlStore.CreateReadsBack | simpleReactProject2/backend/database.js:74-77 | the inserted row holds a 0/1 flag and reads back as the task created |
| SqlStore.CreateOutcome | simpleReactProject2/backend/database.js:77-83 | resolves with the task exactly as given, or rejects with the statement's error |
| SqlStore.ClauseParams | simpleReactProject2/backend/database.js:92-105 | a column clause has one placeholder, the timestamp clause none |
| SqlStore.SetListParams | simpleReactProject2/backend/database.js:108 | the joined SET list has one placeholder per column clause |
| SqlStore.StatementParams | simpleReactProject2/backend/database.js:108 | the statement has one placeholder per column clause plus one for the id |
| SqlStore.UpdateClausesShape | simpleReactProject2/backend/database.js:92-105 | a clause for each supplied column and no other, in the order text, completed, date, the timestamp clause last |
| SqlStore.ApplyUpdate | simpleReactProject2/backend/database.js:89-110 | executing the SET list with its parameters replaces the supplied columns, refreshes the timestamp, and keeps the rest |
| SqlStore.EmptyUpdateTouchesTimestamp | simpleReactProject2/backend/database.js:105 | an update with no column only refreshes the timestamp |
| SqlStore.BuildUpdate | simpleReactProject2/backend/database.js:89-108 | the conditional pushes build exactly the clause list `UpdateClauses` and the parameters `UpdateParams` followed by the id, and the statement `UPDATE tasks SET <list> WHERE id = ?` |
| SqlStore.UpdateStatement | simpleReactProject2/backend/database.js:89-108 | that statement has one placeholder per value, the id as last value, clauses exactly for the supplied columns in fixed order, the timestamp clause last, and its SET list turns any row into `UpdatedRow` |
| SqlStore.UpdateStatementParams | simpleReactProject2/backend/database.js:108 | the statement of any update has one placeholder per column value plus one for the id |
| SqlStore.UpdateOutcome | simpleReactProject2/backend/database.js:110-118 | rejects with the error, with "Task not found" when no row changed, else resolves with the update plus the id |
| SqlStore.DeleteOutcome | simpleReactProject2/backend/database.js:124-132 | rejects with the error, with "Task not found" when no row changed, else resolves with `{deleted: true, id}` |
| SqlStore.UpdateAgreesWithMerge | simpleReactProject2/backend/database.js:92-105 | on the visible columns the SQL update equals the in-memory merge without the update's id; the id never changes |
| Server.ListReply | simpleReactProject2/backend/app.js:20-28 | 200 with the store's list, or 500 "Failed to fetch tasks" |
| Server.ByDateReply | simpleReactProject2/backend/app.js:31-40 | 200 with the store's list, or 500 "Failed to fetch tasks for date" |
| Server.ValidateCreate | simpleReactProject2/backend/app.js:45-61 | 400 exactly when text or date is missing or empty or the text is all white; otherwise the task with the minted id, trimmed text, `completed` defaulting to false, and the date |
| Server.CreateReply | simpleReactProject2/backend/app.js:63-68 | 201 with the store's result, or 500 "Failed to create task" |
| Server.UpdateReply | simpleReactProject2/backend/app.js:77-86 | 200 with the store's result; 404 exactly for "Task not found", else 500 "Failed to update task" |
| Server.PlanToggle | simpleReactProject2/backend/app.js:95-102 | 500 when the list fails, 404 with no write when the id is absent, else the negated flag of the first task with the id |
| Server.ToggleReply | simpleReactProject2/backend/app.js:102-107 | 200 with the store's result; every failure, a not-found included, is 500 "Failed to toggle task" |
| Server.DeleteReply | simpleReactProject2/backend/app.js:111-124 | 200 with the store's result; 404 exactly for "Task not found", else 500 "Failed to delete task" |
| Server.Health | simpleReactProject2/backend/app.js:127-129 | a 200 payload, computed without the store |
| Server.Route | simpleReactProject2/backend/app.js:20-140 | the route registrations in order, with the 404 catch-all; `Server.RouteRequest`, `Server.RouteInverse` and `Server.DispatchRequest` state its behaviour |
| Server.RouteRequest | simpleReactProject2/backend/app.js:20-140 | every endpoint's own request is routed to it |
| Server.RouteInverse | simpleReactProject2/backend/app.js:20-128 | a request that reaches a handler is that handler's own request, with non-empty parameters |
| Server.DispatchRequest | simpleReactProject2/backend/app.js:127-140 | 404 "Route not found" exactly for the requests no route matches; the fixed health payload exactly for GET /api/health; every other request runs the handler of its own endpoint |
| Server.UnknownPathIs404 | simpleReactProject2/backend/tests/server.test.js:330-337 | GET /api/nonexistent is answered 404 "Route not found" |
| Server.ToggledStore | simpleReactProject2/backend/app.js:95-102 | only the first task with the id changes, and only its flag, which is negated |
| Server.ToggleTwiceRestores | simpleReactProject2/backend/app.js:95-103 | two toggles of one id restore the store |
| Server.MintedIdKept | simpleReactProject2/backend/app.js:57 | the minted id is non-empty, so the in-memory store keeps it |
| Server.SqlToggleOfVanishedTask | simpleReactProject2/backend/app.js:104-107 | a toggle whose write finds no row answers 500, not 404 |
| Server.SqlMissingRowIs404 | simpleReactProject2/backend/app.js:81-85 | an update or delete that changes no row answers 404 |
| Server.App.constructor | simpleReactProject2/backend/app.js:6-10 | the app runs against the database it is handed |
| Server.App.GetTasks | simpleReactProject2/backend/app.js:20-28 | 200 with the stored list |
| Server.App.GetTasksByDate | simpleReactProject2/backend/app.js:31-40 | 200 with the stored tasks on the date |
| Server.App.PostTask | simpleReactProject2/backend/app.js:43-69 | a rejected body answers 400 and leaves the store untouched; an accepted one is appended as validated and answered 201 |
| Server.App.PutTask | simpleReactProject2/backend/app.js:72-87 | the body goes to the store unchanged; 404 and no change for an unknown id, else 200 with the merged task |
| Server.App.ToggleTask | simpleReactProject2/backend/app.js:90-108 | the store is toggled; 404 for an unknown id, else 200 with the toggled task |
| Server.App.DeleteTask | simpleReactProject2/backend/app.js:111-124 | 404 and no change for an unknown id, else the first task with the id is cut out and `{deleted: true, id}` answered |
| CalendarGrid.MonthLength | simpleReactProject2/src/components/Calendar.tsx:15-17 | 28 to 31 days; February has 29 exactly in leap years; April, June, September and November have 30 |
| CalendarGrid.MakeDate | simpleReactProject2/src/components/Calendar.tsx:14-15 | `new Date(y, m, d)`: a year in 0..99 read as 1900 plus it, the month carried into the year, the day normalised into the neighbouring months; `CalendarGrid.MakeDateInRange` and `CalendarGrid.DaysInMonthIsLength` state it |
| CalendarGrid.MakeDateInRange | simpleReactProject2/src/components/Calendar.tsx:37 | a day inside its month is taken as it is |
| CalendarGrid.YearStep | simpleReactProject2/src/components/Calendar.tsx:16 | a year has 366 days exactly when it is a leap year |
| CalendarGrid.MonthStep | simpleReactProject2/src/components/Calendar.tsx:16 | each month starts a month's length after the one before, and the months fill the year |
| CalendarGrid.WeekDay | simpleReactProject2/src/components/Calendar.tsx:16 | the weekday is in 0..6 |
| CalendarGrid.NextMonthDayNumber | simpleReactProject2/src/components/Calendar.tsx:14-15 | the next month's first day comes a month's length after this month's first |
| CalendarGrid.DaysInMonthIsLength | simpleReactProject2/src/components/Calendar.tsx:15-17 | day 0 of the next month is this month's last day, so the count is the Gregorian length |
| CalendarGrid.FirstWeekday | simpleReactProject2/src/components/Calendar.tsx:14-16 | the weekday of the first of the month is in 0..6 |
| CalendarGrid.NextFirstWeekday | simpleReactProject2/src/components/Calendar.tsx:14-17 | within a year, the next month's first weekday follows on from this month's days |
| CalendarGrid.NewYearFirstWeekday | simpleReactProject2/src/components/Calendar.tsx:14-17 | from December, January of the next year starts on the weekday after December's last day |
| CalendarGrid.November2025 | simpleReactProject2/src/components/Calendar.tsx:14-17 | November 2025 starts on a Saturday and has 30 days |
| CalendarGrid.IsSelectedDate | simpleReactProject2/src/components/Calendar.tsx:41-45 | `isSelectedDate(day)`: the selected date's own day, the displayed month being the selected date's; `CalendarGrid.SelectedCells` states its effect on the grid |
| CalendarGrid.IsToday | simpleReactProject2/src/components/Calendar.tsx:47-51 | `isToday(day)`: today falls on that day of the displayed month and year; `CalendarGrid.TodayCells` states its effect on the grid |
| CalendarGrid.Layout | simpleReactProject2/src/components/Calendar.tsx:57-78 | the blanks first, then the days 1..n in order, each with its tags |
| CalendarGrid.Grid | simpleReactProject2/src/components/Calendar.tsx:11-17 | the grid of the selected date's month: its first weekday's worth of blanks, then its days; `CalendarGrid.RenderCalendarDays` is proved to build it |
| CalendarGrid.RenderCalendarDays | simpleReactProject2/src/components/Calendar.tsx:53-81 | the two loops build exactly the grid of the displayed month |
| CalendarGrid.SelectedCells | simpleReactProject2/src/components/Calendar.tsx:41-45 | a cell is selected exactly when it holds the selected day |
| CalendarGrid.SelectedDayShown | simpleReactProject2/src/components/Calendar.tsx:11-17 | the selected day is on the grid of its month, so exactly one cell is selected |
| CalendarGrid.TodayCells | simpleReactProject2/src/components/Calendar.tsx:47-51 | at most one cell is today, none in another month or year, and a cell may be both selected and today |
| CalendarGrid.PrevMonth | simpleReactProject2/src/components/Calendar.tsx:26-29 | `handlePrevMonth`; `CalendarGrid.PrevMonthWraps` states its result |
| CalendarGrid.NextMonth | simpleReactProject2/src/components/Calendar.tsx:31-34 | `handleNextMonth`; `CalendarGrid.NextMonthWraps` states its result |
| CalendarGrid.DateClick | simpleReactProject2/src/components/Calendar.tsx:36-39 | `handleDateClick(day)`; `CalendarGrid.ClickSelects` states its result |
| CalendarGrid.PrevMonthWraps | simpleReactProject2/src/components/Calendar.tsx:26-29 | day 1 of the month before; January goes back to December of the year before |
| CalendarGrid.NextMonthWraps | simpleReactProject2/src/components/Calendar.tsx:31-34 | day 1 of the month after; December goes on to January of the year after |
| CalendarGrid.PrevThenNext | simpleReactProject2/src/components/Calendar.tsx:26-34 | back a month and forward again lands on the first of the starting month |
| CalendarGrid.ClickSelects | simpleReactProject2/src/components/Calendar.tsx:36-45 | clicking a day selects that date, and on the new grid that day's cell is selected |
| TaskListView.CountLabel | simpleReactProject1/src/components/TaskList.tsx:67 | the count's numeral, then " task" or " tasks", ending in "s" exactly when the count is not 1 |
| TaskListView.View | simpleReactProject1/src/components/TaskList.tsx:41-122 | shows exactly the day's tasks, their count label, the empty state exactly when there are none, the summary exactly when there are some, and the completed count |
| TaskListView.ViewOfAppend | simpleReactProject1/src/components/TaskList.tsx:42 | the day's list keeps list order |
| TaskListView.AddDisabled | simpleReactProject1/src/components/TaskList.tsx:81 | `disabled={!newTaskText.trim()}`; `TaskListView.AddDisabledIff` states when it holds |
| TaskListView.AddDisabledIff | simpleReactProject1/src/components/TaskList.tsx:81 | the Add button is disabled exactly when the input is all white space |
| TaskListView.Submission | simpleReactProject1/src/components/TaskList.tsx:46-51 | nothing for an all-white input; otherwise a non-empty trimmed text, not completed, on the day |
| TaskListView.TaskForm.HandleAddTask | simpleReactProject1/src/components/TaskList.tsx:44-54 | emits the submission and clears the field, or emits nothing and keeps it |
| TaskListView.TaskForm.constructor | simpleReactProject1/src/components/TaskList.tsx:26 | the field starts empty |
| TaskListView.TaskForm.Edit | simpleReactProject1/src/components/TaskList.tsx:76 | the field holds what was typed |
| LocalApp.Initial | simpleReactProject1/src/App.tsx:7-21 | today selected, the sample tasks listed |
| LocalApp.InitialTasksShape | simpleReactProject1/src/App.tsx:8-21 | the sample ids differ, both samples are on today's list, one is completed |
| LocalApp.SelectDate | simpleReactProject1/src/App.tsx:23-25 | only the selected date changes |
| LocalApp.AddTask | simpleReactProject1/src/App.tsx:27-33 | one task appended with the draft's fields and the new id; earlier tasks stay in place |
| LocalApp.ToggleTask | simpleReactProject1/src/App.tsx:35-43 | same length; tasks with the id have their flag negated, all others are identical |
| LocalApp.ToggleTwice | simpleReactProject1/src/App.tsx:35-43 | toggling an id twice restores the list |
| LocalApp.ToggleCommutesWithDate | simpleReactProject1/src/App.tsx:36-42 | filtering by date after a toggle equals toggling the filtered list |
| LocalApp.AddThenDelete | simpleReactProject1/src/App.tsx:27-47 | deleting a just-added fresh id restores the list |
| SyncedApp.ErrorText | simpleReactProject2/src/App.tsx:25 | an `Error`'s message, otherwise the fallback |
| SyncedApp.SetCompleted | simpleReactProject2/src/App.tsx:51-57 | same length; tasks with the id take the server's flag, all others are identical |
| SyncedApp.ServerToggleMatchesLocal | simpleReactProject2/src/App.tsx:47-57 | with unique ids, taking the server's negated flag equals the local toggle |
| SyncedApp.App.constructor | simpleReactProject2/src/App.tsx:8-11 | no tasks, loading, no error |
| SyncedApp.App.SelectDate | simpleReactProject2/src/App.tsx:32-34 | only the selected date changes |
| SyncedApp.App.LoadTasks | simpleReactProject2/src/App.tsx:18-30 | the server's list replaces the tasks, or the error is set and the tasks kept; loading ends either way |
| SyncedApp.App.AddTask | simpleReactProject2/src/App.tsx:36-45 | the created task is appended and the error cleared, or the error is set and the tasks kept |
| SyncedApp.App.ToggleTask | simpleReactProject2/src/App.tsx:47-62 | the server's flag goes onto the tasks with the id and the error is cleared, or the error is set and the tasks kept |
| SyncedApp.App.DeleteTask | simpleReactProject2/src/App.tsx:64-73 | the tasks with the id go only after the server succeeds, or the error is set and the tasks kept |
| Integration.EmittedDraftAccepted | simpleReactProject1/src/components/TaskList.tsx:46-51 | a submitted draft passes the API's validation with its text unchanged |
| Integration.AddedTaskShown | simpleReactProject1/src/App.tsx:27-33 | an added task shows at the end of its day's list |
| Integration.Workflow | simpleReactProject2/backend/tests/integration.test.js:19-88 | create, list, list by day, update, toggle and delete one task: 201 with the minted id and trimmed text, both lists exactly that task, the update and the toggle 200 with the changed task and the flag back to false, `{deleted: true, id}`, and an empty store |

## Left out

- Express plumbing is not modelled: CORS, body parsing, the error middleware, listening and shutdown. `Server.Route` stands for route matching.
- Route matching covers neither percent-decoding, nor case-insensitive paths, nor trailing slashes.
- POST body values other than strings and booleans are not modelled (numbers, `null`, objects). For example, a `text` of 0 is falsy and gets 400 "Text and date are required", while any other number makes `trim` throw and the answer is 500.
- PUT bodies are modelled as the four optional properties `id`, `text`, `completed` and `date`, with string and boolean values only. Left out: extra properties, which the in-memory store spreads into the stored task and the SQL store echoes in `{ id, ...updates }`; `null` values, which the in-memory store stores as given (a `null` id renames the task to `null`); and values of other types. In the SQL store a `null` `text` or `date` is bound to a NOT NULL column, so the write fails and the answer is 500. A `null` `completed` is `!== undefined`, is written as 0, and is echoed as `null`. A `null` `id` is never bound, so the write goes ahead and only the echoed id is `null`.
- SQLite itself is not modelled: the connection, table creation, running statements and `ORDER BY`. A statement's result is an input, and the effect of an UPDATE on a row is defined by `SqlStore.ApplySet`.
- `close()` on both stores is left out: it only releases the connection.
- The DELETE statement's text is left out. It is fixed and has a single placeholder, the id.
- The network client in `src/services/api.ts` is not part of this model. A server call is its outcome: resolved with a value, or rejected with an `Error` or some other value.
- Concurrency and asynchrony are not modelled. Every handler runs to completion on its own. In particular, the toggle's read-then-write race against other writers is not modelled.
- The clock and the locale are not modelled: `Date.now()`, `new Date()` for today, `toISOString` (a UTC date string) and `toLocaleDateString`.
- Time zones are not modelled. A date is its local year, month index and day.
- Numbers are unbounded. `parseInt` of very long numerals and `toString` of very large numbers are not modelled. The same goes for `Date` values outside the representable time range.
- Presentation is not modelled: markup, CSS classes, month and weekday names, the Enter-key handler, the retry button and the loading screen.
- Logging is not modelled.
- Server.Health: its own contract states a 200 payload; the two fixed strings are stated by `Server.DispatchRequest`.
- CalendarGrid.SelectedDayShown: stated only for years outside 0..99. The `Date` constructor reads a year below 100 as 1900 plus that year, so the grid of, say, year 4 is laid out as for 1904.
- CalendarGrid.ClickSelects: stated only for years outside 0..99, for the same reason.
- CalendarGrid.PrevThenNext: stated only for years outside 0..99, for the same reason.
- Server.App: runs the handlers against the in-memory store only. That store never fails, so the 500 answers are covered by the reply functions alone. The SQL store's zero-row outcomes are covered by `Server.SqlMissingRowIs404` and `Server.SqlToggleOfVanishedTask`.

## Notes on behaviour

- A PUT body may carry an `id`. The in-memory store's spread merge then renames the task. The SQL store never changes the id, but echoes the body's id in its result. `SqlStore.UpdateAgreesWithMerge` states how the two stores relate.
- `seedData` with a task whose id does not parse as an integer sets the counter to NaN. From then on every minted id is the string "NaN" (`MockStore.NonNumericSeedJamsCounter`).
