# Task and attendance dashboard — a Dafny model

This project models the logic layer of a small task and attendance
dashboard for a student-services team. The dashboard is a single-page
React application whose texts are in Arabic. The model covers:

- **Spreadsheet ingestion.** The app reads published Google-Sheet CSV
  files in three places:
  - the periodic synchronisation in `App.tsx`, which uses the quote-aware
    split and then replaces every `remote-` task with the new batch;
  - the bulk import form, which uses the quote-aware split, gives tasks
    `import-` ids and makes the importing user their owner;
  - the call-centre statistics view, which splits on every comma and does
    not trim.

  Modules `Csv`, `SheetSync`, `TaskImport` and `CallCenter` model these.
  `Text` models the JavaScript string primitives they rely on: `trim`,
  `toLowerCase` over ASCII, `includes`, `startsWith`, `parseInt` and
  number-to-string.
- **Application state and persistence.** `App.AppState` is a class. It
  holds the tasks, attendance records, users and logged-in user, and the
  key-value store (`localStorage`) as a map field. Each handler prepends,
  appends, replaces by id or deletes by id, then writes the whole list
  under its own key. The class invariant `Persisted` says the store always
  holds exactly the in-memory lists.
- **Attendance.** `Attendance` covers:
  - the default shift for an hour;
  - the student directory, deduplicated by a lower-cased key, with the
    latest record winning (a loop over a `seen` set);
  - the suggestions, capped at six;
  - the same-day, same-shift duplicate check;
  - today's records;
  - the form as a class, with cyclic keyboard selection and submission.
- **Views.** Each view gets its own module:
  - `Reports`: the report filters and the quoted CSV export, which starts
    with a byte-order mark;
  - `TaskList`: task visibility, editability, and the star-rating dialog;
  - `Dashboard`: the dashboard figures;
  - `UserManagement`: user administration;
  - `Login`: the credential lookup;
  - `Sidebar`: the role-based navigation.

  The counting loops and rounded averages they share are in `Tally` and
  `Averages`. `Constants` holds the shift, task-type and navigation tables.

Time is passed in, never read:
- `Clock` carries "now" as milliseconds and as an ISO string.
- `Calendar` is a record of total functions: parse a timestamp (`None` for
  an invalid date), its calendar day, month, year and locale date string.

A fetch is a parameter of type `string -> Response`, or a `Response`
value. A `Response` is either a network failure or a status flag with a
body.

Decisions where the code's behaviour differs from what its documentation
suggests (the model follows the code):

- **Export then re-import is not a round trip.**
  - The export writes its columns in the order type, student, duration,
    date, owner, rating. The sheet reader expects student, type,
    description, duration, date, owner.
  - `parseInt` of a quoted cell is NaN, so the duration falls back to 15.
  - `Reports.ReimportShiftsColumns` proves the shifted result.
  - What does round-trip is the cell-level quoting: `Reports.ExportRowRoundTrip`.
- **Import errors are generic.** Every failure of the bulk import ends in
  one generic error message. The messages thrown inside `handleImport` are
  never shown.
- **The call-centre view has no `ok` check.** Its fetch parses the body of
  any response, whatever its status.
- **Attendance records store the shift's caption.** The stored `shift` is
  the caption (for example `9:00 - 11:00`), not the shift's id.

## Model

| member | source | states |
|---|---|---|
| Types.RoleName | types.ts:3-5 | each role has its non-empty display string |
| Types.RoleNameInjective | types.ts:3-5 | different roles have different display strings, so role checks by string are exact |
| Types.Today | components/Tasks/TaskList.tsx:21-25 | today's calendar day is always a real day |
| Types.IsToday | components/Tasks/TaskList.tsx:21-25 | a timestamp on today's calendar day always parses |
| Types.LocaleDate | components/Dashboard/Dashboard.tsx:39 | the locale label of the parsed day, or "Invalid Date" for a timestamp that does not parse |
| Types.InvalidNeverToday | components/Tasks/TaskList.tsx:21-25 | a timestamp that does not parse never falls on today's calendar day |
| Constants.ShiftsContiguous | constants.tsx:41-45 | three shifts, each with start < end, each ending where the next begins, from 9 to 15 |
| Constants.ShiftsDisjoint | constants.tsx:41-45 | an hour lies in at most one shift |
| Constants.TaskTypesDistinct | constants.tsx:21-28 | six task types with distinct ids and names, including the call-centre and "other" types |
| Constants.NavItemsRoles | constants.tsx:30-39 | eight items, all open to the admin role, every role string is a role's name, only 'users' is admin-only, ids distinct |
| Text.Trim | App.tsx:49 | the result has no surrounding whitespace and is a contiguous piece of the input |
| Text.TrimNoOp | App.tsx:49 | trimming a string without surrounding whitespace leaves it unchanged |
| Text.TrimEmptyIffBlank | App.tsx:44 | a line trims to empty exactly when it is all whitespace |
| Text.TrimKeepsAbsent | App.tsx:49 | trimming introduces no character that was not there |
| Text.Lower | components/Attendance/AttendanceTracking.tsx:66 | lower-casing keeps the length |
| Text.LowerCase | components/Attendance/AttendanceTracking.tsx:66 | no capital is left: each capital becomes its small letter, every other character stays |
| Text.LowerIdempotent | components/Attendance/AttendanceTracking.tsx:66 | lower-casing a lower-cased string changes nothing |
| Text.ContainsAt | components/Attendance/AttendanceTracking.tsx:79-80 | `includes` holds exactly when the substring occurs at some position |
| Text.CountChar | App.tsx:40 | the count is at most the length and is zero exactly when the character is absent |
| Text.NatToString | App.tsx:48 | decimal digits only, no leading zero |
| Text.IntToString | components/Reports/Reports.tsx:47 | non-empty, with a leading '-' exactly for negative numbers |
| Text.ParseIntNaN | App.tsx:52 | `parseInt` is NaN for a blank string and for one whose first non-blank character is neither sign nor digit |
| Text.MagnitudeOfNatToString | App.tsx:52 | the printed digits of a natural number read back as that number |
| Text.ParseIntNatToString | App.tsx:52 | `parseInt` reads a printed natural number back |
| Text.ParseIntIntToString | components/Reports/Reports.tsx:47 | `parseInt` reads any printed integer back, negative ones too |
| Text.ParseIntQuoted | App.tsx:52 | `parseInt` of a field that starts with a quote is NaN |
| Csv.Split | App.tsx:46 | a split always yields at least one field |
| Csv.JoinSplit | App.tsx:46 | joining the fields of a split with the separator reproduces the line exactly |
| Csv.SplitOnCharCount | components/CallCenter/CallCenterStats.tsx:46 | the naive split gives one more field than there are commas, and no field holds a comma |
| Csv.SplitJoinOnChar | components/Reports/Reports.tsx:54-56 | splitting a join of separator-free parts at the separator gives back the parts |
| Csv.QuoteFreeSplit | App.tsx:46 | on a line without quotes the quote-aware split cuts at every comma |
| Csv.QuoteAll | components/Reports/Reports.tsx:55 | every cell is wrapped in quotes, one for one |
| Csv.SplitQuotedRow | App.tsx:46 | a row of quoted quote-free cells splits back into exactly those quoted cells |
| Csv.RemoveQuotes | components/CallCenter/CallCenterStats.tsx:50 | the result holds no quote character |
| Csv.FilterNotQuoteLength | components/CallCenter/CallCenterStats.tsx:50 | dropping the quotes shortens a string by exactly its number of quotes |
| Csv.RemoveQuotesKeeps | components/CallCenter/CallCenterStats.tsx:50 | the result is a subsequence of the field, shorter by exactly the number of quotes, so every other character stays in order |
| Csv.RemoveQuotesNoOp | components/CallCenter/CallCenterStats.tsx:50 | a field without quotes is returned unchanged |
| Csv.Clean | App.tsx:49-55 | a cleaned field holds no quote and has no surrounding whitespace |
| Csv.CleanIsTrimmed | App.tsx:49-55 | the cleaned field is the quote-free field with exactly its leading and trailing whitespace runs cut off |
| Csv.CleanNoOp | App.tsx:49-55 | a field without quotes or surrounding whitespace is its own cleaning |
| Csv.CleanQuote | App.tsx:49-55 | cleaning a quoted clean cell returns the cell |
| Csv.Field | App.tsx:49 | `values[k]?` is present exactly when k is in range |
| Csv.CleanFieldOr | App.tsx:50-55 | the cleaned field when it is non-empty, otherwise the default |
| Csv.UntrimmedFieldOr | components/CallCenter/CallCenterStats.tsx:51-57 | a present field that is non-empty once its quotes are removed wins; a missing or quotes-only field gives the default; quote-free when the default is |
| Csv.DurationField | App.tsx:52 | `parseInt(raw) \|\| 15`: never 0; NaN and 0 give 15; any other value, negative too, is kept |
| Csv.Lines | App.tsx:40 | one line more than there are line feeds |
| Csv.DataLines | App.tsx:43-44 | a subsequence of the lines after the header, in file order, none blank; every non-blank line after the header is kept, and kept plus blank lines number all lines but the header |
| Csv.EditMatchFirst | components/Tasks/TaskImport.tsx:29-32 | the match found is the first occurrence of "/edit"; no match means no occurrence |
| Csv.FetchUrl | components/Tasks/TaskImport.tsx:29-32 | a URL without "/edit" is fetched unchanged; otherwise the URL up to an occurrence of "/edit" followed by the export suffix |
| Csv.JoinAvoids | components/Reports/Reports.tsx:54-56 | joining adds no character other than the separator |
| Csv.PlainRowCells | App.tsx:46-55 | a comma-joined row of plain cells splits back into those cells under both split rules, and cleaning or removing quotes keeps each cell |
| Csv.FetchUrlRewrite | components/Tasks/TaskImport.tsx:29-32 | a URL with "/edit" is cut at its first "/edit" and given the export suffix; any other URL is unchanged |
| SheetSync.RemoteDefaultsClean | App.tsx:50-55 | the default texts are non-empty and already clean |
| SheetSync.RemoteId | App.tsx:48 | a remote id starts with `remote-` |
| SheetSync.RemoteRow | App.tsx:45-57 | a remote task: `remote-` id, owner 'remote-system', every text field clean, defaults when empty |
| SheetSync.RemoteRowColumns | App.tsx:45-57 | column by column: the id is `remote-<index>-` and the raw fifth column or the current time; student is the cleaned first column; type, description, date and username are their cleaned column when non-empty and their default otherwise; duration from the fourth column |
| SheetSync.RemoteRowReadsCells | App.tsx:45-57 | a row of six plain non-empty cells gives a task holding exactly those cells in student, type, description, date and username, and the date in the id |
| SheetSync.RemoteBatch | App.tsx:43-57 | one task per data line, in order, the index counting only kept lines |
| SheetSync.ParseRemoteSheet | App.tsx:40-42 | nothing is imported exactly when the document has no line feed |
| SheetSync.Reconcile | App.tsx:60-64 | the batch first, then exactly the previous local tasks, each part in order |
| SheetSync.HeaderOnlyEmpty | App.tsx:42-44 | a header followed only by blank lines yields an empty batch |
| SheetSync.SyncedTasks | App.tsx:33-72 | a failed fetch, a non-ok status or a text without a line feed keeps the tasks; otherwise the remote batch reconciled with them |
| SheetSync.ReconcileReplacesRemote | App.tsx:61-62 | no earlier remote task survives, and the local tasks keep their order |
| SheetSync.ReconcileKeepsLocal | App.tsx:61-62 | with a remote batch, the local tasks afterwards are exactly those before |
| SheetSync.ReconcileIdempotent | App.tsx:61-62 | reconciling twice with the same batch equals reconciling once |
| SheetSync.SyncIdempotent | App.tsx:33-72 | repeating a synchronisation with the same response changes nothing more |
| SheetSync.SyncKeepsLocal | App.tsx:33-72 | every local task survives any synchronisation, in relative order |
| SheetSync.SyncFailureKeepsTasks | App.tsx:36-42 | a failed fetch, a non-ok status or a one-line document leaves the tasks unchanged |
| SheetSync.NatToStringInjective | App.tsx:48 | different indices print differently |
| SheetSync.RemoteIdInjective | App.tsx:48 | the index can be read back from a remote id |
| SheetSync.RemoteIdsDistinct | App.tsx:48 | two rows of one batch never share an id |
| ListOps.CountKey | App.tsx:127-131 | the number of elements with a given id is at most the length |
| ListOps.RemoveById | App.tsx:127-131 | exactly the elements with another id remain, in order |
| ListOps.RemoveByIdCount | App.tsx:127-131 | deleting removes exactly as many elements as carry the id |
| ListOps.RemoveByIdAbsent | App.tsx:127-131 | deleting an absent id changes nothing |
| ListOps.RemoveByIdIdempotent | App.tsx:127-131 | deleting twice equals deleting once |
| ListOps.ReplaceById | App.tsx:121-125 | the length is kept |
| ListOps.ReplaceByIdEffect | App.tsx:121-125 | exactly the elements with the updated id are replaced; ids never change |
| ListOps.ReplaceByIdIdempotent | App.tsx:121-125 | replacing twice equals replacing once |
| ListOps.ReplaceByIdAbsent | App.tsx:121-125 | an update whose id is absent changes nothing |
| App.WriteTasksOnly | App.tsx:63 | writing the task list leaves the other stored lists as they were |
| App.AppState.Load | App.tsx:75-96 | the state is read from the store; with no stored users, the seed admin is created and saved |
| App.AppState.SyncWithSheet | App.tsx:33-72 | the tasks become the synchronised tasks, stored only when the sync applies; not syncing afterwards |
| App.AppState.ReplaceRemoteTasks | App.tsx:60-64 | the tasks become the reconciled list and are written under 'tasks' |
| App.AppState.HandleLogin | App.tsx:98-101 | the user is set and saved under 'currentUser'; nothing else changes |
| App.AppState.HandleLogout | App.tsx:103-106 | the user is cleared and 'currentUser' removed from the store |
| App.AppState.SaveTasks | App.tsx:108-112 | the tasks become the given list, written whole under 'tasks'; nothing else changes |
| App.AppState.AddTask | App.tsx:108-112 | the task is prepended and the list stored |
| App.AppState.AddBulkTasks | App.tsx:114-119 | the batch is prepended in order and the list stored |
| App.AppState.UpdateTask | App.tsx:121-125 | the tasks with the same id are replaced and the list stored |
| App.AppState.DeleteTask | App.tsx:127-131 | the tasks with that id are removed and the list stored |
| App.AppState.AddAttendanceRecord | App.tsx:133-137 | the record is prepended and the list stored under 'attendance' |
| App.AppState.DeleteAttendanceRecord | App.tsx:139-143 | the records with that id are removed and the list stored |
| App.AppState.HandleRegister | App.tsx:145-151 | the user is appended, the list stored, and the registration screen closed |
| App.AppState.UpdateUsers | App.tsx:195-197 | the users become the given list and are stored under 'users' |
| App.AppState.SetRegistering | App.tsx:155 | the registration flag takes the given value |
| App.AppState.SetActiveTab | components/Layout/Sidebar.tsx:30 | the active tab becomes the clicked item's id |
| TaskImport.ImportId | components/Tasks/TaskImport.tsx:51 | an import id starts with `import-` |
| TaskImport.ImportRow | components/Tasks/TaskImport.tsx:46-59 | owner is the importing user; text fields clean, with the import defaults; the sixth column ignored; no rating |
| TaskImport.ImportRowColumns | components/Tasks/TaskImport.tsx:46-59 | column by column: student is the cleaned first column; type, description and date are their cleaned column when non-empty and their default otherwise; duration from the fourth column |
| TaskImport.ImportRowReadsCells | components/Tasks/TaskImport.tsx:46-59 | a row of five or more plain non-empty cells gives a task holding those cells in student, type, description and date, owned by the importing user |
| TaskImport.ImportBatch | components/Tasks/TaskImport.tsx:44-60 | one task per data line, in file order |
| TaskImport.ImportOutcome | components/Tasks/TaskImport.tsx:34-68 | tasks are handed on exactly when the fetch is ok, the text has a second line and at least one data line |
| TaskImport.ImportedNotRemote | components/Tasks/TaskImport.tsx:51 | an imported task is never taken for a remote one |
| TaskImport.ImportSurvivesSync | App.tsx:61 | every imported task survives any later synchronisation, whatever its response and its time |
| TaskImport.ImportIdsDistinct | components/Tasks/TaskImport.tsx:51 | two rows of one import never share an id |
| TaskImport.ImportForm.constructor | components/Tasks/TaskImport.tsx:11-14 | empty URL, not loading, no error, no success |
| TaskImport.ImportForm.SetSheetUrl | components/Tasks/TaskImport.tsx:107 | the URL takes the typed value |
| TaskImport.ImportForm.HandleImport | components/Tasks/TaskImport.tsx:17-75 | empty URL: its own error, no fetch; otherwise the outcome of the rewritten fetch, success and a cleared URL, or the generic error |
| TaskImport.ImportForm.Begin | components/Tasks/TaskImport.tsx:23-25 | loading, with no error and no success yet |
| TaskImport.ImportForm.Settle | components/Tasks/TaskImport.tsx:62-74 | success clears the URL, failure sets the generic error, loading stops |
| CallCenter.SheetRow | components/CallCenter/CallCenterStats.tsx:47-57 | id `sheet-<index>`, owner 'remote', student the first column without quotes, quotes removed, defaults when empty, never a zero duration |
| CallCenter.SheetRowColumns | components/CallCenter/CallCenterStats.tsx:47-57 | column by column: type, description, date and username are their column without quotes when that is non-empty and their default otherwise; duration from the fourth column |
| CallCenter.SheetRowReadsCells | components/CallCenter/CallCenterStats.tsx:47-57 | a row of six non-empty cells without commas or quotes gives a task holding exactly those cells, surrounding spaces included |
| CallCenter.SheetRows | components/CallCenter/CallCenterStats.tsx:45-58 | one task per data line, in order |
| CallCenter.NaiveSplitFields | components/CallCenter/CallCenterStats.tsx:46 | the field count is the comma count plus one, so quoted commas break fields |
| CallCenter.ActiveTasks | components/CallCenter/CallCenterStats.tsx:70-75 | local source: exactly the call-centre tasks in order; sheet source: the sheet data |
| CallCenter.Classify | components/CallCenter/CallCenterStats.tsx:101-106 | a description with a technical keyword is technical; "other" exactly when no rule's keyword occurs in the lower-cased description |
| CallCenter.FirstMatch | components/CallCenter/CallCenterStats.tsx:101-106 | the topic of the first matching rule, or "other" when none matches |
| CallCenter.FirstRuleWins | components/CallCenter/CallCenterStats.tsx:102-103 | a description with the first technical keyword is technical whatever else it holds |
| CallCenter.TopicCount | components/CallCenter/CallCenterStats.tsx:100-107 | a bucket holds at most all the tasks |
| CallCenter.TopicCountsSum | components/CallCenter/CallCenterStats.tsx:100-107 | every task lands in exactly one bucket: the buckets sum to the total |
| CallCenter.Usernames | components/CallCenter/CallCenterStats.tsx:81-84 | the username of each task, in order |
| CallCenter.ComputeStats | components/CallCenter/CallCenterStats.tsx:77-111 | total, rounded average, one count per distinct username summing to the total, topic buckets summing to the total |
| CallCenter.CountTopics | components/CallCenter/CallCenterStats.tsx:100-107 | the loop's four counters are the topic counts of the calls |
| CallCenter.CallCenterView.constructor | components/CallCenter/CallCenterStats.tsx:17-21 | local source, no data, the saved URL or empty |
| CallCenter.CallCenterView.FetchSheetData | components/CallCenter/CallCenterStats.tsx:24-67 | empty URL: error only; failed fetch: error, data kept; any response: data replaced and URL saved; not loading afterwards |
| CallCenter.CallCenterView.SetSource | components/CallCenter/CallCenterStats.tsx:119 | the source takes the chosen value |
| CallCenter.CallCenterView.SetSheetUrl | components/CallCenter/CallCenterStats.tsx:136 | the URL takes the typed value |
| Tally.Distinct | components/Dashboard/Dashboard.tsx:31-35 | the distinct keys in first-seen order, without duplicates |
| Tally.Occurrences | components/Dashboard/Dashboard.tsx:31-34 | a count is zero exactly when the key is absent |
| Tally.Count | components/Dashboard/Dashboard.tsx:31-34 | the counting loop yields the distinct keys in order, each with its number of occurrences |
| Tally.CountStep | components/Dashboard/Dashboard.tsx:31-34 | one more key bumps its counter, or joins the order with counter 1 |
| Tally.SumCountsAppend | components/Dashboard/Dashboard.tsx:31-35 | adding a key to the order adds its count |
| Tally.SumCountsExtend | components/Dashboard/Dashboard.tsx:31-35 | one more counted item raises the sum by one when its key is listed |
| Seqs.FilterPartition | App.tsx:43-44 | filtering by a predicate and by its negation together keep every element exactly once |
| Tally.CountsSumToTotal | components/Dashboard/Dashboard.tsx:31-35 | the per-key counts sum to the number of items |
| Averages.RoundedAverage | components/Dashboard/Dashboard.tsx:25 | 0 when there is nothing to average |
| Averages.RoundedAverageNearest | components/Dashboard/Dashboard.tsx:25 | `Math.round(sum / n)`: the result is within half of sum / n, ties going up |
| Averages.RoundedAverageUnique | components/Dashboard/Dashboard.tsx:25 | the rounded mean is the only integer with that property |
| Averages.ConstantAverage | components/Dashboard/Dashboard.tsx:25 | equal durations average to that duration |
| Attendance.DefaultShift | components/Attendance/AttendanceTracking.tsx:40-48 | the preselected caption is always the caption of one of the shifts |
| Attendance.FindShift | components/Attendance/AttendanceTracking.tsx:40-48 | the first shift covering the hour, or none exactly when no shift covers it |
| Attendance.DefaultShiftChoice | components/Attendance/AttendanceTracking.tsx:40-48 | each in-hours hour picks its shift's caption; other hours pick the first shift |
| Attendance.KeySetMembers | components/Attendance/AttendanceTracking.tsx:64-68 | a key is in the directory's key set exactly when some entry has it |
| Attendance.Reverse | components/Attendance/AttendanceTracking.tsx:63-70 | the records in reverse order |
| Attendance.Directory | components/Attendance/AttendanceTracking.tsx:62-72 | at most one entry per record |
| Attendance.DirectoryDistinct | components/Attendance/AttendanceTracking.tsx:62-72 | no two entries share a lower-cased key |
| Attendance.DirectoryCovers | components/Attendance/AttendanceTracking.tsx:62-72 | every record's key has an entry |
| Attendance.DirectoryFirst | components/Attendance/AttendanceTracking.tsx:62-72 | every entry comes from one of the records |
| Attendance.DirectoryStep | components/Attendance/AttendanceTracking.tsx:66-69 | one more record adds its entry exactly when its key is new |
| Attendance.FirstPerKey | components/Attendance/AttendanceTracking.tsx:65-70 | the loop over the visited records keeps the first record of each key |
| Attendance.KnownStudentsOf | components/Attendance/AttendanceTracking.tsx:62-72 | no more entries than records, and no two entries share a lower-cased key |
| Attendance.KnownStudents | components/Attendance/AttendanceTracking.tsx:62-72 | the map-filling loop computes the deduplicated directory |
| Attendance.LatestRecordWins | components/Attendance/AttendanceTracking.tsx:63-70 | each entry is taken from a record of the list after which no record has the same key: the newest record wins |
| Attendance.KnownStudentsComplete | components/Attendance/AttendanceTracking.tsx:62-72 | one entry per lower-cased key: every key present, none repeated |
| Attendance.Suggestions | components/Attendance/AttendanceTracking.tsx:75-82 | empty for a blank term; otherwise the first up-to-six matching known students in directory order, all of them when six or fewer match |
| Attendance.IsAlreadyRecorded | components/Attendance/AttendanceTracking.tsx:85-92 | true exactly when a record of today and this shift has the same non-empty id or the same non-empty name |
| Attendance.TodayRecords | components/Attendance/AttendanceTracking.tsx:146-149 | exactly the records of today's calendar day, in order |
| Attendance.NewRecord | components/Attendance/AttendanceTracking.tsx:123-132 | trimmed name, trimmed id or none, the selected shift, now, the current user as recorder |
| Attendance.PaddedNameAdmittedTwice | components/Attendance/AttendanceTracking.tsx:85-92 | a name with surrounding spaces is stored trimmed, so the same raw name is not flagged as a duplicate |
| Attendance.CleanNameCaughtTwice | components/Attendance/AttendanceTracking.tsx:85-92 | a clean name recorded now is flagged when entered again for the same shift |
| Attendance.NextIndex | components/Attendance/AttendanceTracking.tsx:105-107 | `prev < n - 1 ? prev + 1 : 0`: one down below the last entry, back to 0 from the last entry or beyond; in range from any index of -1 or more |
| Attendance.PrevIndex | components/Attendance/AttendanceTracking.tsx:108-110 | `prev > 0 ? prev - 1 : n - 1`: one up above the first entry, to the last entry from 0 or -1; in range from any index up to n |
| Attendance.PrevIndexLeftover | components/Attendance/AttendanceTracking.tsx:110 | ArrowUp from an index more than one past a shortened list stays out of range |
| Attendance.ArrowsInverse | components/Attendance/AttendanceTracking.tsx:105-110 | on a selected index, ArrowUp undoes ArrowDown and the other way round |
| Attendance.ArrowDownCycles | components/Attendance/AttendanceTracking.tsx:105-107 | k presses of ArrowDown move k places, wrapping once |
| Attendance.ArrowDownFullCircle | components/Attendance/AttendanceTracking.tsx:105-107 | n presses over n suggestions return to the start |
| Attendance.AttendanceForm.constructor | components/Attendance/AttendanceTracking.tsx:30-48 | an empty form with the default shift for the hour, no list, no selection |
| Attendance.AttendanceForm.SelectStudent | components/Attendance/AttendanceTracking.tsx:94-100 | copies the id (or '') and the name, clears the search, hides the list, resets the selection |
| Attendance.AttendanceForm.KeyDown | components/Attendance/AttendanceTracking.tsx:102-117 | no suggestions or another key: nothing changes; arrows move only the index, by `NextIndex` and `PrevIndex`; Enter on a selected entry copies its id (or '') and name, clears the search, hides the list and resets the index; Enter with no entry selected changes nothing; Escape only hides the list; the shift never changes |
| Attendance.AttendanceForm.SetSearchTerm | components/Attendance/AttendanceTracking.tsx:193-197 | the term is set, the list shown, the selection reset |
| Attendance.AttendanceForm.Focus | components/Attendance/AttendanceTracking.tsx:191 | the list is shown |
| Attendance.AttendanceForm.ClearSearch | components/Attendance/AttendanceTracking.tsx:180 | the search term is cleared |
| Attendance.AttendanceForm.Hover | components/Attendance/AttendanceTracking.tsx:214 | the hovered suggestion becomes selected |
| Attendance.AttendanceForm.SetStudentId | components/Attendance/AttendanceTracking.tsx:247 | the id takes the typed value |
| Attendance.AttendanceForm.SetStudentName | components/Attendance/AttendanceTracking.tsx:254 | the name takes the typed value |
| Attendance.AttendanceForm.SetShift | components/Attendance/AttendanceTracking.tsx:268 | the shift takes the chosen value |
| Attendance.AttendanceForm.ResetForm | components/Attendance/AttendanceTracking.tsx:140-144 | id, name and search term are cleared |
| Attendance.AttendanceForm.Submit | components/Attendance/AttendanceTracking.tsx:119-138 | blank name or duplicate: nothing; otherwise exactly one new record, a cleared form, and the list shown because focus moves to the search field |
| Reports.DateMatch | components/Reports/Reports.tsx:21-32 | the all-time period admits every task; an unparsable date matches no other period |
| Reports.FilteredTasks | components/Reports/Reports.tsx:16-36 | an ordered subsequence meeting the type, user and date filters, holding every task that meets them |
| Reports.NoFilterKeepsAll | components/Reports/Reports.tsx:16-36 | with every filter at 'all', the report lists every task |
| Reports.RefilterNoOp | components/Reports/Reports.tsx:16-36 | filtering again with the same settings changes nothing |
| Reports.InvalidDateOnlyAllTime | components/Reports/Reports.tsx:21-32 | a task with an invalid date shows only under the all-time period |
| Reports.ExportRow | components/Reports/Reports.tsx:44-51 | six cells: type, student or 'غير محدد', duration, date, owner, rating or 'بدون تقييم' |
| Reports.ExportRows | components/Reports/Reports.tsx:41-51 | the header row, then one row per task, in order |
| Reports.ExportLines | components/Reports/Reports.tsx:54-56 | the quoted header line, then each task's quoted row, in order |
| Reports.CsvContent | components/Reports/Reports.tsx:54-56 | the content starts with the quoted header line |
| Reports.ExportText | components/Reports/Reports.tsx:59-60 | the byte-order mark, then the content |
| Reports.ExportLineOneLine | components/Reports/Reports.tsx:54-56 | no export line holds a line break when no cell does |
| Reports.QuotedRowOneLine | components/Reports/Reports.tsx:55 | a quoted row of one-line cells is one line |
| Reports.ExportLayout | components/Reports/Reports.tsx:41-56 | the content's lines are the quoted header, then each task's quoted row, in order |
| Reports.CleanAll | App.tsx:49-55 | every field cleaned, one for one |
| Reports.ExportRowRoundTrip | components/Reports/Reports.tsx:54-55 | an exported row of clean cells splits and cleans back to exactly its cells |
| Reports.ReimportShiftsColumns | App.tsx:45-57 | reading an exported row back puts the type in the student column and gives duration 15 |
| TaskList.VisibleTasks | components/Tasks/TaskList.tsx:17-19 | admins and supervisors see all tasks; others their own, in order |
| TaskList.RegularUserSeesOwnOnly | components/Tasks/TaskList.tsx:17-19 | a regular user sees a task exactly when they own it |
| TaskList.IsEditable | components/Tasks/TaskList.tsx:21-25 | an editable task's date always parses |
| TaskList.ActionsFor | components/Tasks/TaskList.tsx:88-118 | edit and delete exactly on tasks created today; rate exactly on tasks without a truthy rating |
| TaskList.InvalidDateArchived | components/Tasks/TaskList.tsx:21-25 | a task with an invalid date can never be deleted |
| TaskList.FindTask | components/Tasks/TaskList.tsx:29 | the first task with the id, or none exactly when no task has it |
| TaskList.Rated | components/Tasks/TaskList.tsx:29 | the same task with only its rating changed |
| TaskList.ZeroStarsStayUnrated | components/Tasks/TaskList.tsx:29 | confirming with no star chosen leaves the task unrated |
| TaskList.RatingDialog.constructor | components/Tasks/TaskList.tsx:14-15 | closed, no stars |
| TaskList.RatingDialog.Open | components/Tasks/TaskList.tsx:95 | the dialog targets the task and is open when its id is non-empty |
| TaskList.RatingDialog.ClickStar | components/Tasks/TaskList.tsx:134-141 | the stars become the clicked value in 1..5 |
| TaskList.RatingDialog.Cancel | components/Tasks/TaskList.tsx:151 | the dialog closes |
| TaskList.RatingDialog.Confirm | components/Tasks/TaskList.tsx:27-31 | the target task with only its rating set to the stars; stars reset and the dialog closes |
| Dashboard.DashboardTasks | components/Dashboard/Dashboard.tsx:18-21 | regular users count only their own tasks; the other roles count all |
| Dashboard.RatingSumOfRated | components/Dashboard/Dashboard.tsx:26-28 | unrated tasks add nothing to the rating sum |
| Dashboard.AverageRating | components/Dashboard/Dashboard.tsx:26-28 | no ratings exactly when no task has a truthy rating; otherwise the sum over the rated count |
| Dashboard.TaskTypes | components/Dashboard/Dashboard.tsx:31-34 | the type of each task, in order |
| Dashboard.DateLabels | components/Dashboard/Dashboard.tsx:38-41 | the locale date of each task, in order |
| Dashboard.Entries | components/Dashboard/Dashboard.tsx:35 | one entry per distinct key in first-seen order, with its count |
| Dashboard.ComputeStats | components/Dashboard/Dashboard.tsx:24-43 | total, rounded average, rating, per-type counts summing to the total, the last seven date groups |
| UserManagement.AddUser | components/Admin/UserManagement.tsx:17-25 | exactly one user appended with the entered fields; the others unchanged |
| UserManagement.DuplicateUsernameAllowed | components/Admin/UserManagement.tsx:19-25 | adding an existing username yields two users with that name |
| UserManagement.DeleteUser | components/Admin/UserManagement.tsx:31-35 | confirmed: exactly the users with other ids, in order; not confirmed: nothing |
| UserManagement.DeleteUserCount | components/Admin/UserManagement.tsx:31-35 | deleting removes as many users as carry the id |
| UserManagement.ChangeRole | components/Admin/UserManagement.tsx:37-39 | only the matching users' role changes; length, order and other fields kept |
| UserManagement.ChangeRoleIdempotent | components/Admin/UserManagement.tsx:37-39 | a repeated role change changes nothing more |
| UserManagement.ChangeRoleAbsent | components/Admin/UserManagement.tsx:37-39 | a role change for an absent id changes nothing |
| UserManagement.AddUserForm.constructor | components/Admin/UserManagement.tsx:12-15 | hidden form, empty fields, regular-user role |
| UserManagement.AddUserForm.Show | components/Admin/UserManagement.tsx:46 | the form's visibility takes the given value |
| UserManagement.AddUserForm.SetUsername | components/Admin/UserManagement.tsx:104 | the username takes the typed value |
| UserManagement.AddUserForm.SetPassword | components/Admin/UserManagement.tsx:114 | the password takes the typed value |
| UserManagement.AddUserForm.SetRole | components/Admin/UserManagement.tsx:123 | the role takes the chosen value |
| UserManagement.AddUserForm.Submit | components/Admin/UserManagement.tsx:17-29 | submitted only with a non-empty name and password (both inputs are `required`); the users with the new one appended; name and password cleared, form hidden, role kept |
| Login.FindUser | components/Auth/Login.tsx:21 | the first user with that username and password, or none exactly when no user has them |
| Login.SubmitLogin | components/Auth/Login.tsx:16-28 | submitted only with a non-empty username and password (both inputs are `required`); login succeeds exactly when a stored user has those credentials; a failure carries the error message |
| Login.NoUsersNoLogin | components/Auth/Login.tsx:18-19 | with no stored users, every login fails |
| Login.FirstMatchLogsIn | components/Auth/Login.tsx:21-24 | the first matching user in stored order is the one logged in |
| Login.SeedAdminLogsIn | App.tsx:89-91 | the seeded admin logs in with its seeded credentials |
| Sidebar.VisibleNavItems | components/Layout/Sidebar.tsx:15 | exactly the items open to the role, in table order |
| Sidebar.AdminSeesAll | components/Layout/Sidebar.tsx:15 | the admin sees all eight items |
| Sidebar.RegularUserRestricted | components/Layout/Sidebar.tsx:15 | a regular user never sees users, reports, analytics or call centre |
| Sidebar.RegularUserItem | components/Layout/Sidebar.tsx:15 | an item that admits the regular user is none of the four restricted ones |
| Sidebar.RegularUserEntry | constants.tsx:30-39 | the four restricted items do not list the regular-user role |
| Sidebar.OneHighlight | components/Layout/Sidebar.tsx:31-33 | exactly one shown item is highlighted for the active tab |
| Sidebar.NoDuplicateIds | components/Layout/Sidebar.tsx:15 | filtering the table keeps the ids distinct |

## Left out

- Network and storage I/O are not modelled as such. `fetch`, `response.text()`, `Blob`, object URLs, link clicks, `alert`, `confirm` and `console` are left out. Fetched text is an input (`Response`). The confirmation answer is a `bool` parameter. The browser store is a map field.
- The generative-AI service and the knowledge-base and analytics components are left out: they are calls into a foreign SDK.
- React rendering, effects, the ordering of asynchronous state updates, and the mousedown listener that closes the suggestion list are left out.
- Locale and timezone formatting are abstract functions of `Calendar`, and so are `toDateString`, month and year. The call-centre hourly distribution and the report file name are left out.
- `Dashboard.AverageRating` stops at the sum and the count: `toFixed(1)` is floating-point formatting. Only the "0.0" text of the no-rating case is kept.
- `Text.Lower` lower-cases ASCII letters only. Full Unicode case mapping is not modelled.
- Tally.Count: the source counts into a plain object (`acc: any = {}`). A key that names an inherited property behaves differently there. `toString` and `constructor` start from the inherited function, so their counter becomes a string such as `function toString() { [native code] }1`. An assignment to `__proto__` is ignored, so that key never appears. Here every key, these included, gets an ordinary counter starting at 1.
- Dashboard.Entries: the per-type and per-date groups use the same plain-object counter. Task types and date labels named `toString`, `constructor` or `__proto__` are counted as ordinary keys here (see `Tally.Count`).
- CallCenter.ComputeStats: the per-username counter is a plain object too. A username such as `toString`, `constructor` or `__proto__` is counted as an ordinary key here (see `Tally.Count`).
- ParseIntIntToString: numbers are unbounded integers here, while JavaScript numbers are doubles. The round trip is proved for every integer. In JavaScript, `${n}` prints a magnitude of 10^21 or more in exponent form, which `parseInt` reads back only as its leading digits. `parseInt` of a digit run beyond 2^53 rounds to the nearest double. Durations in the source never come near either bound.
- Averages.RoundedAverage: sums of durations are exact integer sums here. In JavaScript they are double sums, which agree only up to 2^53.
- Object key order (`Object.entries`) is modelled as insertion order. Integer-like keys, which JavaScript lists first, are not modelled; the keys here are names and dates.
- `Attendance.AttendanceForm.KeyDown`: Enter on an index beyond a shortened list throws in the source before any state changes. Here it changes nothing. ArrowUp from an index more than one past a shortened list is only decremented and stays out of range, as in the source (`Attendance.PrevIndexLeftover`).
- `TaskList.RatingDialog.Confirm`: when the target task is no longer in the list, the source passes `{ rating }` alone to the update. That update matches no id and changes nothing. Here the result is `None`.
- The registration, header and task-form screens are left out. They only build a record or look up a label, and the handlers in `App.AppState` cover the state they change.
- JSON encoding of the store is not modelled. The store holds typed lists directly.
- Plaintext password storage is reproduced, not judged.
