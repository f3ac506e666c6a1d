# Saturday Run & Coffee Club: a verified model of the registry core

The Saturday Run & Coffee Club site is where runners sign up for the weekly
Saturday morning run. This project models the rules at its core and proves
what they promise.

- **The Express server** (`server.js`) stores every registration in
  participants.json.
  - `POST /api/participants` is an upsert keyed on the trimmed,
    case-insensitive name.
  - GET, and the reply to POST, show only the last seven days.
  - `DELETE` clears the store, but only for the admin key.
- **The browser controller** (`js/app.js`, class `SaturdayRunClub`) keeps the
  same list in the page. It falls back to its own local upsert when the server
  refuses or is unreachable. It also:
  - lets an admin add and remove entries;
  - backs up and restores the list through localStorage, without the system
    entries;
  - exports the names;
  - reads participants out of issue comments;
  - computes the day offset to the next Saturday;
  - edits the event settings over a set of defaults.
- **The SuperClaude helper** (`src/superclaude_helper.py`):
  - suggests a persona from a task description;
  - numbers a command sequence;
  - looks entries up in its configuration.
- **The Playwright result analyzer**
  (`tests/playwright/superclaude_analyzer.py`):
  - turns a test-results record into an ordered list of issues and a
    PASS/WARNING/FAIL status;
  - writes the GitHub issue text for the HIGH-severity issues.

Files and modules:

| file | module | contents |
|---|---|---|
| `wrappers.dfy` | `Wrappers` | `Option`, `Result` |
| `text.dfy` | `Text` | the runtime string operations: trim, ASCII lower-casing, `startsWith`, substring, split, join, decimal printing |
| `participants.dfy` | `Participants` | the participant record and the upsert shared by server and client |
| `server.dfy` | `Server` | the three handlers, over the class `DataFile` that stands for participants.json |
| `app.dfy` | `App` | the controller, as the class `SaturdayRunClub` with the fields the source mutates, plus the pure functions it uses |
| `helper.dfy` | `PersonaHelper` | the helper |
| `analyzer.dfy` | `TestAnalyzer` | the analyzer |

Modelling conventions:

- Timestamps are integer milliseconds.
- The clock, `Date.now()` ids, `confirm` answers, URL parameters and the
  outcome of each file write or fetch are parameters.
- localStorage is a pair of fields of the controller.
- Python exceptions are the `Err` side of a `Result`.

## Model

| member | source | states |
|---|---|---|
| Text.ParseNatToString | src/superclaude_helper.py:112 | the number printed before each command is the decimal notation of its value: reading it back gives the number |
| Text.TrimRemovesBlankEnds | server.js:88 | the trimmed name is the input's stretch between a blank prefix and a blank suffix |
| Text.Trim | server.js:88 | `trim()` yields the empty string exactly when the input is all whitespace, otherwise a string that starts and ends with a non-whitespace character; the row above shows it is the input with its blank ends cut off |
| Participants.FirstMatch | server.js:98-100 | `find` on the lower-cased name: None exactly when no record matches; otherwise the index of a matching record with no match before it |
| Participants.Find | server.js:98-100 | the search loop returns the first match's index |
| Participants.Filter | server.js:61-66 | `filter` keeps exactly the records satisfying the predicate |
| Participants.FilterAppend | server.js:61-66 | filtering distributes over concatenation, so the filter keeps stored order |
| Participants.Upsert | server.js:98-115 | with a case-insensitive match, only the first match's timestamp changes and the length, order, other records and stored casing stay; without one, exactly the new record is appended and every earlier record is kept |
| Participants.UpsertKeepsNamesUnique | server.js:98-115 | if no two stored names are equal up to case before an upsert, none are after |
| Participants.UpsertRecordsName | server.js:102-114 | after an upsert some record has the registered name and the new timestamp |
| Participants.UpsertKeepsKeys | server.js:98-115 | a name already in the store stays in it after any upsert |
| Participants.UpsertTwice | server.js:98-115 | registering the same name twice leaves one record for it, carrying the second timestamp, and does not grow the list |
| Server.ActiveWindow | server.js:61-66 | the window holds exactly the stored records whose timestamp is strictly newer than `now` minus seven days |
| Server.CheckName | server.js:88-93 | a missing, empty or whitespace-only name is rejected with 400 "Name is required"; an accepted name is the trimmed one, non-empty with no whitespace at either end |
| Server.RegisteredIsListed | server.js:121-133 | the name just registered is always in the list the POST returns |
| Server.OtherRecordsStay | server.js:117-126 | registering another name keeps a stale record in the file while the window hides it |
| Server.DataFile.constructor | server.js:21-29 | a missing data file starts as an empty array |
| Server.DataFile.List | server.js:56-81 | GET returns the seven-day window and its count |
| Server.DataFile.Register | server.js:84-147 | a rejected name or a failed save leaves the store untouched (400 or 500); otherwise the whole upserted list is saved and the reply carries its window and that window's length; name uniqueness is preserved |
| Server.DataFile.Clear | server.js:150-177 | any key but "runclub2024" gives 403 and leaves the store; with the right key the reply always reports an empty list with count 0, while the store is emptied only when writing the empty array succeeds (the handler ignores a failed write) |
| App.DaysUntilSaturday | js/app.js:102-116 | the offset is at most 7, always lands on a Saturday, and is 7 exactly on Saturday from 10:00 on |
| App.DaysUntilSaturdayUnique | js/app.js:104-113 | those three facts pin down the offset: any offset with them equals the computed one |
| App.RealParticipants | js/app.js:527-529 | the backup filter keeps exactly the entries whose type is absent or neither "system_warning" nor "recovery_prompt" |
| App.BackupAfter | js/app.js:547-557 | the backup is written only when the filtered list is non-empty, and then it holds exactly the real entries |
| App.Names | js/app.js:566 | the export's `map` takes each entry's name, in list order |
| App.ExportLines | js/app.js:560-566 | the exported text splits at line breaks into exactly the names, in list order |
| App.ParseParticipantFromComment | js/app.js:223-238 | the parsed participant carries the comment's name (see the next two rows) and the comment's creation time |
| App.CommentNameWithoutNameLine | js/app.js:226-237 | a comment with no line starting "Name:" gives "Anonymous" |
| App.CommentNameIsLastNameLine | js/app.js:227-233 | otherwise the name is the trimmed rest of the last line starting "Name:" |
| App.NameLineFirst | js/app.js:223-238 | a comment that opens with a "Name:" line and has no other such line yields that line's trimmed name |
| App.ReplyOf | js/app.js:324-338 | the client treats a reply as accepted exactly when the server listed participants (`success: true`), and then takes the returned list as its participant list |
| App.BlankNameFallsBackUntrimmed | js/app.js:278-281 | a non-empty whitespace-only name passes the client check and gets 400 from the server, so the page falls back to its local upsert; when no stored name matches it case-insensitively, it is appended untrimmed |
| App.RestoreAsWritten | js/app.js:512-544 | as written, a restore reports failure exactly when a confirmed backup holds a real entry, and any success it reports has restored zero entries |
| App.RestoreAsWrittenLosesBackup | js/app.js:533-535 | a one-entry backup fails to restore as written, while the corrected restore stores the name |
| App.RegisterStepKeeps | server.js:98-115 | one posted registration keeps every stored name and keeps names unique |
| App.RegisterStepRecords | server.js:88-115 | one posted non-blank name is in the store afterwards under its trimmed key |
| App.RestoredStoreHasEveryName | js/app.js:527-535 | after the corrected restore, every non-blank backed-up name is in the server store, and names stay unique |
| App.PostAll | js/app.js:533-535 | the corrected loop leaves the server store equal to the stepwise registration of the names in order |
| App.Activity | js/app.js:754-759 | an activity input contributes its trimmed value exactly when it exists and is not blank |
| App.FilledActivities | js/app.js:754-759 | the collected activities are non-empty trimmed strings, at most one per input |
| App.FilledActivitiesAppend | js/app.js:754-759 | collecting activities distributes over concatenation of inputs, so their order is kept |
| App.CollectActivities | js/app.js:754-759 | the loop over inputs 1 to 4 pushes exactly the filled activities, in order |
| App.TrimOr | js/app.js:744-747 | `value.trim() \|\| fallback`: a blank value gives the fallback, any other its non-empty trimmed form |
| App.ConfigFromForm | js/app.js:742-764 | a blank title, description or time falls back to the default; location and announcement are trimmed and may be empty; the filled activities are used unless there are none, and then the default activities are |
| App.MergeOverDefaults | js/app.js:693 | each field is the stored value where the stored object has the key, else the default |
| App.LoadAfterSave | js/app.js:689-704 | loading a saved configuration gives it back; an empty stored object gives the defaults |
| App.TrimmedIsOwnTrim | js/app.js:744-751 | a value with no whitespace at either end is its own trim |
| App.ShownActivity | js/app.js:733-759 | an input showing a non-empty trimmed activity contributes exactly that activity |
| App.EmptyInputActivity | js/app.js:733-759 | an input left empty contributes nothing |
| App.FormOf | js/app.js:725-739 | the edit form shows the current title, description, time, location and announcement as stored, the current activities in its first inputs and empty strings in the rest |
| App.FilledActivitiesOfShown | js/app.js:733-759 | inputs showing the activities and then empty strings collect back to those activities |
| App.SaveUnchangedForm | js/app.js:725-764 | opening the editor on a well-formed configuration and saving it unchanged gives the same configuration |
| App.SaturdayRunClub.constructor | js/app.js:9-19 | the field initialisation before `init()` runs: no participants, the default event and admin mode off, over what storage already holds |
| App.SaturdayRunClub.CheckAdminMode | js/app.js:456-466 | admin mode turns on exactly when the `admin` parameter equals the key, and is never turned off |
| App.SaturdayRunClub.AutoBackup | js/app.js:547-557 | the stored backup becomes the real entries when there are any, else stays as it was |
| App.SaturdayRunClub.AddParticipantLocally | js/app.js:367-399 | local upsert of the untrimmed name: the first case-insensitive match has its timestamp refreshed, or one record is appended; the list is saved; name uniqueness is preserved |
| App.SaturdayRunClub.SubmitParticipation | js/app.js:310-340 | an accepted reply replaces the list with the server's and backs it up; any other outcome falls back to the local upsert |
| App.SaturdayRunClub.HandleJoinSubmission | js/app.js:269-307 | only a missing or empty name is refused with the validation alert, with nothing changed; any other name is submitted: an accepted reply replaces the list with the server's and backs it up, otherwise the local upsert is made and saved |
| App.SaturdayRunClub.ConfirmAddParticipant | js/app.js:600-625 | a blank name or a case-insensitive duplicate is refused and nothing changes; otherwise exactly one record with the trimmed name is appended at the end and the real entries are backed up; uniqueness is preserved |
| App.SaturdayRunClub.RemoveParticipant | js/app.js:628-638 | an out-of-range index or an unconfirmed removal changes nothing; otherwise exactly element `index` is removed, the rest keep their order, and the backup follows |
| App.SaturdayRunClub.ClearAllParticipants | js/app.js:477-509 | an unconfirmed clear changes nothing; a confirmed one empties the list, and drops the stored backup only when the server could not clear |
| App.SaturdayRunClub.ExportParticipants | js/app.js:560-579 | an empty list exports nothing; otherwise the text is the names joined by line breaks |
| App.SaturdayRunClub.RestoreFromLocalStorage | js/app.js:512-544 | corrected restore: no backup, an empty backup and an unconfirmed restore each give their own notice and leave the server store untouched; a confirmed non-empty backup is always restored: each real name is posted in order and the count of them is reported |
| App.SaturdayRunClub.LoadEventConfig | js/app.js:689-699 | no stored configuration keeps the current one; unreadable JSON gives the defaults; otherwise the stored keys override the defaults |
| App.SaturdayRunClub.SaveEventConfig | js/app.js:742-778 | the new configuration is the form merged with the defaults as in ConfigFromForm, and it is what is stored |
| App.SaturdayRunClub.ResetEventConfig | js/app.js:781-789 | a confirmed reset restores and stores the defaults; otherwise nothing changes |
| PersonaHelper.Get | src/superclaude_helper.py:54 | `dict.get` gives the stored value for a present key and the default for a missing one |
| PersonaHelper.SectionEntry | src/superclaude_helper.py:54-55 | a missing section or key gives `[]`; a section that is not an object raises AttributeError; otherwise the stored entry |
| PersonaHelper.WorkflowCommands | src/superclaude_helper.py:44-55 | `get_workflow_commands`: `[]` for a missing `workflow_patterns` section or key, else the configured entry |
| PersonaHelper.QualityChecklist | src/superclaude_helper.py:57-68 | `get_quality_checklist`: `[]` for a missing `quality_checklist` section or key, else the configured entry |
| PersonaHelper.DefaultConfigHasNoWorkflows | src/superclaude_helper.py:35-42 | the built-in configuration yields `[]` for every workflow and checklist key |
| PersonaHelper.WorkflowLookup | src/superclaude_helper.py:54-55 | with a `workflow_patterns` object, a present key gives its entry and an absent one `[]` |
| PersonaHelper.AutoCleanupEnabled | src/superclaude_helper.py:120-122 | False when `auto_cleanup` is absent, else the configured value |
| PersonaHelper.DefaultConfigEnablesAutoCleanup | src/superclaude_helper.py:35-42 | the built-in configuration has auto-cleanup on, and removing the key turns it off |
| PersonaHelper.FirstMatchingGroup | src/superclaude_helper.py:82-93 | None exactly when no group has a keyword in the text; otherwise the persona of a matching group with no match before it |
| PersonaHelper.FirstElement | src/superclaude_helper.py:95 | `[0]` on the configured value: a list's first item or a string's first character; an empty one raises IndexError, a dict KeyError, anything else TypeError |
| PersonaHelper.PersonaGroupsInOrder | src/superclaude_helper.py:82-93 | the groups are tried in the order frontend, backend, architect, analyzer, security, scribe |
| PersonaHelper.SuggestPersona | src/superclaude_helper.py:70-95 | the lower-cased description is classified by the first matching group; with none, the first preferred persona, defaulting to "architect" |
| PersonaHelper.FrontendKeywordWins | src/superclaude_helper.py:82-83 | any frontend keyword in the description gives "frontend", whatever else it contains |
| PersonaHelper.FallbackPersona | src/superclaude_helper.py:94-95 | with no keyword match, the built-in configuration and any configuration without `preferred_personas` give "architect" |
| PersonaHelper.NumberedLines | src/superclaude_helper.py:110-113 | one line `"{i}. {cmd}"` per command, numbered consecutively in input order |
| PersonaHelper.FormatCommandSequence | src/superclaude_helper.py:97-114 | the empty list gives the fixed "no commands" message; otherwise the header, then one numbered line per command |
| PersonaHelper.NumberedLinesSnoc | src/superclaude_helper.py:110-113 | one more command adds one more numbered line at the end |
| PersonaHelper.ListingIsJoinedLines | src/superclaude_helper.py:110-113 | the accumulated listing is the numbered lines, each ended by a line break |
| PersonaHelper.NumberedLineHasNoNewline | src/superclaude_helper.py:112 | a numbered line of a one-line command is one line |
| PersonaHelper.FormattedIsJoined | src/superclaude_helper.py:110-114 | the formatted text is the header and the numbered lines joined by line breaks, with a trailing one |
| PersonaHelper.FormattedLines | src/superclaude_helper.py:107-114 | for one-line commands, the formatted text splits into exactly the header, the numbered commands from 1 in order, and an empty tail |
| TestAnalyzer.FailedNames | tests/playwright/superclaude_analyzer.py:47-78 | exactly the names whose status is falsy: empty exactly when every status is true |
| TestAnalyzer.FailedNamesAppend | tests/playwright/superclaude_analyzer.py:47-78 | failed names are collected in table order, the order the joined messages print them |
| TestAnalyzer.IssueFor | tests/playwright/superclaude_analyzer.py:35-88 | the issue a rule appends carries its category, HIGH for performance and functional and MEDIUM otherwise, and the category's recommendation |
| TestAnalyzer.Rule | tests/playwright/superclaude_analyzer.py:35-88 | each rule contributes at most one issue, and one exactly when its condition holds |
| TestAnalyzer.ExpectedStatus | tests/playwright/superclaude_analyzer.py:26-78 | FAIL exactly when a functional test failed; WARNING exactly when the load was slow and no functional test failed |
| TestAnalyzer.CheckPerformance | tests/playwright/superclaude_analyzer.py:35-44 | `loadTime > 3000` appends the HIGH PERFORMANCE issue and sets WARNING |
| TestAnalyzer.CheckBrowsers | tests/playwright/superclaude_analyzer.py:47-55 | falsy browsers append one MEDIUM COMPATIBILITY issue listing them; the status is untouched |
| TestAnalyzer.CheckAccessibility | tests/playwright/superclaude_analyzer.py:58-66 | a score below 80, missing counting as 0, appends one MEDIUM ACCESSIBILITY issue |
| TestAnalyzer.CheckFunctional | tests/playwright/superclaude_analyzer.py:69-78 | a falsy functional test appends the HIGH FUNCTIONAL issue and sets FAIL over any earlier status |
| TestAnalyzer.CheckResponsive | tests/playwright/superclaude_analyzer.py:81-88 | `responsive` false appends one MEDIUM RESPONSIVE issue; a missing key counts as true |
| TestAnalyzer.AnalyzeTestResults | tests/playwright/superclaude_analyzer.py:21-90 | the analysis holds the timestamp, the status above and the five rules' issues in order |
| TestAnalyzer.UnfoldRuleOrder | tests/playwright/superclaude_analyzer.py:34-88 | the issue list is the five rules' contributions, in rule order |
| TestAnalyzer.RuleListSound | tests/playwright/superclaude_analyzer.py:34-88 | every issue listed comes from a rule that fired |
| TestAnalyzer.OrderedAppend | tests/playwright/superclaude_analyzer.py:34-88 | appending a later rule's issue keeps the list in rule order |
| TestAnalyzer.RuleListOrdered | tests/playwright/superclaude_analyzer.py:34-88 | rules run in rank order produce issues in rank order |
| TestAnalyzer.RuleListComplete | tests/playwright/superclaude_analyzer.py:34-88 | every rule that fires has its issue in the list |
| TestAnalyzer.RuleOrderCoversAll | tests/playwright/superclaude_analyzer.py:34-88 | every category has a rule |
| TestAnalyzer.IssuesInRuleOrder | tests/playwright/superclaude_analyzer.py:34-88 | issues appear in the order PERFORMANCE, COMPATIBILITY, ACCESSIBILITY, FUNCTIONAL, RESPONSIVE, at most one per category |
| TestAnalyzer.IssueIffTriggered | tests/playwright/superclaude_analyzer.py:34-88 | a category is reported exactly when its condition holds |
| TestAnalyzer.IssueFields | tests/playwright/superclaude_analyzer.py:38-87 | every reported issue has its category's severity and recommendation |
| TestAnalyzer.StatusMatchesIssues | tests/playwright/superclaude_analyzer.py:26-88 | FAIL exactly when a FUNCTIONAL issue is reported; PASS exactly when no HIGH issue is |
| TestAnalyzer.HighIssues | tests/playwright/superclaude_analyzer.py:171 | the comprehension keeps exactly the HIGH issues |
| TestAnalyzer.HighIssuesAppend | tests/playwright/superclaude_analyzer.py:171 | the HIGH filter distributes over concatenation, so it keeps order |
| TestAnalyzer.HighIssuesOfRule | tests/playwright/superclaude_analyzer.py:171 | a rule's HIGH issues are its issue if the category is HIGH, else none |
| TestAnalyzer.HighIssuesOfFive | tests/playwright/superclaude_analyzer.py:171 | filtering the five contributions keeps only the two HIGH ones |
| TestAnalyzer.HighIssuesOfAnalysis | tests/playwright/superclaude_analyzer.py:171 | the HIGH issues of an analysis are the performance issue then the functional one |
| TestAnalyzer.CreateGithubIssue | tests/playwright/superclaude_analyzer.py:168-208 | without HIGH issues the fixed all-clear message; otherwise the header, one section per HIGH issue numbered from 1 in order, and the fixed trailer |
| TestAnalyzer.IssueSections | tests/playwright/superclaude_analyzer.py:176-191 | the loop produces the header followed by the numbered issue sections |
| TestAnalyzer.ReportPrefixStartsWithLineBreak | tests/playwright/superclaude_analyzer.py:176-191 | the issue text starts with a line break, so it never equals the all-clear message |
| TestAnalyzer.AllClearIffNoHighIssue | tests/playwright/superclaude_analyzer.py:171-174 | the all-clear message is produced exactly when there is no HIGH issue |
| TestAnalyzer.AllClearIffPass | tests/playwright/superclaude_analyzer.py:26-174 | for an analysis the analyzer produced, the all-clear message appears exactly when the status is PASS |

## Left out

- Case-insensitive matching folds only ASCII letters. `toLowerCase` and `lower()` also fold other scripts.
- JSON parsing and serialising, and values of the wrong JSON type, are not modelled. The load time and the accessibility score are integers; the source would also accept floats.
- HTTP plumbing is not modelled: Express routing, CORS, static files, `fetch`. A server answer reaches the client as a reply value.
- The catch-all 500 paths of the GET, POST and DELETE handlers are not modelled.
- File I/O is not modelled:
  - `readParticipants` is taken to yield the stored array;
  - `saveParticipants` is a boolean outcome, and a failed write is taken to leave the file unchanged.
- The unlocked read-modify-write race between concurrent POSTs is not modelled.
- Server.DataFile.Register: one `now` stands for the clock during a request. The source reads `new Date()` separately for each record it writes and for the window.
- Dates are not modelled. `created_at` and ISO timestamps are integer milliseconds, and `toLocaleDateString` is left out. getNextSaturday's `setDate` month rollover is left out; only the day offset is modelled.
- Browser plumbing is not modelled: the DOM, rendering (including `updateNextSaturday`, which only shows the date), `escapeHtml`, modals, notifications, timers and the Blob download.
- `confirm`, the URL `admin` parameter and localStorage become inputs and fields.
- App.SaturdayRunClub.HandleJoinSubmission: localStorage writes are taken to succeed. So the error alert of `handleJoinSubmission` (js/app.js:299-301) is not modelled. The source reaches it when `addParticipantLocally`'s save throws (js/app.js:392, 395-397), after the in-memory list was already upserted.
- These app.js operations load from GitHub or from storage and are not modelled: `init`, `loadCurrentEvent`, `loadParticipants`, `loadParticipantsFromAPI`, `loadParticipantsFromLocal`.
- App.SaturdayRunClub.RestoreFromLocalStorage models the restore as evidently intended (see Findings). The code as written is App.RestoreAsWritten.
- App.SaturdayRunClub.SaveEventConfig: the form is given as strings, with a missing activity input as None. Reading the DOM is left out.
- src/superclaude_helper.py: `get_mcp_servers`, the module-level convenience functions and the file reading in `_load_config` are not modelled. The configuration is a map.
- PersonaHelper.AutoCleanupEnabled returns the stored JSON value. Python's truthiness of a non-boolean value is not modelled.
- tests/playwright/superclaude_analyzer.py: `generate_report` and `save_report` are not modelled. Neither is the analysis dict's keys that no rule fills (`recommendations`, `performance_metrics`, `browser_compatibility`, `accessibility_score`).
- TestAnalyzer.FailedNames: the status of a browser or functional test is a boolean. Python's truthiness of other values is not modelled.
- The five Check methods are one source function split into its five rules. IssueSections is the loop of `create_github_issue` as a method of its own.
- The fixed texts (default event, issue header and trailer, messages) are written as concatenations of pieces or as joined lines. They denote the same strings.

## Findings

| source | as written | input that shows it | evidently intended | confidence | as-written member | corrected member |
|---|---|---|---|---|---|---|
| js/app.js:534 | `restoreFromLocalStorage` awaits `this.addParticipantToAPI(...)`, which the class never defines. The first real backed-up entry throws a TypeError; the catch reports that the restore failed and nothing is sent. | A backup holding one real entry named "Kim", with the restore confirmed | Post each real backed-up name to `/api/participants`, as `submitParticipation` does, and report how many were restored | not executed | App.RestoreAsWritten, App.RestoreAsWrittenLosesBackup | App.SaturdayRunClub.RestoreFromLocalStorage, App.PostAll, App.RestoredStoreHasEveryName |
