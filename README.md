# ClearVision team management: a verified model of the task core

ClearVision is a nonprofit's team dashboard. A founder manages members and
assigns them weekly tasks, typing commands into an "ask" bar. A member
completes tasks by submitting a report. This project models that core in
Dafny:

- **`IsoWeek`**: `getWeekNumber`, which is written out three times in the
  source. The model computes it on day numbers, calendar dates and
  weekdays. It is proved to be the ISO 8601 week number, with its
  week-numbering year, against an independent definition: week 1 is the
  week holding the year's first Thursday.
- **`AskBar`**: `processAiCommand` on the founder dashboard. The prompt is
  lower-cased and tested for keywords, which decide the category and the
  type. Then one task-creation request goes to each active member. The
  report notification is decided by its own keywords. The module also
  holds the overview's active and flagged member tiles.
- **`MockData`**: the in-memory fallback store `mockDataService`. It is a
  class whose three sequences (users, open tasks, completed tasks) are
  appended to and updated in place by its methods.
- **`Database`**: the persistence service, with the hosted backend
  replaced by abstract collections. It covers:
  - the where-clauses it builds and the records it sends to `create` and
    `update`;
  - the leave-request processing stamp;
  - the team statistics;
  - how its task and member listings differ from the fallback's.
- **`MemberDashboard`**: `handleTaskSubmission` as a session class whose
  writes to the backend are logged in order. It also covers the weekly
  progress figure, the status badge colours and the open-task query.
- **`AddMember`**: the add-member form. It checks for blank fields, then
  tests the e-mail as typed against `^[^\s@]+@[^\s@]+\.[^\s@]+$`, then
  builds the normalised member record. The pattern is given as a language
  of five-part splits. The executable test is proved to accept exactly
  that language.
- **`Text`**, **`Seqs`**, **`Domain`**, **`Wrappers`**: the shared pieces:
  - JavaScript's white space class, `trim`, `toLowerCase` and `includes`;
  - `find`, `findIndex` and `filter`;
  - the records, their `||` defaulting and `{...t, ...u}` merging;
  - the rounded percentage.

Behaviours of the source that the model makes explicit:

- An empty status list behaves differently in the two task listings. The
  fallback treats `[]` as a list and returns no tasks. The service treats
  it as "no filter" and returns all of the user's tasks
  (`Database.TasksForUserAgreesWithFallback`).
- Removed members differ between the two member listings. The fallback's
  `getTeamMembers` still lists them; the service's does not
  (`Database.RemovedMemberNotListed`).
- Completing a task in the fallback store updates it where it is: it stays
  in the open-task list (`MockData.MockStore.UpdateTask`).
- A completion rate of 100 does not mean every task is done: 199 of 200
  rounds up (`Database.NinetyNinePointFiveRoundsUp`).
- Assigned tasks are tagged with the ISO week number but the calendar
  year. A task assigned on 1 January 2023 (ISO week 52 of 2022) gets the
  same week and year as one assigned on 25 December 2023
  (`AskBar.WeekTagCollision`).
- An e-mail typed with surrounding spaces passes the blank check but
  fails the pattern, which is tested before trimming
  (`AddMember.SurroundingSpaceRejected`).

Model conventions:

- Clock readings are integer milliseconds, passed in as parameters.
- Dates are `CivilDate` values.
- Generated ids are parameters, except the add-member form's
  `member_<ms>` id.
- Whether each awaited backend call succeeds is a boolean parameter.

## Model

| member | source | states |
|---|---|---|
| Text.TrimEmptyIffAllSpace | src/components/AddMemberDialog.tsx:25 | a field is blank after `trim` exactly when every character is JavaScript white space |
| Text.TrimNoSpace | src/components/AddMemberDialog.tsx:50-51 | trimming a string without white space returns it unchanged |
| Text.ToLowerAt | src/components/AddMemberDialog.tsx:51 | `toLowerCase` maps each character on its own, ASCII capitals to small letters |
| Text.IncludesLower | src/pages/FounderDashboard.tsx:63-65 | a word occurring in the prompt still occurs, lower-cased, in the lower-cased prompt |
| Seqs.FindIndex | src/services/mockData.ts:228 | `findIndex` returns the first index whose element satisfies the test, or none when no element does |
| Seqs.Find | src/services/mockData.ts:204 | `find` returns the first element of the sequence that satisfies the test (no earlier element does), and none exactly when no element does |
| Seqs.Filter | src/services/mockData.ts:208 | `filter` keeps exactly the elements satisfying the test: each kept element is in the input and satisfies it, and each input element satisfying it is kept |
| Seqs.FilterNone | src/services/mockData.ts:241 | a test no element passes leaves nothing |
| Seqs.FilterAppend | src/services/mockData.ts:255 | filtering a concatenation filters each part and concatenates |
| Seqs.FilterCongruent | src/pages/FounderDashboard.tsx:359 | two tests that agree on every element give the same filtered sequence |
| Domain.OrText | src/services/databaseService.ts:128 | `x \|\| d` on text yields `x` when present and non-empty, `d` otherwise |
| Domain.OrNumber | src/services/databaseService.ts:134 | `x \|\| d` on a number yields `x` when present and non-zero, `d` otherwise |
| Domain.NewUser | src/services/mockData.ts:211-225 | the created user has the new id and never an empty name; a given non-empty name or e-mail and a given role or status are kept; a missing join time becomes now |
| Domain.NewUserDefaults | src/services/mockData.ts:211-225 | an empty partial user becomes name "New User", role member, status active, joined now, both counters 0 |
| Domain.NewUserIdempotent | src/services/mockData.ts:212-222 | feeding a created user back into creation reproduces it, whatever the clock reads |
| Domain.NewTask | src/services/mockData.ts:260-279 | the created task has the new id and the given completion time; a given non-zero week or year and a given status or non-empty title are kept; with a non-zero current week (year) the task's week (year) is never 0 |
| Domain.NewTaskDefaults | src/services/mockData.ts:260-279 | an empty partial task becomes type weekly, category other, status pending, no completion time, the current week and year |
| Domain.Merge | src/services/mockData.ts:284 | a field present in the update wins (id, status, completion time); an absent one keeps the task's value, so an update without week and year keeps both |
| Domain.MergeNeutralAndIdempotent | src/services/mockData.ts:284 | merging an empty update changes nothing; merging an update twice equals merging it once |
| Domain.MergeCompose | src/services/mockData.ts:290 | two updates in a row equal one update with the second's fields winning |
| Domain.CategoryNameInjective | src/pages/MemberDashboard.tsx:72 | distinct categories are stored as distinct non-empty strings |
| Domain.NewSubmission | src/services/mockData.ts:298-310 | the stored submission has the new id, keeps a given non-empty task id and details, copies feedback and score as given, and is stamped now when no time is given |
| Domain.RoundedPercent | src/services/mockData.ts:327 | the rounded percentage lies in 0..100, is 0 without tasks, and is the nearest integer to `100*part/whole` with halves rounded up |
| Domain.RoundedPercentExtremes | src/services/databaseService.ts:508-510 | all tasks done gives 100; none done gives 0 (100 alone does not mean all done: see `Database.NinetyNinePointFiveRoundsUp`) |
| IsoWeek.JanFirstClosedForm | src/pages/FounderDashboard.tsx:32 | the recursive day number of 1 January agrees with the Gregorian leap-year count |
| IsoWeek.ThursdayOf | src/services/databaseService.ts:529-531 | shifting by `4 - (getUTCDay() \|\| 7)` lands on the Thursday of the date's Monday-to-Sunday week |
| IsoWeek.ThursdayYear | src/services/databaseService.ts:532 | the year taken from that Thursday is the year holding it |
| IsoWeek.WeekNumber | src/pages/FounderDashboard.tsx:28-34 | the week number lies in 1..53 |
| IsoWeek.WeekNumberIsIso | src/services/databaseService.ts:527-533 | the date lies in ISO week `WeekNumber` of the Thursday's year, where week 1 is the Monday-to-Sunday week holding the year's first Thursday |
| IsoWeek.IsoWeekOfDayUnique | src/services/databaseService.ts:527-533 | a day lies in one ISO week of one ISO year only |
| IsoWeek.IsoWeekUnique | src/services/mockData.ts:91-97 | the ISO week-numbering year and week holding a date are unique, so the code's result is the only correct one |
| IsoWeek.FirstMondayOf2024 | src/pages/FounderDashboard.tsx:28-34 | 1 January 2024 is in week 1 of 2024 |
| IsoWeek.NewYear2023 | src/services/mockData.ts:91-97 | 1 January 2023 is in week 52 of 2022 |
| AskBar.ClassifySpec | src/pages/FounderDashboard.tsx:63-84 | tasks are assigned exactly when the lower-cased prompt holds "assign" and "task"; grant beats sponsor beats partner; the type is custom exactly for "custom" or "one-time"; never research or one_time; the report flag depends only on "report"/"summary" |
| AskBar.Classify | src/pages/FounderDashboard.tsx:63-84 | an assignment is never of category research nor of type one_time |
| AskBar.ClassifyIgnoresCase | src/pages/FounderDashboard.tsx:63-65 | a prompt holding "assign" and "task" in any letter case triggers an assignment |
| AskBar.TemplateFor | src/pages/FounderDashboard.tsx:93-111 | every template has a non-empty title, description and explanation, so the `\|\|` defaults never replace them; the generic "Weekly Team Task" is used exactly for categories other than grant and sponsor |
| AskBar.TemplateFallback | src/pages/FounderDashboard.tsx:106-110 | partner, research and other categories all get the generic "Weekly Team Task" template |
| AskBar.AssignTasks | src/pages/FounderDashboard.tsx:61-155 | no requests without an assignment; otherwise exactly one request per active member, in team order, each for that member with the shared batch fields; the report notification follows the classification |
| AskBar.CreatedTaskFields | src/pages/FounderDashboard.tsx:112-125 | each created task belongs to its member, is pending with no completion time, is due 7 days after assignment, and carries the week number and year of the assignment day |
| AskBar.WeekTagCollision | src/pages/FounderDashboard.tsx:87-88 | 1 January 2023 and 25 December 2023 assignments carry the same week 52 and year 2023, though their ISO years differ |
| AskBar.OnlyActiveMembersAssigned | src/pages/FounderDashboard.tsx:68 | every target is an active team member, and every active one is a target |
| AskBar.OverviewCounts | src/pages/FounderDashboard.tsx:359 | the active tile (and the flagged tile, line 407) counts exactly the active (flagged) members; the added "not removed" test changes nothing |
| MockData.SliceTo | src/services/mockData.ts:249 | `slice(0, end)` returns a prefix of length `min(end, n)`, or `max(n + end, 0)` for a negative end |
| MockData.TasksOfUser | src/services/mockData.ts:238-244 | the result is the user's open tasks in store order, narrowed (order kept) to the listed statuses when a list is given; it holds exactly the user's tasks with a listed status (all of them without a list); an empty list yields none |
| MockData.MockStore.constructor | src/services/mockData.ts:99-100 | the store starts with the given users, open and completed tasks, and fixes its current week (1..53, the ISO week of the load day) and current year once |
| MockData.MockStore.GetUserByUserId | src/services/mockData.ts:203-205 | returns the first user with that external id, or none exactly when there is none |
| MockData.MockStore.GetTeamMembers | src/services/mockData.ts:207-209 | returns the users with role member in store order, removed ones included |
| MockData.MockStore.CreateUser | src/services/mockData.ts:211-225 | appends the defaulted user and changes nothing else |
| MockData.MockStore.RemoveMember | src/services/mockData.ts:227-235 | reports whether a user has the record id; if so, sets the status of the first such user (no earlier user has the id) to removed and changes nothing else |
| MockData.MockStore.GetTasksForUser | src/services/mockData.ts:238-244 | reads the store's open tasks as `TasksOfUser` |
| MockData.MockStore.GetCompletedTasksForUser | src/services/mockData.ts:246-252 | a prefix of the user's completed tasks: all of them when the limit is missing or 0, `min(limit, n)` of them for a positive limit |
| MockData.MockStore.GetWeeklyTasks | src/services/mockData.ts:254-258 | the open tasks, then the completed ones, of the given week and year, each part in store order |
| MockData.MockStore.CreateTask | src/services/mockData.ts:260-279 | appends the defaulted task to the open tasks only, a missing week or year taken from the store's load-time week and year |
| MockData.MockStore.UpdateTask | src/services/mockData.ts:281-295 | merges the update into the first open task with the id, else the first completed one, else changes nothing and returns none |
| MockData.MockStore.GetStatistics | src/services/mockData.ts:322-336 | active and flagged are the numbers of members with that status; the total counts both lists and completed the completed list; the rate is the rounded percentage of completed over total (0..100, 0 without tasks); active plus flagged never exceeds the users |
| MockData.MemberCountsDisjoint | src/services/mockData.ts:323-324 | no user is counted both active and flagged |
| Database.TasksForUserWhere | src/services/databaseService.ts:189-192 | no status condition for a missing or empty list, equality for one status, `in` for several |
| Database.TasksForUserWhereSelects | src/services/databaseService.ts:187-203 | the clause selects exactly the user's tasks with a listed status, or all of the user's tasks without a non-empty list |
| Database.GetTasksForUser | src/services/databaseService.ts:187-203 | the listing holds exactly the user's tasks with a listed status, or all of the user's tasks when the list is missing or empty |
| Database.TasksForUserAgreesWithFallback | src/services/databaseService.ts:187-203 | the service and the fallback return the same tasks except for an empty list, where the fallback returns none and the service all |
| Database.GetTeamMembers | src/services/databaseService.ts:157-171 | exactly the users with role member and a status other than removed |
| Database.RemovedMemberNotListed | src/services/databaseService.ts:173-185 | after removal a member drops out of the service's listing but stays in the fallback's |
| Database.GetUserByUserId | src/services/databaseService.ts:112-123 | a user with that external id, or none exactly when there is none |
| Database.CreateTask | src/services/databaseService.ts:238-260 | a missing or 0 week becomes the current ISO week (1..53); a given non-zero week is kept; missing status, type and category become pending, weekly, other |
| Database.CreateUser | src/services/databaseService.ts:125-142 | missing or empty name becomes "New User"; missing role, status and counters become member, active, 0, 0 |
| Database.UpdateLeaveRequest | src/services/databaseService.ts:336-348 | `processedAt` is set to now unless the update sets the status to pending (also when it sets no status), and sent as `undefined` otherwise; the other fields pass through; `updatedAt` is now |
| Database.GetTeamStatistics | src/services/databaseService.ts:481-524 | active and flagged are the numbers of users the member-and-status queries return; completed counts the tasks whose status is completed; the rate is the rounded percentage of completed over all tasks (0..100, 0 without tasks); pending counts the pending leave requests; active plus flagged never exceeds the users |
| Database.ActiveFlaggedDisjoint | src/services/databaseService.ts:491-497 | the active and flagged queries never both count a user |
| Database.CompletionRateExtremes | src/services/databaseService.ts:508-510 | in the team statistics as a whole, all tasks completed gives rate 100 and none completed gives 0 |
| Database.NinetyNinePointFiveRoundsUp | src/services/databaseService.ts:508-510 | 199 completed of 200 already shows 100 |
| Database.IsUsingMockData | src/services/databaseService.ts:546-548 | the service never reports using the fallback |
| MemberDashboard.Session.constructor | src/pages/MemberDashboard.tsx:19-20 | nothing selected, empty report, no writes issued |
| MemberDashboard.Session.Select | src/pages/MemberDashboard.tsx:19-20 | selecting a task and typing a report issues no write |
| MemberDashboard.SubmissionFor | src/pages/MemberDashboard.tsx:69-75 | the submission names the task, the member and the report as typed, has a non-empty type, and carries no feedback or score |
| MemberDashboard.Session.HandleTaskSubmission | src/pages/MemberDashboard.tsx:63-122 | without a task or with a blank report nothing happens; otherwise the submission is written first, the completing update only after it succeeded, and the selection and report are cleared only when every step succeeded; every update follows the submission for the same task |
| MemberDashboard.SubmissionRecords | src/pages/MemberDashboard.tsx:67-79 | the stored submission keeps the report untrimmed and the task's category as its type; the updated task is completed with its completion time and keeps its identity |
| MemberDashboard.WeeklyProgress | src/pages/MemberDashboard.tsx:56-61 | the progress lies in 0..100, is 0 with nothing completed, and is 100 exactly when something is completed and nothing is open |
| MemberDashboard.StatusColor | src/pages/MemberDashboard.tsx:128-136 | the grey fallback colour is used exactly for strings other than the four statuses |
| MemberDashboard.StatusColorsDistinct | src/pages/MemberDashboard.tsx:128-136 | the four statuses get four distinct badge colours, none of them the grey fallback |
| MemberDashboard.OpenTasksQuery | src/pages/MemberDashboard.tsx:29 | the open-task query is an `in` clause selecting exactly the member's pending and in-progress tasks |
| AddMember.IsEmailMatchesPattern | src/components/AddMemberDialog.tsx:35-36 | the executable test accepts exactly the strings of the pattern's language |
| AddMember.MatchedShape | src/components/AddMemberDialog.tsx:35 | an accepted address holds exactly one '@' and no white space |
| AddMember.SurroundingSpaceRejected | src/components/AddMemberDialog.tsx:25-36 | an address with leading or trailing white space is refused |
| AddMember.ValidateMember | src/components/AddMemberDialog.tsx:22-57 | the form is accepted exactly when name and e-mail are not blank after trimming and the e-mail passes the pattern; an accepted record is a member with status active |
| AddMember.DecimalDigits | src/components/AddMemberDialog.tsx:49 | the generated id's timestamp is a non-empty string of decimal digits that denotes the clock reading |
| AddMember.ValidateMemberSpec | src/components/AddMemberDialog.tsx:22-57 | missing field exactly when name or e-mail is all white space; invalid exactly when both are filled and the e-mail is outside the pattern; otherwise the record has the trimmed name, the lower-cased e-mail, role member, status active, joined now, counters 0 |
| AddMember.AddedMemberListed | src/components/AddMemberDialog.tsx:48-57 | the member created from an accepted form is active with clean counters and appears in the team listing |
| AddMember.Dialog.constructor | src/components/AddMemberDialog.tsx:15-20 | the form starts empty and closed, with no creation issued |
| AddMember.Dialog.Fill | src/components/AddMemberDialog.tsx:15-20 | typing into the form opens it and issues nothing |
| AddMember.Dialog.Submit | src/components/AddMemberDialog.tsx:22-79 | a refused form changes nothing and reports its error; an accepted one issues exactly one creation, and the form is cleared and closed only when it succeeded |

## Left out

- The hosted backend (`blink.db`) is abstracted. Listings return the matching records in collection order: the `orderBy` sort and the `limit` row counts are not modelled.
- Query methods of the service that the dashboards use only for display are not modelled: its `getCompletedTasksForUser` and `getWeeklyTasks`, the task-submission reads, and the leave-request, AI-interaction, performance-log and notification create/list methods. Of these, only `updateLeaveRequest` is modelled.
- The service's `updateTask`, `createTaskSubmission` and `removeMember` are modelled by the same merge, submission record and status change as the fallback's (`Domain.Merge`, `Domain.NewSubmission`, `Database.RemovedMemberNotListed`). The `updatedAt` and `createdAt` stamps they add are not modelled.
- `createAiInteraction` (both service and fallback) is not modelled: its record is untyped in the fallback.
- `isDatabaseAvailable` and the `dbService` singleton are not modelled. The fallback's seed records are parameters of `MockData.MockStore.constructor`.
- The text generator (`blink.ai.generateText`) is not modelled: its output is never read by the code modelled here. Its success is the `feedbackOk` parameter. Toast, celebration and loading-flag UI state, and the list reloads after a write, are left out.
- AskBar.AssignTasks: the `Promise.all` of creations is modelled as the list of requests issued. Their concurrent completion and partial failure (some tasks created, then the error toast) are not modelled.
- AskBar.BatchFor: the due date is exactly 7 × 24 hours after `now`. The source adds 7 calendar days in local time, which differs by an hour across a daylight-saving change. All clock readings in one call are one `now`, and time zones are not modelled: dates are the local calendar date.
- Domain.RoundedPercent and MemberDashboard.WeeklyProgress use exact rationals. JavaScript's floating-point division and `Math.round` are not modelled.
- Text.ToLower maps only the ASCII capitals. JavaScript's `toLowerCase` also maps non-ASCII letters, so prompts and e-mails with such letters are not modelled faithfully.
- IsoWeek.WeekNumber: years are taken as written. `Date.UTC` (src/pages/FounderDashboard.tsx:29,32) reads a year from 0 to 99 as 1900 to 1999, so for those years the source numbers weeks of a different year; that mapping is not modelled.
- MockData.MockStore.RemoveMember: records are values, so marking a user removed changes only the store's list. The source writes `status = 'removed'` into the shared object (src/services/mockData.ts:231), so a record handed out earlier by `getUserByUserId` or `getTeamMembers` changes too. That aliasing is not modelled; no contract here depends on it.
- Timestamps are integers. Their ISO 8601 string form is not modelled.
- `LoginPage`, `App` and the other components are not part of this model.
