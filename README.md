# Project-management app: a verified model of its client rules and REST backend

The application is a React/Redux project-management client (projects,
tasks on a Kanban board, teams, members, an activity log, reports and CSV
exports) over a small Express/Postgres REST backend. This project models,
in Dafny, the deterministic rules the code applies, and proves what the
code promises about them.

- **Task board.** The five fixed columns and the grouping of tasks into
  them (`KanbanBoard`, an imperative loop proved against a filter). The
  drag-end rule turns a drop into at most one `{status}` update. The board's
  create and edit forms are a class. The container (`KanbanContainer`)
  normalises loaded tasks and replaces the whole list after each
  successful mutation.
- **Activity logger.** The middleware maps a fulfilled mutation to at most
  one activity (`ActivityLogger`). For `updateTask` it chooses, in order:
  status change, then assignment, then a generic update.
- **Backend.** Every handler of `server/backend.cjs` is modelled by its
  effect on in-memory tables (`Backend`). The tables are a value `Db`.
  `Valid(db)` packs what the schema's constraints guarantee: serial keys,
  `UNIQUE` columns, `REFERENCES` with their `ON DELETE` actions, and
  activities in timestamp order. Each handler keeps `Valid`. The COALESCE
  updates, insert defaults, the project/task cascade and the incremental
  `PATCH /users` SQL builder are specified exactly. The builder is an
  imperative method whose `$n` placeholders are proved to match its
  parameter list. `BackendServer.Server` holds one database and rewrites
  it in place, one method per mutating endpoint.
- **Request layer.** `Api` models the URL, body and timestamp stamping of
  each RTK Query endpoint, the tags each mutation invalidates, the
  uniqueness checks' response transform and the `Authorization` header.
  Query strings and the header are proved to read back on the server
  side.
- **Serialisers, validators and formatters.** `Csv` models `convertToCSV`
  together with a reader for the grammar of section 2 of RFC 4180, with LF
  as the record separator. The round-trip theorem says the reader recovers
  the header and every cell's text. The four report exports are built on
  it (`Exporters`). `Validators` holds the form validators: the email scan
  is proved equal to the language of its regular expression. `Formatters`,
  `Constants` and `Models` hold the shared formatters, constant tables and
  closed unions.
- **Redux slices.** Auth, tasks, projects, activity and teams. Each is a
  pure `Reduce` over its state. A `Store` class assigns the draft's fields
  in place, and its methods are proved equal to `Reduce`.
- **Pages and containers.** Advanced search, reports, teams, the team
  assignment panel, project list and detail, members, login, and the
  dashboard. Their filters and aggregates are functions. Their `useState`
  hooks are class fields, and their handlers are methods, with each
  awaited outcome passed in as a parameter.

Helpers: `Wrappers` (Option), `Seqs` (filter, count, subsequence), `Text`
(JavaScript string operations on `seq<char>`), `Json` (plain objects with
keys in insertion order and `undefined` distinct from `null`), `Records`
(lookups in object literals, which also see the members inherited from
`Object.prototype`) and `Tables` (row tables with keys and foreign keys).

The model states what the code does, including where it departs from its
own comments, labels or tests:

- The board puts an empty status in backlog, but a task with any other
  unknown status appears in no column (`KanbanBoard.UnknownStatusNowhere`).
  Only the container's normalisation maps such statuses to backlog. A
  status named like a member of `Object.prototype`, such as 'toString',
  makes the grouping throw.
- The logger tests the truthiness of `status` and `assigneeId`, not their
  presence.
- Project progress is checked to be in 0..100 only by the project form.
  The backend stores any integer.
- The login endpoint returns `token`, but the auth slice stores
  `payload.accessToken`, which is then undefined
  (`AuthSlice.MissingAccessTokenStoresUndefined`).
- `getAvatarColor(11)` is the colour of id 3, '#f57c00', although
  src/__tests__/shared/formatters.test.ts:43 expects '#c2185b'
  (`Formatters.AvatarColorExamples`).

## Model

| member | source | states |
|---|---|---|
| TasksSlice.ReduceIdempotent | src/features/tasks/tasksSlice.ts:22-53 | dispatching any tasks action twice leaves the same state as dispatching it once |
| TasksSlice.FiltersReplaced | src/features/tasks/tasksSlice.ts:26-52 | `setFilters` replaces the filters whatever they were; `clearFilters` empties them, as `setFilters({})` does |
| TasksSlice.FilterSettersLocal | src/features/tasks/tasksSlice.ts:29-43 | each single-filter setter changes its own filter field and keeps the other filters, the selection, the drag and the view mode |
| TasksSlice.SelectionSettersLocal | src/features/tasks/tasksSlice.ts:23-49 | selecting, setting the view mode and dragging each change only their own field and never the filters |
| TasksSlice.InitialState | src/features/tasks/tasksSlice.ts:12-17 | the initial state has nothing selected or dragged, no filters and the kanban view |
| TasksSlice.Store.constructor | src/features/tasks/tasksSlice.ts:12-17 | the store starts in the initial state |
| TasksSlice.Store.Dispatch | src/features/tasks/tasksSlice.ts:22-53 | the new state is the one `Reduce` gives for the action |
| ProjectsSlice.InitialState | src/features/projects/projectsSlice.ts:12-17 | the initial state sorts by creation date descending, with nothing selected and no filters |
| ProjectsSlice.SortingTogether | src/features/projects/projectsSlice.ts:38-44 | `setSorting` sets both sort key and order and keeps filters and selection |
| ProjectsSlice.FilterSettersLocal | src/features/projects/projectsSlice.ts:29-37 | each single-filter setter changes its own filter field only, never the owner filter, the selection or the sorting |
| ProjectsSlice.FiltersReplaced | src/features/projects/projectsSlice.ts:26-47 | `setFilters` replaces only the filters; `clearFilters` is `setFilters({})` |
| ProjectsSlice.SelectOnly | src/features/projects/projectsSlice.ts:23-25 | `setSelectedProject` changes only the selection |
| ProjectsSlice.ReduceIdempotent | src/features/projects/projectsSlice.ts:22-48 | dispatching any projects action twice is dispatching it once |
| ProjectsSlice.Store.constructor | src/features/projects/projectsSlice.ts:12-17 | the store starts in the initial state |
| ProjectsSlice.Store.Dispatch | src/features/projects/projectsSlice.ts:22-48 | the new state is the one `Reduce` gives for the action |
| ActivitySlice.InitialState | src/features/activity/activitySlice.ts:11-15 | the feed starts with no filters on page 1 of 20 entries |
| ActivitySlice.FilterChangesResetPage | src/features/activity/activitySlice.ts:21-39 | every action but `setPage` returns to the first page |
| ActivitySlice.SetPageOnly | src/features/activity/activitySlice.ts:33-35 | `setPage` changes the page and keeps the filters and page size |
| ActivitySlice.PageSizeFixed | src/features/activity/activitySlice.ts:20-40 | no reducer changes the page size |
| ActivitySlice.PageSizeAlways | src/features/activity/activitySlice.ts:11-40 | after any sequence of actions the page size is still the one it started with (20 from the initial state) |
| ActivitySlice.FilterSettersLocal | src/features/activity/activitySlice.ts:25-32 | the entity-type and user setters change only their own filter field |
| ActivitySlice.Store.constructor | src/features/activity/activitySlice.ts:11-15 | the store starts in the initial state |
| ActivitySlice.Store.Dispatch | src/features/activity/activitySlice.ts:20-40 | the new state is the one `Reduce` gives for the action |
| TeamsSlice.SelectTeam | src/features/teams/teamsSlice.ts:16-18 | `setSelectedTeam` selects its argument whatever was selected, `null` returns to the initial state, and repeating it changes nothing |
| TeamsSlice.Store.constructor | src/features/teams/teamsSlice.ts:8-10 | the store starts with no team selected |
| TeamsSlice.Store.SetSelectedTeam | src/features/teams/teamsSlice.ts:16-18 | the new state is the one `Reduce` gives for the action |
| AuthSlice.UserJson | src/features/auth/authSlice.ts:90 | the user string persisted at login is never empty, so a later `initializeAuth` finds it truthy |
| AuthSlice.LoginThunk | src/features/auth/authSlice.ts:24-37 | `loginUser` is fulfilled exactly when the request returned data; an API error rejects with 'Login failed', a thrown error with its message or 'Login failed' when it has none |
| AuthSlice.InitializeThunk | src/features/auth/authSlice.ts:40-56 | `initializeAuth` is fulfilled exactly when both the token and the user key hold non-empty strings and the user parses, and then carries the parsed user and the stored token |
| AuthSlice.InitialLoggedOut | src/features/auth/authSlice.ts:15-21 | the initial state has no user, is not authenticated, not loading and has no error; its token is the stored token exactly when one is stored |
| AuthSlice.LogoutClears | src/features/auth/authSlice.ts:62-69 | `logout` clears user, token, authentication and error, keeps `loading`, removes both storage keys and leaves every other key as it was |
| AuthSlice.ClearErrorOnly | src/features/auth/authSlice.ts:70-72 | `clearError` resets the error and changes nothing else |
| AuthSlice.PendingLoads | src/features/auth/authSlice.ts:77-80 | a pending login sets loading, clears the error and keeps user, token and storage |
| AuthSlice.FulfilledSignsIn | src/features/auth/authSlice.ts:81-92 | a fulfilled login with a payload yields exactly the signed-in state with its user and token and stores both keys; without a payload nothing changes |
| AuthSlice.RejectedKeepsUser | src/features/auth/authSlice.ts:93-97 | a rejected login stops loading, is not authenticated, reports the reason, and keeps user, token and storage |
| AuthSlice.InitOutcomes | src/features/auth/authSlice.ts:99-107 | a fulfilled hydration signs in with the restored user and token keeping the error; a rejected one only stops loading |
| AuthSlice.LoginSurvivesReload | src/features/auth/authSlice.ts:81-107 | what a login persists lets the next page load's `initializeAuth` restore the same user and token |
| AuthSlice.LogoutThenReload | src/features/auth/authSlice.ts:40-69 | after `logout` a reload finds no session and the initial token is absent |
| AuthSlice.MissingAccessTokenStoresUndefined | src/features/auth/authSlice.ts:86-89 | a login response without `accessToken` still signs in, stores the string 'undefined' as the token, and later requests carry `Bearer undefined` |
| AuthSlice.Store.constructor | src/features/auth/authSlice.ts:15-21 | the store starts in `initialState` over the given storage |
| AuthSlice.Store.Logout | src/features/auth/authSlice.ts:62-69 | the new state and storage are those `Reduce` gives for `logout` |
| AuthSlice.Store.ClearError | src/features/auth/authSlice.ts:70-72 | the new state is that of `Reduce` for `clearError` |
| AuthSlice.Store.LoginPending | src/features/auth/authSlice.ts:77-80 | the new state is that of `Reduce` for a pending login |
| AuthSlice.Store.LoginFulfilled | src/features/auth/authSlice.ts:81-92 | the new state and storage are those of `Reduce` for a fulfilled login |
| AuthSlice.Store.LoginRejected | src/features/auth/authSlice.ts:93-97 | the new state is that of `Reduce` for a rejected login |
| AuthSlice.Store.InitFulfilled | src/features/auth/authSlice.ts:99-104 | the new state is that of `Reduce` for a fulfilled hydration |
| AuthSlice.Store.InitRejected | src/features/auth/authSlice.ts:105-107 | the new state is that of `Reduce` for a rejected hydration |
| Reports.TaskDistribution | src/features/reports/pages/ReportsPage.tsx:36-57 | five entries in the fixed order Backlog, To Do, In Progress, Review, Done with their colours, each counting the tasks of that status, a missing status counted as backlog |
| Reports.PriorityBreakdown | src/features/reports/pages/ReportsPage.tsx:69-88 | four entries Low, Medium, High, Critical with their colours, each counting the tasks of that priority, a missing priority counted as medium |
| Reports.DistributionTotal | src/features/reports/pages/ReportsPage.tsx:45-48 | the status chart sums to the number of tasks whose status is one of the five or missing, so at most the number of tasks |
| Reports.TotalOfFive | src/features/reports/pages/ReportsPage.tsx:50-56 | the total of five entries is the sum of their values |
| Reports.PriorityTotalBound | src/features/reports/pages/ReportsPage.tsx:77-80 | the priority chart counts each task at most once, and every task when none has an unknown priority |
| Reports.TotalsAdd | src/features/reports/pages/ReportsPage.tsx:92-93 | the hour totals of two lists put together are the sums of their totals |
| Reports.TimeMetrics | src/features/reports/pages/ReportsPage.tsx:91-101 | estimated and actual are the hour totals, and the variance shown is estimated minus actual when positive and 0 otherwise |
| Reports.ShortName | src/features/reports/pages/ReportsPage.tsx:62 | the bar's name is the first 15 characters of the project's name, or all of a shorter one |
| Reports.ProjectProgress | src/features/reports/pages/ReportsPage.tsx:60-66 | one bar per project in order, with the short name, the progress defaulted to 0 and the number of the project's tasks |
| Reports.ProjectCountBounds | src/features/reports/pages/ReportsPage.tsx:64 | a bar counts at most all tasks, and all of them when every task belongs to the project |
| Reports.DivIs | src/features/reports/pages/ReportsPage.tsx:287 | integer division is determined by the bounds of the quotient |
| Reports.RoundWhole | src/features/reports/pages/ReportsPage.tsx:287 | rounding an exact whole quotient gives that whole number |
| Reports.CompletionExtremes | src/features/reports/pages/ReportsPage.tsx:286-288 | with every task done the completion rate reads 100; with none done, or no tasks, it reads 0 |
| AdvancedSearch.Displayed | src/features/search/pages/AdvancedSearchPage.tsx:246 | the table shows a prefix of the results of length at most 10 |
| AdvancedSearch.NoFilterFindsAll | src/features/search/pages/AdvancedSearchPage.tsx:70-89 | when none of the five filter fields is truthy, every task is found, in order |
| AdvancedSearch.EmptyFilterFindsAll | src/features/search/pages/AdvancedSearchPage.tsx:70-89 | the empty filter object finds every task |
| AdvancedSearch.ResultIsSubsequence | src/features/search/pages/AdvancedSearchPage.tsx:70-89 | the result is an order-preserving subsequence of all tasks, holding exactly the tasks that pass every field |
| AdvancedSearch.FalsyIgnored | src/features/search/pages/AdvancedSearchPage.tsx:75-86 | a field holding a falsy value, such as `projectId` 0, filters exactly like an absent field |
| AdvancedSearch.FilterNarrows | src/features/search/pages/AdvancedSearchPage.tsx:72-86 | setting a filter field can only remove tasks from the result |
| AdvancedSearch.LowerUpper | src/features/search/pages/AdvancedSearchPage.tsx:72 | lower-casing after upper-casing, or twice, is lower-casing once |
| AdvancedSearch.TitleIgnoresCase | src/features/search/pages/AdvancedSearchPage.tsx:72 | a task passes a non-empty title filter exactly when its lower-cased title contains the lower-cased query, whichever case the query or the title is in |
| AdvancedSearch.FilterChange | src/features/search/pages/AdvancedSearchPage.tsx:91-99 | '' and null remove the key; any other value, undefined included, is stored under it; other keys are untouched |
| AdvancedSearch.AllKeepsKey | src/features/search/pages/AdvancedSearchPage.tsx:177 | choosing 'All' keeps the key, holding undefined, yet finds the tasks found without the key |
| AdvancedSearch.BlankNameSavesNothing | src/features/search/pages/AdvancedSearchPage.tsx:106-109 | saving changes nothing exactly when the trimmed preset name is empty |
| AdvancedSearch.SaveWhileEditing | src/features/search/pages/AdvancedSearchPage.tsx:112-115 | saving while editing keeps the length and gives the matching presets the new name and filters, the others unchanged |
| AdvancedSearch.SaveNew | src/features/search/pages/AdvancedSearchPage.tsx:116-123 | otherwise exactly one preset, with the clock's id and time, is appended after the unchanged list |
| AdvancedSearch.DeleteRemovesAll | src/features/search/pages/AdvancedSearchPage.tsx:136-140 | deleting removes every preset with that id and keeps the rest in order; an unknown id changes nothing |
| AdvancedSearch.SaveThenDelete | src/features/search/pages/AdvancedSearchPage.tsx:105-140 | saving a new preset and then deleting its fresh id gives the old list back |
| AdvancedSearch.SearchPage.constructor | src/features/search/pages/AdvancedSearchPage.tsx:51-55 | the page starts with no filters, no presets, the dialog closed and nothing being edited |
| AdvancedSearch.SearchPage.LoadPresets | src/features/search/pages/AdvancedSearchPage.tsx:58-67 | a saved preset list replaces the empty one; without one nothing changes |
| AdvancedSearch.SearchPage.HandleFilterChange | src/features/search/pages/AdvancedSearchPage.tsx:91-99 | only the filters change, by one filter edit |
| AdvancedSearch.SearchPage.HandleClearFilters | src/features/search/pages/AdvancedSearchPage.tsx:101-103 | clearing makes the filters {} and changes nothing else |
| AdvancedSearch.SearchPage.HandleSavePreset | src/features/search/pages/AdvancedSearchPage.tsx:105-130 | a blank name raises the alert and changes nothing; otherwise the new list is shown and stored, and the dialog is closed and reset |
| AdvancedSearch.SearchPage.HandleLoadPreset | src/features/search/pages/AdvancedSearchPage.tsx:132-134 | loading a preset makes its filters the current ones and changes nothing else |
| AdvancedSearch.SearchPage.HandleDeletePreset | src/features/search/pages/AdvancedSearchPage.tsx:136-140 | the list loses the presets with that id and is stored |
| AdvancedSearch.SearchPage.HandleEditPreset | src/features/search/pages/AdvancedSearchPage.tsx:142-147 | the dialog opens on the preset's name and id, and its filters become the current ones |
| TeamsContainer.Toggle | src/features/teams/containers/TeamsContainer.tsx:73-80 | clicking a checked user removes every occurrence of it and keeps the rest in order; clicking an unchecked one appends it at the end; no other user changes |
| TeamsContainer.ToggleTwiceRestores | src/features/teams/containers/TeamsContainer.tsx:73-80 | clicking an unchecked box twice gives back the list it started from |
| TeamsContainer.ToggleKeepsDistinct | src/features/teams/containers/TeamsContainer.tsx:75-77 | a member list without repeats has none after a click |
| TeamsContainer.ToggleFlipsCheckbox | src/features/teams/containers/TeamsContainer.tsx:75-77 | each click flips whether the user's box is checked |
| TeamsContainer.SaveFor | src/features/teams/containers/TeamsContainer.tsx:39-62 | nothing is sent exactly for a blank name; otherwise the body carries name, description and member ids, and it is an update of the edited team exactly when a truthy edit id is set |
| TeamsContainer.SaveNewCreatesForm | src/features/teams/containers/TeamsContainer.tsx:57-61 | a created team holds exactly the form's name, description and members |
| TeamsContainer.SaveEditOverwrites | src/features/teams/containers/TeamsContainer.tsx:47-55 | saving an edit overwrites all three columns of that team, so unchecking every box empties its member list |
| TeamsContainer.FormFor | src/features/teams/containers/TeamsContainer.tsx:16-27 | opening for a team copies its name, description and members; opening for none gives the empty form |
| TeamsContainer.ReopenSavesSame | src/features/teams/containers/TeamsContainer.tsx:16-62 | opening a team and saving it unchanged sends back what it holds |
| TeamsContainer.OpenFromClick | src/features/teams/containers/TeamsContainer.tsx:88 | as written, "Create Team" hands its click event to `handleOpenDialog`, which then takes the team branch with an undefined name and a falsy edit id |
| TeamsContainer.CheckName | src/features/teams/containers/TeamsContainer.tsx:40 | `trim` throws on a name that is not a string; a blank string asks for a name |
| TeamsContainer.CreateClickThenSaveThrows | src/features/teams/containers/TeamsContainer.tsx:40 | as written, saving straight after "Create Team" throws before any message is set |
| TeamsContainer.CreateDialogThenSaveAsks | src/features/teams/containers/TeamsContainer.tsx:24-43 | corrected: with the form `handleOpenDialog()` builds, the same save shows "Team name is required" and sends nothing |
| TeamsContainer.TeamsPage.constructor | src/features/teams/containers/TeamsContainer.tsx:10-14 | the page starts with the dialog closed, no edit id, the empty form, no error, not loading |
| TeamsContainer.TeamsPage.HandleOpenDialog | src/features/teams/containers/TeamsContainer.tsx:16-30 | the dialog opens with the form for the team (or the empty one), the edit id of that team, and no error; the loading flag is untouched |
| TeamsContainer.TeamsPage.HandleCloseDialog | src/features/teams/containers/TeamsContainer.tsx:32-37 | closing resets the form to empty name, description and members, clears the edit id and the error, and leaves the loading flag |
| TeamsContainer.TeamsPage.HandleToggleMember | src/features/teams/containers/TeamsContainer.tsx:73-80 | only the form's member list changes, by one toggle; everything else on the page stays |
| TeamsContainer.TeamsPage.HandleCreateTeam | src/features/teams/containers/TeamsContainer.tsx:39-71 | a blank name shows "Team name is required" and sends nothing; otherwise the request is sent, a success refetches and closes the dialog, a failure shows "Failed to save team" and changes nothing else; loading ends both ways |
| TeamAssignmentPanel.AvailableTeams | src/features/projects/components/TeamAssignmentPanel.tsx:64-66 | the teams offered are exactly those not linked to the project yet, in the order of all teams |
| TeamAssignmentPanel.AddTeamDisabledIff | src/features/projects/components/TeamAssignmentPanel.tsx:172 | "Add Team" is disabled exactly when every team is already linked |
| TeamAssignmentPanel.OfferedTeamIsNew | src/features/projects/components/TeamAssignmentPanel.tsx:64-78 | a team the dialog offers can be linked without violating the server's UNIQUE(projectId, teamId) |
| TeamAssignmentPanel.TeamMembers | src/features/projects/components/TeamAssignmentPanel.tsx:140-142 | no rows until a team is chosen; then exactly the project's rows for that team |
| TeamAssignmentPanel.AvailableMembers | src/features/projects/components/TeamAssignmentPanel.tsx:140-145 | a user is offered exactly when no team is chosen or the user is not yet on the chosen team of this project; the result keeps the users' order |
| TeamAssignmentPanel.NoTeamOffersEveryone | src/features/projects/components/TeamAssignmentPanel.tsx:140-145 | with no team chosen every user is offered, in order |
| TeamAssignmentPanel.OfferedIffNotOnTeam | src/features/projects/components/TeamAssignmentPanel.tsx:140-145 | a user is offered exactly when the server holds no (project, team, user) row for that user, so the offer matches UNIQUE(projectId, teamId, userId) |
| TeamAssignmentPanel.PositionArg | src/features/projects/components/TeamAssignmentPanel.tsx:113 | the position is sent only when one is chosen, and then as chosen |
| TeamAssignmentPanel.AssignedPositionStored | src/features/projects/components/TeamAssignmentPanel.tsx:113 | "No Position" is stored as null on the server, and a chosen position as chosen |
| TeamAssignmentPanel.Panel.constructor | src/features/projects/components/TeamAssignmentPanel.tsx:55-62 | the panel starts with both dialogs closed, nothing chosen, no error and not loading |
| TeamAssignmentPanel.Panel.SelectPosition | src/features/projects/components/TeamAssignmentPanel.tsx:322-324 | the empty "No Position" value clears the chosen position; any other value chooses it |
| TeamAssignmentPanel.Panel.HandleAssignTeam | src/features/projects/components/TeamAssignmentPanel.tsx:73-87 | nothing without a chosen team; otherwise the team is linked, a success closes the dialog and clears the choice, a failure shows 'Failed to assign team'; loading ends both ways |
| TeamAssignmentPanel.Panel.HandleRemoveTeam | src/features/projects/components/TeamAssignmentPanel.tsx:89-102 | nothing unless the prompt is confirmed; otherwise the link is removed, and a failure shows 'Failed to remove team' |
| TeamAssignmentPanel.Panel.HandleAssignMember | src/features/projects/components/TeamAssignmentPanel.tsx:104-124 | nothing unless both a member and a team are chosen; otherwise the member is added with the position if any, a success closes the dialog and clears member and position but keeps the team, a failure shows 'Failed to assign member' |
| TeamAssignmentPanel.Panel.HandleRemoveMember | src/features/projects/components/TeamAssignmentPanel.tsx:126-138 | nothing unless the prompt is confirmed; otherwise the member row is removed, and a failure shows 'Failed to remove member' |
| ProjectDetail.Apply | src/features/projects/containers/ProjectDetailContainer.tsx:50-53 | an input changes exactly its own field; the progress box stores `parseInt` of its text, `None` for NaN |
| ProjectDetail.SaveFor | src/features/projects/containers/ProjectDetailContainer.tsx:55-87 | a missing or blank name is refused with "Project name is required" first, then a progress (falsy as 0) outside 0..100 with "Progress must be between 0 and 100"; a valid form creates on the new-project route and otherwise updates `parseInt(id)` with the raw form |
| ProjectDetail.CreateStoresForm | src/features/projects/containers/ProjectDetailContainer.tsx:69-75 | the project a valid creation stores has the typed name, the checked progress within 0..100, the status 'active' unless another was chosen, and the description defaulted to '' |
| ProjectDetail.InitialFormRefused | src/features/projects/containers/ProjectDetailContainer.tsx:20-27 | the untouched form is refused for its empty name |
| ProjectDetail.UpdateWritesForm | src/features/projects/containers/ProjectDetailContainer.tsx:78-81 | an update of an existing project stores the typed name, and the progress and status of the form where they are set, keeping the stored ones where they are null |
| ProjectDetail.ClearedProgressKept | src/features/projects/containers/ProjectDetailContainer.tsx:62-80 | on an edit, a cleared progress box passes the check as 0 but is sent as null, so the stored progress is kept |
| ProjectDetail.TasksOf | src/features/projects/containers/ProjectDetailContainer.tsx:46 | the tasks kept are exactly those with the given project number |
| ProjectDetail.ProjectTasks | src/features/projects/containers/ProjectDetailContainer.tsx:45-48 | the page lists exactly the tasks whose project id equals `parseInt(id or '0')`, none when that is NaN |
| ProjectDetail.NewRouteHasNoTasks | src/features/projects/containers/ProjectDetailContainer.tsx:46 | the route 'new' parses to NaN and lists no task |
| ProjectDetail.StatusOptionsDiffer | src/features/projects/containers/ProjectDetailContainer.tsx:176-179 | the select offers 'pending', which is no project status, and not 'planning', which is one |
| ProjectDetail.ProjectPage.constructor | src/features/projects/containers/ProjectDetailContainer.tsx:20-29 | the page starts with the default form and no error |
| ProjectDetail.ProjectPage.LoadProject | src/features/projects/containers/ProjectDetailContainer.tsx:32-43 | on an edit page the loaded project fills the form; on the new-project page nothing changes |
| ProjectDetail.ProjectPage.HandleInputChange | src/features/projects/containers/ProjectDetailContainer.tsx:50-53 | the form becomes the applied input and the error is cleared |
| ProjectDetail.ProjectPage.HandleSave | src/features/projects/containers/ProjectDetailContainer.tsx:55-87 | a refused form shows its message and sends nothing; a sent one navigates to /projects on success and shows "Failed to save project" on failure |
| ProjectDetail.ProjectPage.HandleDelete | src/features/projects/containers/ProjectDetailContainer.tsx:89-100 | nothing happens on a new project or an unconfirmed prompt; otherwise `parseInt(id)` is deleted and the page navigates to /projects, or shows "Failed to delete project" |
| ProjectDetail.ProjectPage.HandleBack | src/features/projects/containers/ProjectDetailContainer.tsx:102-104 | going back navigates to /projects and changes nothing else |
| ProjectList.FilteredProjects | src/features/projects/components/ProjectList.tsx:16-22 | a project is shown exactly when its name contains the search term ignoring case and the status filter is empty or its status; the result is a subsequence of the input |
| ProjectList.NoFilterShowsAll | src/features/projects/components/ProjectList.tsx:16-22 | an empty search with "All Status" shows every project in order |
| ProjectList.ToLowerAppend | src/features/projects/components/ProjectList.tsx:18 | lower-casing distributes over concatenation |
| ProjectList.LongerTermNarrows | src/features/projects/components/ProjectList.tsx:18 | extending the search term can only hide projects |
| ProjectList.StatusNarrows | src/features/projects/components/ProjectList.tsx:19 | choosing a status can only hide projects |
| ProjectList.SearchIgnoresCase | src/features/projects/components/ProjectList.tsx:18 | typing the term in upper case shows the same projects |
| ProjectList.StatusOptionsKnown | src/features/projects/components/ProjectList.tsx:31-35 | every option but "All Status" is a project status |
| MembersPage.PasswordErrorAsWritten | src/features/members/pages/MembersPage.tsx:59 | as written: a new user without a password gets 'Password is required for new users'; every other case, an edit with an empty password included, goes through `validatePassword` |
| MembersPage.BlankPasswordEditRefused | src/features/members/pages/MembersPage.tsx:59 | as written, an edit that leaves the password blank is refused with 'Password is required', although the field is labelled 'leave blank to keep current' (line 236) |
| MembersPage.PasswordError | src/features/members/pages/MembersPage.tsx:59 | corrected: a blank password on an edit passes; every other case is checked as written |
| MembersPage.PasswordErrorIff | src/features/members/pages/MembersPage.tsx:59 | corrected: the password passes exactly when it is a blank edit password or has at least 6 characters |
| MembersPage.Validate | src/features/members/pages/MembersPage.tsx:57-59 | the name error is set exactly for a blank name, the email error is `validateEmail`'s, and the password error is the corrected check's |
| MembersPage.RequestFor | src/features/members/pages/MembersPage.tsx:74-101 | an edit sends a PATCH to that user with name and email, and the password only when one was typed; a new member is posted to /register with name, email and password |
| MembersPage.BlankPasswordEditKeepsHash | src/features/members/pages/MembersPage.tsx:79-83 | corrected: an edit with a blank password passes the checks, and a successful PATCH keeps the user's stored password hash |
| MembersPage.NewMemberNeedsPassword | src/features/members/pages/MembersPage.tsx:57-61 | a new member passes only with a non-blank name, a valid email and a password of at least 6 characters |
| MembersPage.CreateRegistersName | src/features/members/pages/MembersPage.tsx:93-101 | a valid new member whose email is free is registered with the typed name and email |
| MembersPage.FailureMessage | src/features/members/pages/MembersPage.tsx:86-113 | a refusal shows the server's `error`, or the fallback when it is empty; a network failure shows 'An error occurred. Please try again.' |
| MembersPage.SaveStep | src/features/members/pages/MembersPage.tsx:55-117 | with the corrected password rule (a blank password on an edit passes): field errors are recorded and nothing is sent; otherwise the request is sent, a success closes and resets the dialog, and a failure shows the message and keeps the dialog and form; saving ends either way |
| MembersPage.BlankPasswordEditSent | src/features/members/pages/MembersPage.tsx:74-83 | corrected: editing a member without typing a password sends the PATCH with no password |
| MembersPage.FailedSaveKeepsForm | src/features/members/pages/MembersPage.tsx:86-89 | a failed save keeps what was typed and the dialog open, and shows a message |
| MembersPage.Page.constructor | src/features/members/pages/MembersPage.tsx:28-33 | the page starts with the dialog closed, no edit id, an empty form and no messages |
| MembersPage.Page.HandleOpenDialog | src/features/members/pages/MembersPage.tsx:35-45 | opening for a user edits that user with an empty password; opening for none starts an empty form; the dialog opens and the page message is cleared |
| MembersPage.Page.HandleCloseDialog | src/features/members/pages/MembersPage.tsx:47-53 | closing resets the dialog, the edit id, the form and all messages |
| MembersPage.Page.HandleSave | src/features/members/pages/MembersPage.tsx:55-117 | with the corrected password rule: the sequence of setters leaves the page in the state of the save step and returns the request sent |
| MembersPage.Page.HandleDelete | src/features/members/pages/MembersPage.tsx:119-140 | the DELETE is sent exactly when the prompt is confirmed; a failure shows its message, and the dialog and form are untouched |
| LoginPage.From | src/features/auth/pages/LoginPage.tsx:65 | the page returns to the saved origin path when there is a non-empty one, and to '/' otherwise |
| LoginPage.CheckLogin | src/features/auth/pages/LoginPage.tsx:73-76 | the login form passes exactly when the email is valid and the password has at least 6 characters |
| LoginPage.CheckRegistration | src/features/auth/pages/LoginPage.tsx:109-114 | the name error is set exactly for a blank name, 'Passwords do not match' exactly when the two passwords differ, and the form passes exactly when all four checks do |
| LoginPage.RegistrationPassesLoginChecks | src/features/auth/pages/LoginPage.tsx:73-111 | credentials the registration form accepts also pass the login form's checks |
| LoginPage.LoginSubmit | src/features/auth/pages/LoginPage.tsx:67-101 | the thunk is dispatched exactly when the checks pass; otherwise only the field errors are set and the message is cleared; after a dispatch the field errors are clear, loading is off, the page navigates to the origin iff the login was fulfilled, and the message is empty iff it was |
| LoginPage.RegisterSubmit | src/features/auth/pages/LoginPage.tsx:103-150 | the form is posted exactly when the four checks pass; otherwise only the field errors are set; a success stores the token under 'auth_token' and navigates to the origin, a failure shows the server's error or a default and changes neither storage nor location |
| LoginPage.TabChange | src/features/auth/pages/LoginPage.tsx:152-156 | switching tabs sets the tab and clears both messages, and changes nothing else |
| LoginPage.RegisteredCanLogIn | src/features/auth/pages/LoginPage.tsx:128-131 | an account the form registers on the server can then sign in with the same email and password |
| LoginPage.DefaultCredentialsPass | src/features/auth/pages/LoginPage.tsx:46-47 | the pre-filled credentials pass the login checks |
| LoginPage.Page.constructor | src/features/auth/pages/LoginPage.tsx:43-59 | the initial state: first tab, the pre-filled credentials, empty registration form, no errors, not loading |
| LoginPage.Page.HandleTabChange | src/features/auth/pages/LoginPage.tsx:152-156 | the page's new state is that of the tab change |
| LoginPage.Page.SetCredentials | src/features/auth/pages/LoginPage.tsx:46-47 | typing changes only the login fields |
| LoginPage.Page.SetRegistration | src/features/auth/pages/LoginPage.tsx:53-56 | typing changes only the registration fields |
| LoginPage.Page.HandleLoginSubmit | src/features/auth/pages/LoginPage.tsx:67-101 | the sequence of setters leaves the page in the state of the login submission and reports whether it dispatched |
| LoginPage.Page.HandleRegisterSubmit | src/features/auth/pages/LoginPage.tsx:103-150 | the sequence of setters leaves the page in the state of the registration submission and reports whether it posted |
| ActivityFeed.Recent | src/features/dashboard/components/ActivityFeed.tsx:13 | the shown activities are a prefix of the list of length at most 10, the whole list when it has at most 10, exactly 10 otherwise, and none when the list is missing |
| ActivityFeed.EmptyIffNothing | src/features/dashboard/components/ActivityFeed.tsx:14 | the "No activities yet" panel shows exactly when nothing is loading and the list is missing or empty |
| ActivityFeed.TypeColor | src/features/dashboard/components/ActivityFeed.tsx:15-21 | the colour is success, info, error or warning for the first of "created", "updated", "deleted", "assigned" the type contains, in that order, and default when it contains none |
| ActivityFeed.Label | src/features/dashboard/components/ActivityFeed.tsx:22-38 | a type in the label map shows its label; a type naming an inherited member of `Object.prototype` (such as 'toString') reads that member, exactly when it is not in the map; any other type shows unchanged |
| ActivityFeed.LabelledTypes | src/features/dashboard/components/ActivityFeed.tsx:23-36 | the label map's keys are exactly the twelve activity type names |
| ActivityFeed.LabelOfType | src/features/dashboard/components/ActivityFeed.tsx:23-37 | each of the twelve activity types shows its own entry of the label map |
| ActivityFeed.LabelsTellTypesApart | src/features/dashboard/components/ActivityFeed.tsx:23-36 | two different activity types never share a label |
| ActivityFeed.StatusChangeLabel | src/features/dashboard/components/ActivityFeed.tsx:30-37 | 'task_status_changed' reads "Status Changed"; a type outside the map reads the inherited member of that name if there is one, and as itself otherwise |
| ActivityFeed.TypeColors | src/features/dashboard/components/ActivityFeed.tsx:15-21 | each of the twelve activity types gets the colour of the reference table: creations success, updates info, deletions error, assignment warning, status change and membership changes default |
| ActivityFeed.ProjectUpdatedNotCreated | src/features/dashboard/components/ActivityFeed.tsx:16-17 | 'project_updated' does not contain "created", so the first test does not catch it |
| ActivityContainer.ActivityLabel | src/features/activity/containers/ActivityContainer.tsx:14-16 | the label has exactly the type string's length |
| ActivityContainer.LabelChars | src/features/activity/containers/ActivityContainer.tsx:15 | each label character is a space where the type has '_' or ' ', the upper-cased letter at the start of a word, and the type's own character elsewhere |
| ActivityContainer.LabelHasNoUnderscore | src/features/activity/containers/ActivityContainer.tsx:15 | no '_' survives in the label, and outside the gaps the label equals the type up to case |
| ActivityContainer.LabelOfWord | src/features/activity/containers/ActivityContainer.tsx:15 | a type without '_' or ' ' is shown capitalised |
| ActivityContainer.LabelOfJoined | src/features/activity/containers/ActivityContainer.tsx:15 | the label of `word_rest` is the capitalised word, a space, then the label of the rest, so 'task_status_changed' reads "Task Status Changed" |
| ActivityContainer.UnmatchedTypesDefault | src/features/activity/containers/ActivityContainer.tsx:7-13 | the page's colour test is the feed's one, and it gives 'task_status_changed' and 'team_member_added' the default colour |
| ProjectOverviewCard.ProjectTasks | src/features/dashboard/components/ProjectOverviewCard.tsx:16 | the card's tasks are exactly the given tasks with this project's id, in their order |
| ProjectOverviewCard.StatusLabel | src/features/dashboard/components/ProjectOverviewCard.tsx:17 | the label has the status's length, with '_' turned into a space and each word's first letter upper-cased |
| ProjectOverviewCard.OnHoldLabel | src/features/dashboard/components/ProjectOverviewCard.tsx:17 | 'on_hold' reads "On Hold" |
| ProjectOverviewCard.OneWordLabel | src/features/dashboard/components/ProjectOverviewCard.tsx:17 | a status without '_' is shown capitalised ('active' reads "Active") |
| ProjectOverviewCard.StatusColor | src/features/dashboard/components/ProjectOverviewCard.tsx:19-22 | planning is default, active success, on_hold warning, completed info; a status naming an inherited member of `Object.prototype` reads that member; any other status is default |
| ProjectOverviewCard.Avatars | src/features/dashboard/components/ProjectOverviewCard.tsx:32 | at most three avatars, the first members in order, all of them when there are fewer than three |
| ProjectOverviewCard.CardRoutesDistinct | src/features/dashboard/components/ProjectOverviewCard.tsx:18 | two cards open the same page exactly when their projects have the same id |
| ProjectOverviewCard.CardOpensItsProject | src/features/dashboard/components/ProjectOverviewCard.tsx:18 | the page a card opens is the edit page whose route id parses back to the project's id and lists the same tasks as the card |
| ProjectOverviewCard.CardFor | src/features/dashboard/components/ProjectOverviewCard.tsx:13-32 | a card shows its project, the status label and colour, the number of its tasks and the avatars of the members passed |
| QuickStats.LengthOr0 | src/features/dashboard/components/QuickStats.tsx:20 | a missing list counts 0, a loaded one its length |
| QuickStats.ActiveCount | src/features/dashboard/components/QuickStats.tsx:21 | the active count is the number of projects with status 'active', 0 for a missing list, and never above the total |
| QuickStats.Stats | src/features/dashboard/components/QuickStats.tsx:19-30 | always four counters in the order total projects, active projects, total tasks, team members, with routes /projects, /projects, /tasks, /members |
| QuickStats.LabelsDistinct | src/features/dashboard/components/QuickStats.tsx:34-35 | the four captions, used as keys, are pairwise different |
| QuickStats.NothingLoadedIsZero | src/features/dashboard/components/QuickStats.tsx:20-23 | with no list loaded every counter is 0 |
| QuickStats.CountAll | src/features/dashboard/components/QuickStats.tsx:21 | a filter keeps every element exactly when all satisfy the test, and none exactly when none does |
| QuickStats.ActiveCounter | src/features/dashboard/components/QuickStats.tsx:20-21 | the active counter equals the total exactly when every project is active, and is 0 exactly when none is |
| DashboardContainer.ForDisplay | src/features/dashboard/containers/DashboardContainer.tsx:13-15 | a missing list is shown as the empty list, a loaded one as it is |
| DashboardContainer.TeamMembersForProject | src/features/dashboard/containers/DashboardContainer.tsx:16-20 | no members when the projects or users are not loaded or the id is not a loaded project's; otherwise the first five users |
| DashboardContainer.SameMembersForEveryProject | src/features/dashboard/containers/DashboardContainer.tsx:16-20 | any two loaded projects get the same members |
| DashboardContainer.ProjectsPaneFor | src/features/dashboard/containers/DashboardContainer.tsx:34-54 | skeletons exactly while the projects load, "No projects yet" exactly when loaded and empty, and cards otherwise |
| DashboardContainer.ActivityPaneFor | src/features/dashboard/containers/DashboardContainer.tsx:61-72 | skeletons exactly while the activities load, and the feed otherwise |
| DashboardContainer.Render | src/features/dashboard/containers/DashboardContainer.tsx:21-76 | the error alert shows exactly when one of the four queries failed; otherwise the counters' skeletons follow the three loading flags and the two sections are the panes above |
| DashboardContainer.StatsCountQueries | src/features/dashboard/containers/DashboardContainer.tsx:13-28 | passing the lists defaulted to [] to the counters gives the same counters as passing the queries' lists |
| DashboardContainer.AvatarsOfFive | src/features/dashboard/containers/DashboardContainer.tsx:50 | three avatars of the first five users are the first three users |
| DashboardContainer.CardsFollowProjects | src/features/dashboard/containers/DashboardContainer.tsx:47-52 | one card per loaded project in order, each counting that project's tasks and showing the first three users |
| DashboardContainer.FeedShowsRecent | src/features/dashboard/containers/DashboardContainer.tsx:70-72 | once loaded, the feed lists the first ten fetched activities and is empty exactly when none was fetched |
| ActivityLogger.TaskUpdateKind | src/store/middleware/activityLogger.ts:78-115 | a task update is logged as one of three kinds: status change, assignment or plain update |
| ActivityLogger.Entry | src/store/middleware/activityLogger.ts:23-152 | an entry is produced exactly for the eight logged endpoints, and it always names the signed-in user's id and name |
| ActivityLogger.Middleware | src/store/middleware/activityLogger.ts:9-161 | the action's own result is returned unchanged, and an activity is dispatched exactly when the action is a fulfilled mutation, a user is signed in and the endpoint is one of the eight |
| ActivityLogger.EntityIds | src/store/middleware/activityLogger.ts:28-145 | created records are logged under the id in the response, updates under the id argument, deletions under the argument itself |
| ActivityLogger.EntryKinds | src/store/middleware/activityLogger.ts:24-151 | each endpoint's entry has its own activity type and entity type, the task update's being the kind its data selects |
| ActivityLogger.UpdateTaskKinds | src/store/middleware/activityLogger.ts:79-115 | a truthy status makes a status change, otherwise a truthy assignee an assignment, otherwise a plain update, each exactly under its condition |
| ActivityLogger.ProjectChanges | src/store/middleware/activityLogger.ts:44-47 | a project update records the keys of the submitted data as its `changes` |
| ActivityLogger.StatusMessage | src/store/middleware/activityLogger.ts:79-91 | a status move says "moved task '<title>' to <status>" with only the first '_' of the status turned into a space, while `newStatus` keeps the raw status |
| ActivityLogger.InProgressMessage | src/store/middleware/activityLogger.ts:86 | the status 'in_progress' is written as 'in progress' |
| ActivityLogger.EditSaveIsStatusChange | src/store/middleware/activityLogger.ts:78-91 | an update body carrying a whole task with a non-empty status is always logged as a status change |
| ActivityLogger.OtherEndpointsSilent | src/store/middleware/activityLogger.ts:23-157 | an endpoint outside the eight dispatches nothing |
| ActivityLogger.CreateActivitySilent | src/store/middleware/activityLogger.ts:23-157 | the `createActivity` mutation the middleware itself dispatches logs nothing, so logging does not feed on itself |
| Api.Authorization | src/store/api.ts:20-26 | the Authorization header is present exactly when a non-empty token is stored, and is then 'Bearer ' followed by that token |
| Api.TokenReachesServer | src/store/api.ts:20-26 | a stored token without spaces is exactly the token the server reads back out of the Authorization header, and with no truthy token the server sees none |
| Api.QueryRoundTrip | src/store/api.ts:200-210 | parsing a rendered list of query parameters whose keys and values hold no separators gives the same list back |
| Api.ServerProjectFilter | server/backend.cjs:391-398 | the value Express hands the handler as `req.query.projectId` is a `projectId` pair of the URL's query string, and there is none exactly when no pair has that key; the string is passed on unparsed |
| Api.TasksUrlRoundTrip | src/store/api.ts:142-146 | the `projectId` string the server reads from the `getTasks` URL is the decimal text of the client's truthy project id, and there is none for a falsy one |
| Api.TasksFromBackend | src/store/api.ts:142-148 | a `getTasks` call without a truthy project id returns every task; with one in the `integer` range, exactly that project's tasks; with one outside it, a 500 from Postgres |
| Api.MalformedProjectFilter | server/backend.cjs:391-402 | the server reads the query value with Postgres' `integer` input and not with `parseInt`: `projectId=12abc` and `projectId=abc` are 500 errors, although `parseInt('12abc')` is 12 |
| Api.ActivitiesParams | src/store/api.ts:201-208 | `getActivities` sends `_sort=timestamp`, `_order=desc`, `_limit` defaulting to 50, and `entityType` as a fourth parameter exactly when it is truthy |
| Api.ServerLimit | server/backend.cjs:521-525 | the value `req.query._limit` hands the handler is a `_limit` pair of the query string, and there is none exactly when no pair has that key; the string is passed on unparsed |
| Api.ActivitiesLimitReachesServer | src/store/api.ts:200-210 | the `_limit` string the server reads back is the decimal text of the client's limit, 50 by default |
| Api.ActivitiesFromBackend | src/store/api.ts:200-210 | a `getActivities` call lists the newest activities, up to the client's limit (50 by default), when the limit is in the `bigint` range, and otherwise gets a 500 from Postgres |
| Api.MalformedLimit | server/backend.cjs:521-525 | `_limit=abc` and an empty `_limit` are 500 errors: the default 50 applies only when the parameter is absent |
| Api.IsUniqueIff | src/store/api.ts:133-138 | a name counts as unique exactly when the response is empty or a truthy id is excluded and every entry has that id |
| Api.IsUniqueMembers | src/store/api.ts:191-196 | the same criterion stated over the entries of the response |
| Api.ProjectNameUniqueOnBackend | src/store/api.ts:128-139 | against the Express backend, which ignores `name`, a project name is unique exactly when there are no projects or all of them have the excluded id |
| Api.TaskTitleUniqueOnBackend | src/store/api.ts:183-197 | against the Express backend, which reads only `projectId`, a task title is unique exactly when the project has no task other than the excluded one |
| Api.TaskMutationsInvalidate | src/store/api.ts:153-182 | every task mutation invalidates the task lists and the activity feed |
| Api.ActivityRefresh | src/store/api.ts:65-302 | the activity feed is refreshed exactly by the team, project, task and activity mutations, and never by login, registration or the project-team, position and member mutations |
| Api.StampsOverride | src/store/api.ts:98-223 | creations carry `createdAt` and `updatedAt`, updates carry `updatedAt`, and new activities carry `timestamp`, all set to the client's clock whatever the caller supplied; every other field is the caller's |
| Api.StampsKeepKeysUnique | src/store/api.ts:102-106 | stamping an object whose keys are distinct keeps them distinct |
| Api.DeletesHaveNoBody | src/store/api.ts:81-302 | a mutation's request has no body exactly when it is a DELETE |
| Backend.EmptyDb | server/backend.cjs:549-629 | the freshly created schema satisfies every constraint the model keeps: serial keys, unique emails and pairs, references, chronological activities |
| Backend.ListsInKeyOrder | server/backend.cjs:107-114 | with serial keys, the tables listed `ORDER BY id` are in strictly ascending id order as stored |
| Backend.ListUsers | server/backend.cjs:107-114 | `GET /users` returns one entry per user, in ascending id order, showing id, email and name and never the password hash |
| Backend.GetUser | server/backend.cjs:116-126 | `GET /users/:id` finds the user exactly when the id exists and returns that user without the hash; otherwise it is 404 'User not found' |
| Backend.FindEmail | server/backend.cjs:53 | the email lookup finds a user exactly when one has that email, and what it finds has that email |
| Backend.Register | server/backend.cjs:82-104 | registration succeeds exactly when email and password are given and the email is not taken; it appends one row with the next id, the hashed password and the name defaulting to the email; any failure is 500 and leaves the database unchanged |
| Backend.RegisterValid | server/backend.cjs:82-104 | registration keeps every constraint of the database |
| Backend.Login | server/backend.cjs:50-80 | login succeeds exactly when a user has the given email and the given password hashes to its stored hash, returning that user; failures are 401 'Invalid credentials', or 500 'Login failed' when no password is given for a known email |
| Backend.UserSetsNumbered | server/backend.cjs:131-152 | the builder appends at most three assignments, numbering them `$1`, `$2`, ... in order |
| Backend.BuildUserUpdate | server/backend.cjs:128-155 | the statement built is `UPDATE users SET`, the supplied fields' assignments in the order name, email, password, and the id placeholder after them; the parameters hold one value per assignment, then the id (see `Backend.PlaceholdersMatch` for which value each `$k` names) |
| Backend.AppendIf | server/backend.cjs:135-151 | a field that was supplied adds one assignment numbered by the counter and one parameter; an absent one changes nothing, and the text stays the head plus the assignments so far |
| Backend.AppendAssignment | server/backend.cjs:140-145 | one `if` of the builder appends a comma unless it is the first assignment, then `column = $paramCount`, pushes the value and advances the counter |
| Backend.PlaceholdersMatch | server/backend.cjs:131-155 | the parameter list has one entry more than the assignments; the last is the id and `$k` names the value for the k-th column |
| Backend.EmptyPatchSql | server/backend.cjs:131-154 | with no field to change the statement has an empty SET list, `UPDATE users SET WHERE id = $1 ...` |
| Backend.FullPatchSql | server/backend.cjs:131-154 | with all three fields the statement is `UPDATE users SET name = $1, email = $2, password = $3 WHERE id = $4 RETURNING id, email, name` |
| Backend.RunBuiltUpdate | server/backend.cjs:128-157 | running the built statement applies exactly the supplied fields, the password hashed, and fails only for a `null` email |
| Backend.PatchUser | server/backend.cjs:128-165 | a body with no fields is a malformed statement (500); an unknown id is 404; `null` or taken emails fail with 500; a success writes the supplied fields and returns the user without its hash |
| Backend.PatchUserValid | server/backend.cjs:128-165 | the user update keeps every constraint of the database |
| Backend.DeleteUser | server/backend.cjs:167-177 | deletion succeeds exactly when the user exists and no task or team-member row refers to it, and then removes exactly that row; an unknown id is 404 |
| Backend.DeleteUserValid | server/backend.cjs:167-177 | deleting a user keeps every constraint of the database |
| Backend.ListProjects | server/backend.cjs:180-189 | `GET /projects` returns exactly the stored projects in ascending id order |
| Backend.GetProject | server/backend.cjs:191-201 | `GET /projects/:id` returns the project with that id exactly when it exists, and 404 'Project not found' otherwise |
| Backend.CreateProject | server/backend.cjs:203-214 | creation succeeds exactly when a name is given (a missing one violates NOT NULL, 500); the new row takes the next id, the given description, the status or 'active' when falsy, the progress or 0 when falsy, and `now` for both timestamps, and is appended |
| Backend.CreateProjectValid | server/backend.cjs:203-214 | creating a project keeps every constraint of the database |
| Backend.CreateThenGetProject | server/backend.cjs:191-214 | a created project is read back unchanged under the id it was given |
| Backend.PatchProject | server/backend.cjs:216-230 | the update succeeds exactly when the project exists (404 otherwise); every supplied field replaces the stored one, an absent or null one keeps it, `updatedAt` becomes `now`, id and `createdAt` stay, and only that row changes |
| Backend.PatchProjectValid | server/backend.cjs:216-230 | updating a project keeps every constraint of the database |
| Backend.PatchProjectEmpty | server/backend.cjs:219-221 | an empty update body only refreshes `updatedAt` |
| Backend.DeleteProject | server/backend.cjs:232-240 | deletion always answers success; afterwards the project, its tasks, its team links and its member rows are gone, and everything else is as it was |
| Backend.DeleteProjectValid | server/backend.cjs:232-240 | deleting a project, with its cascades, keeps every constraint of the database |
| Backend.AddProjectTeam | server/backend.cjs:255-266 | linking succeeds exactly when the pair is not yet linked and both project and team exist; a duplicate pair violates the unique constraint, and every failure is 500 with the database unchanged; a success appends the link with the next id |
| Backend.AddProjectTeamValid | server/backend.cjs:255-266 | linking a team keeps every constraint of the database |
| Backend.AddProjectTeamTwice | server/backend.cjs:255-266 | linking the same team to the same project a second time fails with the unique violation |
| Backend.RemoveProjectTeam | server/backend.cjs:268-278 | unlinking always answers success, removes exactly the links of that pair and changes no other table |
| Backend.RemoveProjectTeamValid | server/backend.cjs:268-278 | unlinking keeps every constraint of the database |
| Backend.ListPositions | server/backend.cjs:281-291 | a team's positions are exactly the stored positions of that team, in ascending id order |
| Backend.CreatePosition | server/backend.cjs:293-304 | creation succeeds exactly when a name is given and the team exists; the new row takes the next id and the description or '' when falsy; every failure is 500 with the database unchanged |
| Backend.CreatePositionValid | server/backend.cjs:293-304 | creating a position keeps every constraint of the database |
| Backend.PatchPosition | server/backend.cjs:306-320 | the update succeeds exactly when the position exists (404 otherwise); name and description are replaced when supplied and kept otherwise, and only that row changes |
| Backend.PatchPositionValid | server/backend.cjs:306-320 | updating a position keeps every constraint of the database |
| Backend.Detached | server/backend.cjs:624 | after `ON DELETE SET NULL` every member's position exists, and nothing but the position changed |
| Backend.DetachKeeps | server/backend.cjs:620-628 | clearing dangling positions keeps the member rows' keys, uniqueness and other references |
| Backend.DeletePosition | server/backend.cjs:322-329 | deletion always answers success; the position is gone, no member refers to it any more, and member rows differ only in their position |
| Backend.DeletePositionSetsNull | server/backend.cjs:322-329 | exactly the members that held the deleted position lose it; the others keep theirs |
| Backend.DeletePositionValid | server/backend.cjs:322-329 | deleting a position keeps every constraint of the database |
| Backend.AddMember | server/backend.cjs:350-361 | assignment succeeds exactly when the user is not yet on that project's team and project, team, user and any truthy position exist; a duplicate violates the unique constraint; a falsy position is stored as null; failures are 500 with the database unchanged |
| Backend.AddMemberValid | server/backend.cjs:350-361 | assigning a member keeps every constraint of the database |
| Backend.PatchMember | server/backend.cjs:363-377 | the update succeeds exactly when the assignment exists (404 otherwise) and any truthy position exists; the position is overwritten, a falsy one clearing it, and only that row changes |
| Backend.PatchMemberValid | server/backend.cjs:363-377 | updating an assignment keeps every constraint of the database |
| Backend.DeleteMember | server/backend.cjs:379-386 | deletion always answers success and removes exactly the row with that id |
| Backend.DeleteMemberValid | server/backend.cjs:379-386 | removing an assignment keeps every constraint of the database |
| Backend.ListTasks | server/backend.cjs:389-406 | without a project id every task is returned; with one, exactly the tasks of that project, in stored order; either way ids ascend |
| Backend.GetTasks | server/backend.cjs:389-406 | without a non-empty `projectId` every task is listed; with one, the reply is a 500 exactly when Postgres' `integer` input refuses the string, and otherwise holds exactly the tasks of the project it denotes |
| Backend.PgInteger | server/backend.cjs:397 | Postgres' text-to-integer input: leading and trailing white space, an optional sign and at least one digit; a value is accepted exactly when the string has that form and the number is in range, and an accepted value is always in range |
| Backend.PgIntegerOfString | server/backend.cjs:397 | the decimal text of a number is accepted as that number when it is in range and refused as out of range otherwise |
| Backend.PgAgreesWithParseInt | server/backend.cjs:391-398 | whenever Postgres accepts a string, `parseInt` reads the same number from it |
| Backend.PgRejectsStray | server/backend.cjs:397 | a string holding any character other than a digit, a sign or white space is refused as bad syntax, for both `integer` and `bigint` |
| Backend.PgRejectsLetters | server/backend.cjs:397 | "12abc" and "abc" are refused as bad syntax, for both `integer` and `bigint` |
| Backend.GetTask | server/backend.cjs:408-418 | `GET /tasks/:id` returns the task with that id exactly when it exists, and 404 'Task not found' otherwise |
| Backend.CreateTask | server/backend.cjs:420-431 | creation succeeds exactly when a title is given and any project and assignee exist; defaults are 'backlog', 'medium' and 0 hours for falsy values; the row takes the next id and `now` for both timestamps; failures are 500 with the database unchanged |
| Backend.CreateTaskValid | server/backend.cjs:420-431 | creating a task keeps every constraint of the database |
| Backend.PatchTask | server/backend.cjs:433-447 | the update succeeds exactly when the task exists (404 otherwise) and any given assignee exists; the new row is that of `COALESCE` on the eight columns and only that row changes |
| Backend.PatchedTaskFields | server/backend.cjs:437 | each supplied column replaces the stored value and an absent one keeps it, so no column can be reset to null; id, project and `createdAt` never change and `updatedAt` is `now` |
| Backend.PatchTaskValid | server/backend.cjs:433-447 | updating a task keeps every constraint of the database |
| Backend.DeleteTask | server/backend.cjs:449-456 | deletion always answers success and removes exactly the task with that id |
| Backend.DeleteTaskValid | server/backend.cjs:449-456 | deleting a task keeps every constraint of the database |
| Backend.DeleteProjectTasks | server/backend.cjs:232-240 | after deleting a project, listing its tasks gives nothing and the database is still valid |
| Backend.NoTasksListed | server/backend.cjs:389-402 | when no task belongs to a project, listing that project's tasks gives nothing |
| Backend.ListTeams | server/backend.cjs:459-466 | `GET /teams` returns exactly the stored teams in ascending id order |
| Backend.GetTeam | server/backend.cjs:468-478 | `GET /teams/:id` returns the team with that id exactly when it exists, and 404 'Team not found' otherwise |
| Backend.CreateTeam | server/backend.cjs:480-491 | creation succeeds exactly when a name is given (NOT NULL, 500 otherwise); the row takes the next id, the member ids or `[]`, and `now` for both timestamps |
| Backend.CreateTeamValid | server/backend.cjs:480-491 | creating a team keeps every constraint of the database |
| Backend.PatchTeam | server/backend.cjs:493-507 | the update succeeds exactly when the team exists (404 otherwise); name, description and member ids are replaced when supplied and kept otherwise; `updatedAt` becomes `now` |
| Backend.PatchTeamValid | server/backend.cjs:493-507 | updating a team keeps every constraint of the database |
| Backend.DeleteTeam | server/backend.cjs:509-516 | deletion always answers success; exactly the team with that id, its project links and its positions are gone and nothing else of them; its member rows are gone, every other member row stays in order with a position of the deleted team set to NULL (`ON DELETE SET NULL`), and every other table is unchanged |
| Backend.DeleteTeamDetaches | server/backend.cjs:620-628 | the members left are exactly the rows of other teams, in order, each unchanged except that a position belonging to the deleted team becomes NULL |
| Backend.DeleteTeamValid | server/backend.cjs:509-516 | deleting a team, with its cascades, keeps every constraint of the database |
| Backend.ListActivities | server/backend.cjs:519-530 | a negative limit is a 500; otherwise the newest `limit` activities (50 by default) are returned newest first, in non-increasing timestamp order |
| Backend.GetActivities | server/backend.cjs:519-530 | without `_limit` the newest 50 activities are listed; a `_limit` string Postgres' `bigint` input accepts lists that many; any other string is a 500 |
| Backend.CreateActivity | server/backend.cjs:532-543 | creation always succeeds and appends the given columns with the next id and `now` as timestamp |
| Backend.CreateActivityValid | server/backend.cjs:532-543 | with a clock that does not run backwards, creating an activity keeps every constraint of the database |
| Backend.CreateThenListActivities | server/backend.cjs:519-543 | a newly created activity is the first one listed |
| BackendServer.Server.constructor | server/backend.cjs:549-629 | the process starts from the empty schema, which satisfies every constraint |
| BackendServer.Server.Register | server/backend.cjs:82-104 | the new database and the reply are those of `Backend.Register`, and the constraints still hold |
| BackendServer.Server.PatchUser | server/backend.cjs:128-165 | the new database and the reply are those of `Backend.PatchUser`, and the constraints still hold |
| BackendServer.Server.DeleteUser | server/backend.cjs:167-177 | the new database and the reply are those of `Backend.DeleteUser`, and the constraints still hold |
| BackendServer.Server.CreateProject | server/backend.cjs:203-214 | the new database and the reply are those of `Backend.CreateProject`, and the constraints still hold |
| BackendServer.Server.PatchProject | server/backend.cjs:216-230 | the new database and the reply are those of `Backend.PatchProject`, and the constraints still hold |
| BackendServer.Server.DeleteProject | server/backend.cjs:232-240 | the new database and the reply are those of `Backend.DeleteProject`, and the constraints still hold |
| BackendServer.Server.AddProjectTeam | server/backend.cjs:255-266 | the new database and the reply are those of `Backend.AddProjectTeam`, and the constraints still hold |
| BackendServer.Server.RemoveProjectTeam | server/backend.cjs:268-278 | the new database and the reply are those of `Backend.RemoveProjectTeam`, and the constraints still hold |
| BackendServer.Server.CreatePosition | server/backend.cjs:293-304 | the new database and the reply are those of `Backend.CreatePosition`, and the constraints still hold |
| BackendServer.Server.PatchPosition | server/backend.cjs:306-320 | the new database and the reply are those of `Backend.PatchPosition`, and the constraints still hold |
| BackendServer.Server.DeletePosition | server/backend.cjs:322-329 | the new database and the reply are those of `Backend.DeletePosition`, and the constraints still hold |
| BackendServer.Server.AddMember | server/backend.cjs:350-361 | the new database and the reply are those of `Backend.AddMember`, and the constraints still hold |
| BackendServer.Server.PatchMember | server/backend.cjs:363-377 | the new database and the reply are those of `Backend.PatchMember`, and the constraints still hold |
| BackendServer.Server.DeleteMember | server/backend.cjs:379-386 | the new database and the reply are those of `Backend.DeleteMember`, and the constraints still hold |
| BackendServer.Server.CreateTask | server/backend.cjs:420-431 | the new database and the reply are those of `Backend.CreateTask`, and the constraints still hold |
| BackendServer.Server.PatchTask | server/backend.cjs:433-447 | the new database and the reply are those of `Backend.PatchTask`, and the constraints still hold |
| BackendServer.Server.DeleteTask | server/backend.cjs:449-456 | the new database and the reply are those of `Backend.DeleteTask`, and the constraints still hold |
| BackendServer.Server.CreateTeam | server/backend.cjs:480-491 | the new database and the reply are those of `Backend.CreateTeam`, and the constraints still hold |
| BackendServer.Server.PatchTeam | server/backend.cjs:493-507 | the new database and the reply are those of `Backend.PatchTeam`, and the constraints still hold |
| BackendServer.Server.DeleteTeam | server/backend.cjs:509-516 | the new database and the reply are those of `Backend.DeleteTeam`, and the constraints still hold |
| BackendServer.Server.CreateActivity | server/backend.cjs:532-543 | the new database and the reply are those of `Backend.CreateActivity`, and the constraints still hold while the clock does not run backwards |
| Constants.TaskStatusesMatchModel | src/shared/utils/constants.ts:12-18 | the task status table has one entry per `TaskStatus`, keyed by its name, in declaration order |
| Constants.PrioritiesMatchModel | src/shared/utils/constants.ts:21-26 | the priority table has one entry per priority, keyed by its name, in declaration order |
| Constants.ProjectStatusesMatchModel | src/shared/utils/constants.ts:29-34 | the project status table has one entry per `ProjectStatus`, keyed by its name, in declaration order |
| Constants.TaskStatusMeta | src/shared/utils/constants.ts:12-18 | a status's label and colour are the table entry under its name |
| Constants.ProjectStatusMeta | src/shared/utils/constants.ts:29-34 | a project status's label and colour are the table entry under its name |
| Constants.StatusCaptionsDistinct | src/shared/utils/constants.ts:12-34 | no two task statuses and no two project statuses share a label |
| Models.ParseTaskStatus | src/shared/types/models.ts:46 | a string read as a task status is exactly that status's name |
| Models.TaskStatusNames | src/shared/types/models.ts:46 | every task status's name reads back as that status, and the five statuses are all listed |
| Models.ParsePriority | src/shared/types/models.ts:47 | a string read as a priority is exactly that priority's name |
| Models.PriorityNames | src/shared/types/models.ts:28 | every priority's name reads back as that priority, and the four priorities are all listed |
| Models.ParseProjectStatus | src/shared/types/models.ts:27 | a string read as a project status is exactly that status's name |
| Models.ProjectStatusNames | src/shared/types/models.ts:27 | every project status's name reads back as that status, and the four statuses are all listed |
| Models.ActivityTypesDistinct | src/shared/types/models.ts:65-77 | there are exactly twelve activity kinds, every kind is listed, and their names are pairwise different |
| Models.TaskObjectStatus | src/shared/types/models.ts:49-62 | a task written out as an object carries its own status under `status` |
| Validators.MatchesEmailIffShape | src/shared/utils/constants.ts:38 | the scanner accepts a string exactly when it splits as a non-empty local part, '@', a host, '.', and a non-empty tail, none of them containing '@' or whitespace |
| Validators.ValidateEmail | src/shared/utils/validators.ts:6-13 | '' gives 'Email is required'; any other input gives no message exactly when it has the email shape, and otherwise 'Invalid email format' |
| Validators.AcceptsLetterAddress | src/shared/utils/validators.ts:6-13 | lower-case letters around one '@' and a later '.', each with letters on both sides, form an address that passes |
| Validators.AcceptsExampleAddress | src/shared/utils/validators.ts:6-13 | 'user@example.com' passes |
| Validators.RefusesAddressWithoutDot | src/shared/utils/validators.ts:6-13 | 'bad@domain' gives 'Invalid email format' |
| Validators.ValidatePassword | src/shared/utils/validators.ts:19-26 | '' gives 'Password is required', a shorter password gives the six-character message, and a password passes exactly when it has at least six characters |
| Validators.ValidateName | src/shared/utils/validators.ts:32-39 | a name passes exactly when it is non-empty and its trimmed length is at least 2; an all-blank name gets the length message, not 'required' |
| Validators.ValidateProjectName | src/shared/utils/validators.ts:45-55 | a name passes exactly when it is non-empty and its trimmed length is between 3 and 100; blank gets the minimum message and too long the maximum one |
| Validators.ValidateTaskTitle | src/shared/utils/validators.ts:61-71 | a title passes exactly when it is non-empty and its trimmed length is between 3 and 200; blank gets the minimum message and too long the maximum one |
| Validators.TrimmedLengthRanges | src/shared/utils/constants.ts:37-45 | for text without surrounding blanks, project names pass exactly at lengths 3..100 and task titles at 3..200; each minimum is below its maximum |
| Validators.ValidateRequired | src/shared/utils/validators.ts:94-98 | a value is refused exactly when it is null, undefined or ''; the message is the field name followed by ' is required' |
| Validators.RequiredAcceptsFalsy | src/shared/utils/validators.ts:94-98 | 0 and false pass |
| Formatters.FormatPercentage | src/shared/utils/formatters.ts:30-32 | the text ends in '%' after at least one digit |
| Formatters.PercentageParsesBack | src/shared/utils/formatters.ts:30-32 | `parseInt` of the formatted percentage is the integer formatted, negative or not |
| Formatters.SliceTo | src/shared/utils/formatters.ts:39 | `slice(0, end)` is the prefix of length `end`, clamped to the string, with a negative end counting from the back |
| Formatters.TruncateText | src/shared/utils/formatters.ts:37-40 | text no longer than the limit is unchanged; longer text is its first `maxLength` characters followed by '...' |
| Formatters.TruncateExample | src/shared/utils/formatters.ts:37-40 | a sixteen-character text cut at 5 is 'longe...' |
| Formatters.FirstTwo | src/shared/utils/formatters.ts:48 | `substring(0, 2)` is the first two characters, or the whole string when shorter |
| Formatters.InitialsOneWord | src/shared/utils/formatters.ts:45-49 | a trimmed name without a space gives its first two characters upper-cased |
| Formatters.InitialsSeveralWords | src/shared/utils/formatters.ts:45-51 | with a space in the trimmed name, the first and last words are non-empty and the initials are their first letters, upper-cased |
| Formatters.InitialsOfFullName | src/shared/utils/formatters.ts:45-51 | 'Jane Doe' gives 'JD' |
| Formatters.InitialsOfSingleName | src/shared/utils/formatters.ts:45-51 | 'Madonna' gives 'MA' |
| Formatters.JsRem | src/shared/utils/formatters.ts:67 | JavaScript's `%`: Euclidean on a non-negative dividend, and minus the remainder of the magnitude on a negative one |
| Formatters.GetAvatarColor | src/shared/utils/formatters.ts:56-68 | a non-negative id picks colour `id % 8`; a negative id gives a colour only when it is a multiple of 8, and `undefined` otherwise |
| Formatters.AvatarColorPeriodic | src/shared/utils/formatters.ts:56-68 | on non-negative ids the colour is always defined and repeats every 8 ids |
| Formatters.AvatarColorExamples | src/shared/utils/formatters.ts:56-68 | ids 3 and 11 both get '#f57c00', and id 6 gets '#c2185b' |
| Formatters.ToFixed | src/shared/utils/exporters.ts:137 | `toFixed` of an exact ratio starts with '-' exactly when the ratio is negative |
| Formatters.ToFixedValue | src/shared/utils/exporters.ts:137 | the text is a sign, whole digits and, for d > 0, '.' and exactly d digits, and it reads back as q units of 10^-d, negated when num is negative, where q - 1/2 <= abs(num) * 10^d / den < q + 1/2 |
| Formatters.FixedDigitsValue | src/shared/utils/exporters.ts:137 | the unsigned digits read back as abs(num) * 10^d / den rounded half up |
| Formatters.PadDigitsValue | src/shared/utils/exporters.ts:137 | the fraction digits are exactly d long, zero-padded on the left, and keep their value |
| Formatters.RoundHalfUpBounds | src/shared/utils/exporters.ts:137 | half-up rounding lands within half a unit of the exact ratio |
| Formatters.ToFixedTwoThirds | src/shared/utils/exporters.ts:137 | two thirds at two decimals is '0.67' |
| Formatters.ToFixedWhole | src/shared/utils/exporters.ts:208 | 50 at two decimals is '50.00' |
| Csv.ConvertToCsv | src/shared/utils/exporters.ts:16-40 | the text is empty exactly when there are no rows |
| Csv.ReadCell | src/shared/utils/exporters.ts:30-34 | each encoded cell reads back, by the RFC 4180 field grammar, as its text: '' for null or undefined, the string itself with its quotes undone, or `String(value)` |
| Csv.CsvRoundTrip | src/shared/utils/exporters.ts:16-40 | for non-empty data, reading the output back gives the column names first, then for every row, in order, one field per column holding that row's cell text |
| Csv.TableRoundTrip | src/shared/utils/exporters.ts:20-39 | rows written as object literals over distinct columns read back as the column list followed by every row's values in column order |
| Exporters.FindProject | src/shared/utils/exporters.ts:83 | `find` gives the first project with the id, and none exactly when no project has it |
| Exporters.TasksReportReadsBack | src/shared/utils/exporters.ts:77-101 | the tasks report reads back as its twelve column names, then one line per task, in order, with the id, title, project name or 'N/A', assignee or 'Unassigned', hours and variance |
| Exporters.NoTasksEmptyReport | src/shared/utils/exporters.ts:16-17 | an empty task list exports an empty file |
| Exporters.ProjectsReportReadsBack | src/shared/utils/exporters.ts:106-120 | the projects report reads back as its nine column names and one line per project, with progress written as a percentage and missing dates as 'N/A' |
| Exporters.Timed | src/shared/utils/exporters.ts:131 | no task remains exactly when no task has estimated or actual hours |
| Exporters.TimedTasks | src/shared/utils/exporters.ts:130-131 | the kept tasks are a subsequence of the input, each with estimated or actual hours |
| Exporters.TimeTrackingCsv | src/shared/utils/exporters.ts:125-156 | nothing is exported exactly when no task has estimated or actual hours |
| Exporters.TimeTrackingReadsBack | src/shared/utils/exporters.ts:125-156 | the exported file reads back as the seven column names and one line per kept task, in order, with variance = estimated - actual and its accuracy |
| Exporters.Accuracy | src/shared/utils/exporters.ts:137 | with no positive estimate the accuracy is '0'; otherwise it is non-empty and starts with '-' exactly when the actual hours are negative |
| Exporters.AccuracyValue | src/shared/utils/exporters.ts:137 | with a positive estimate the accuracy has exactly two decimals and reads back as q hundredths, negated when the actual hours are negative, where q - 1/2 <= abs(actual) * 10000 / estimated < q + 1/2 |
| Exporters.AccuracyExamples | src/shared/utils/exporters.ts:137 | 8 of 8 hours is '100.00', 4 of 8 is '50.00', and no estimate gives '0' |
| Exporters.CompletionRate | src/shared/utils/exporters.ts:208 | the completion cell is 'NaN%' exactly when there are no tasks |
| Exporters.SummaryRows | src/shared/utils/exporters.ts:193-210 | the summary has exactly twelve rows of three cells |
| Exporters.CountStatuses | src/shared/utils/exporters.ts:167-178 | the tally holds exactly the five seeded keys, each with the number of tasks whose status, with '' read as backlog, is that key |
| Exporters.CountPriorities | src/shared/utils/exporters.ts:181-191 | the tally holds exactly the four seeded keys, each with the number of tasks whose priority, with '' read as medium, is that key |
| Exporters.AnalyticsSummary | src/shared/utils/exporters.ts:161-213 | the rows built are the specified twelve summary rows: five status tallies, four priority tallies, the project and task totals and the completion rate |
| Exporters.StatusTotalBound | src/shared/utils/exporters.ts:175-178 | the five status rows add up to the number of tasks with a known or missing status: at most all tasks, and exactly all when no status is foreign |
| Exporters.AnalyticsReadsBack | src/shared/utils/exporters.ts:193-212 | the analytics file reads back as 'Category,Type,Count' followed by the twelve rows' texts |
| Exporters.CompletionLine | src/shared/utils/exporters.ts:205-209 | the last line reads back as Overall, Completion Rate and the rate, which is 'NaN%' with no tasks |
| Records.Index | src/features/dashboard/components/ProjectOverviewCard.tsx:20-21 | an own key reads its value; a key that is not own but names a member of `Object.prototype` reads that inherited member; any other key is `undefined` |
| Records.IndexOr | src/features/tasks/components/KanbanBoard.tsx:75 | `record[key] || fallback`: an own non-empty string is kept; an inherited member, always truthy, is read exactly when the key is not own and names one; an own empty string or an absent key gives the fallback |
| KanbanBoard.ColumnsAreStatuses | src/features/tasks/components/KanbanBoard.tsx:51 | the five columns are exactly the task status names, in declaration order |
| KanbanBoard.GroupByStatus | src/features/tasks/components/KanbanBoard.tsx:364-373 | the loop throws exactly when some task's lane (with '' read as backlog) names a member of `Object.prototype`, which is truthy and has no `push`; otherwise the grouping has exactly the five column keys, and each column holds the tasks of that lane, in input order |
| KanbanBoard.EmptyColumns | src/features/tasks/components/KanbanBoard.tsx:365-366 | after the first `forEach` every one of the five columns is present and empty, and there is no other key |
| KanbanBoard.ColumnStep | src/features/tasks/components/KanbanBoard.tsx:367-369 | pushing one more task extends exactly the column of its lane and leaves every other column as it was |
| KanbanBoard.ColumnMembership | src/features/tasks/components/KanbanBoard.tsx:368-369 | a task is on a column exactly when its status, with '' read as backlog, is that column |
| KanbanBoard.UnknownStatusNowhere | src/features/tasks/components/KanbanBoard.tsx:368-369 | a task whose status is non-empty and not a column is on no column, and when that status names an inherited member such as 'toString', grouping throws |
| KanbanBoard.ColumnsDisjoint | src/features/tasks/components/KanbanBoard.tsx:367-369 | no task is on two columns, and each column is a subsequence of the input |
| KanbanBoard.FindTask | src/features/tasks/components/KanbanBoard.tsx:394 | `find` by string id gives the first task whose id reads as that string, and none exactly when no task's does |
| KanbanBoard.DragEndUpdate | src/features/tasks/components/KanbanBoard.tsx:384-416 | any update asked for names the dragged id |
| KanbanBoard.DragWithoutTarget | src/features/tasks/components/KanbanBoard.tsx:389-396 | a drag with no drop target, or of an id that no task has, asks for no update |
| KanbanBoard.DropOnColumn | src/features/tasks/components/KanbanBoard.tsx:399-405 | dropping on a column asks for exactly one update to that column, and only when the task is not already in it |
| KanbanBoard.DropOnCard | src/features/tasks/components/KanbanBoard.tsx:408-413 | dropping on a card asks for that card's status exactly when it differs from the dragged task's; an unknown id asks for nothing |
| KanbanBoard.PriorityChips | src/features/tasks/components/KanbanBoard.tsx:68-84 | only low, medium and high have their own label and colour; a priority naming an inherited member of `Object.prototype` reads that member for both; every other priority, 'critical' included, shows 'Normal' in '#1976d2' |
| KanbanBoard.Board.constructor | src/features/tasks/components/KanbanBoard.tsx:339-355 | the board opens with no create form, an empty new task of priority 'medium', and nothing being edited or dragged |
| KanbanBoard.Board.HandleCreateTask | src/features/tasks/components/KanbanBoard.tsx:429-449 | with no open column or a blank title nothing happens; with no project it only alerts; otherwise it creates a task in the clicked column, dated today, with zero hours, and resets the form to an empty title with priority 'medium' |
| KanbanBoard.Board.HandleSaveEdit | src/features/tasks/components/KanbanBoard.tsx:422-427 | an open edit sends the whole edited task under its id and closes the dialog; without one nothing changes |
| KanbanBoard.Board.HandleDragStart | src/features/tasks/components/KanbanBoard.tsx:375-382 | the dragged card is the first task with the id, or none |
| KanbanBoard.Board.HandleDragEnd | src/features/tasks/components/KanbanBoard.tsx:384-416 | the dragged card is cleared and the update sent is the drag-end rule's |
| KanbanBoard.ApplyEdit | src/features/tasks/components/KanbanBoard.tsx:521-570 | an edit of one dialog field keeps the task's id, project and assignee; only a status edit changes the status |
| KanbanBoard.Board.OpenCreate | src/features/tasks/components/KanbanBoard.tsx:486 | a column's "+" opens the form for that column and keeps what was typed |
| KanbanBoard.Board.CancelCreate | src/features/tasks/components/KanbanBoard.tsx:662 | Cancel closes the new-task form and keeps what was typed |
| KanbanBoard.Board.SetNewTask | src/features/tasks/components/KanbanBoard.tsx:600-650 | the form fields take the typed values; nothing else changes |
| KanbanBoard.Board.HandleEditTask | src/features/tasks/components/KanbanBoard.tsx:418-420 | the edit dialog opens on the given task |
| KanbanBoard.Board.ChangeEditing | src/features/tasks/components/KanbanBoard.tsx:521-570 | a dialog field changes the edited task only when one is open |
| KanbanBoard.Board.CancelEdit | src/features/tasks/components/KanbanBoard.tsx:583 | Cancel drops the edit |
| KanbanContainer.NormalizeTask | src/features/tasks/containers/KanbanContainer.tsx:17-22 | the status is kept exactly when it is one of the five columns and is otherwise 'backlog'; an empty priority becomes 'medium' and any other is kept; every other field is unchanged |
| KanbanContainer.NormalizeIdempotent | src/features/tasks/containers/KanbanContainer.tsx:17-22 | a normalised task has a column status and a priority, and normalising it again changes nothing |
| KanbanContainer.NormalizeTasks | src/features/tasks/containers/KanbanContainer.tsx:24-27 | the same number of tasks, in the same order, each normalised |
| KanbanContainer.NormalizeTasksIdempotent | src/features/tasks/containers/KanbanContainer.tsx:24-27 | normalising a list twice is normalising it once |
| KanbanContainer.VisibleTasksSpec | src/features/tasks/containers/KanbanContainer.tsx:59-61 | with no project chosen every task shows; otherwise exactly the tasks of that project, in input order |
| KanbanContainer.LoadedTasksNormal | src/features/tasks/containers/KanbanContainer.tsx:47 | every task in a normalised list has a column status and a non-empty priority |
| KanbanContainer.Container.constructor | src/features/tasks/containers/KanbanContainer.tsx:9-15 | the container starts loading, with no tasks, no error and no project chosen |
| KanbanContainer.Container.Load | src/features/tasks/containers/KanbanContainer.tsx:36-56 | the first fetch stores the normalised list, or sets 'Failed to load tasks' and keeps the list; loading ends either way |
| KanbanContainer.Container.Settle | src/features/tasks/containers/KanbanContainer.tsx:66-79 | the error is cleared first; success replaces the list by the normalised re-fetch, failure sets the handler's message and keeps the list |
| KanbanContainer.Container.HandleTaskUpdate | src/features/tasks/containers/KanbanContainer.tsx:63-82 | the id sent is `parseInt` of the card id; success replaces the list by the normalised re-fetch and clears the error, and failure sets 'Failed to update task' and keeps the list |
| KanbanContainer.Container.HandleTaskDelete | src/features/tasks/containers/KanbanContainer.tsx:84-102 | the id sent is `parseInt` of the card id; success replaces the list by the normalised re-fetch, and failure sets 'Failed to delete task' and keeps the list |
| KanbanContainer.Container.HandleTaskCreate | src/features/tasks/containers/KanbanContainer.tsx:104-120 | success replaces the list by the normalised re-fetch, and failure sets 'Failed to create task' and keeps the list |
| KanbanContainer.Container.SelectProject | src/features/tasks/containers/KanbanContainer.tsx:132 | 'All Projects' (no value or 0) clears the choice; any other id selects it; the list is untouched |

## Left out

- I/O: network I/O, `fetch`, `localStorage` (modelled as a map where a reducer or handler writes it), `window.confirm`, `alert` and the clock. Each becomes a parameter, such as an awaited outcome, a `now: int` timestamp or a `today` date string.
- bcrypt and jwt: these are foreign libraries. Password hashing is a parameter `hash: string -> string`, and a password matches when `hash(p)` equals the stored hash. Token signing is left out, so `Backend.Login` returns the user view without the signed token. `BackendServer.Server.Register` likewise returns no token.
- `optionalAuth` and `jwt.verify`: a foreign library. `Api.TokenReachesServer` proves only that the header's token is the one stored.
- Server plumbing: Express routing, CORS, JSON body parsing, the pg pool and connection errors, `initDb`'s seed rows and the server start-up are left out. The schema's serial keys, `NOT NULL`, `UNIQUE` and `REFERENCES` constraints are kept, as `Backend.Valid` and `Backend.EmptyDb`, except for the column lengths and the NULL link columns named below.
- Column lengths: the `VARCHAR(50)` and `VARCHAR(255)` limits (server/backend.cjs:552-614) are not checked. Postgres refuses an over-long email, name, title, status, priority or activity type with a 500, and the model stores it.
- AddProjectTeam: the body's `teamId` is modelled as a number that is present. A request without one inserts a row whose `teamId` is NULL. The schema allows that, and `UNIQUE("projectId", "teamId")` treats NULLs as distinct, so such an insert succeeds every time. That row is not modelled.
- AddMember: the body's `teamId` and `userId` are modelled as numbers that are present. Without them the row gets NULL there, and the unique constraint never rejects it. That row is not modelled.
- Route and query ids: an id in a route path (`/tasks/:id`) is modelled as a number, so a path such as `/tasks/abc`, which Postgres refuses with a 500, is not modelled. The query strings `projectId` and `_limit` are read as strings (`Backend.PgInteger`). Postgres' integer input is modelled in its plain decimal form, with white space and a sign. The underscores, and the hexadecimal, octal and binary literals, that PostgreSQL 16 also accepts are not modelled.
- Null client fields: the client types `Activity.type` and `Task.projectId` as always present. The model reads them as `Models.Activity.activityType`, a string, and `Models.Task.projectId`, a number. An activity created by `POST /activities` without a `type` stores NULL (server/backend.cjs:532-543). The feed's `type.includes` (src/features/dashboard/components/ActivityFeed.tsx:16) then throws, and the model reads that type as "" and does not capture the throw. A task without a project likewise has a NULL `projectId` on the server (`Backend.TaskRow.projectId` is an `Option`), and the client model gives it a number.
- Inherited keys: `Records` models the members of `Object.prototype` that an object-literal lookup can reach, in the label, colour and grouping maps. The counters of `exportAnalyticsSummary` (src/shared/utils/exporters.ts:167-190) also index object literals. There, an inherited name is written like any other unknown key, and only the fixed keys are read back, so the counts do not change. `COLUMN_LABELS` and `COLUMN_COLORS` are only read with the five columns.
- `Object.keys` order: objects keep their keys in insertion order (`Json`). That is JavaScript's order only for keys that are not integer-like. The client's keys are field names and column headers.
- Serial keys: Postgres gives each table its own `SERIAL` sequence. The model draws every key from one shared counter. Keys are then still unique and ascending in each table, but their numeric values differ from a real database's.
- Postgres errors: their messages are abbreviated constants. A handler's 500 reply is modelled by its status and this constant, not the full driver text.
- `ORDER BY "createdAt" DESC` and `ORDER BY timestamp DESC`: rows are kept in insertion order with non-decreasing timestamps. The newest-first listings reverse that order, and rows with equal timestamps come out in reverse insertion order, where Postgres may return them in any order.
- Join listings: `GET /projects/:projectId/teams` and `GET /projects/:projectId/team-members` (server/backend.cjs:243-253, :332-348) are left out. They are read-only joins whose row shape the client only displays.
- Query strings: percent-encoding by `URLSearchParams`, and the server's decoding, are not modelled. Values containing '&', '=' or '%' are excluded by the read-back lemmas' preconditions.
- `JSON.parse` of stored users and `response.json()`: these are parameters. Escapes inside JSON string literals are not modelled (`AuthSlice.UserJson`).
- `NaN`: Dafny has no `NaN`. A number that is `NaN` is written `None`, so `parseInt` failures, `JSON.stringify` sending `NaN` as `null`, and the 'NaN%' completion cell are modelled that way. This is not IEEE arithmetic.
- Floating point: `Math.round` of non-integers in `formatPercentage`, and `toFixed`, are not modelled as floats. `toFixed` is modelled as exact decimal rounding, half up, on the rational value (`Formatters.ToFixed`), which can differ from binary floating point on ties. Hours are integers, so fractional hours are not modelled.
- Case mapping: `toUpperCase`/`toLowerCase` are ASCII-only. Lengths are counted in Unicode scalar values, not UTF-16 code units.
- RTK Query runtime: caching, refetching on invalidation, `unwrap`, and the `isLoading` flags are framework plumbing. Tags are modelled only as the lists each endpoint declares (`Api.TaskMutationsInvalidate`).
- Rendering: React rendering, MUI components, skeletons, charts, dnd-kit sensors and collision detection are UI or foreign code. Only the ids dnd-kit delivers, the values shown and the handlers' effects are modelled.
- Concurrency: racing mutations and the order of the fire-and-forget activity dispatch are not sequential logic, so they are left out.
- Date logic: `validateFutureDate`, `formatRelativeTime` and `formatDisplayDate` depend on the clock and date-fns. The date-format and debounce constants of `constants.ts` belong to code outside this model.
- `User.avatar`, `User.createdAt` and `Team.leaderId` are not modelled: no modelled rule reads them.
- Missing callbacks: the board's optional callbacks (`onTaskUpdate`, `onTaskCreate`) are assumed to be given, as `KanbanContainer` always passes them. The branch where they are absent, which does nothing, is not modelled.
- `KanbanBoard.Board.OpenCreate` requires one of the five columns, the only values the "+" buttons pass (src/features/tasks/components/KanbanBoard.tsx:479-486).

## Findings

| source | as written | input that shows it | evidently intended | confidence | as-written member | corrected member |
|---|---|---|---|---|---|---|
| src/features/members/pages/MembersPage.tsx:59 | an edit goes through `validatePassword`, which refuses the empty password | editing a member and leaving the password field empty, as its label 'leave blank to keep current' (line 236) invites | a blank password on an edit passes, and the PATCH body then omits it (lines 79-83) | high (not executed) | MembersPage.PasswordErrorAsWritten, MembersPage.BlankPasswordEditRefused | MembersPage.PasswordError, MembersPage.PasswordErrorIff, MembersPage.BlankPasswordEditSent, MembersPage.BlankPasswordEditKeepsHash, MembersPage.Validate, MembersPage.SaveStep, MembersPage.Page.HandleSave |
| src/features/teams/containers/TeamsContainer.tsx:88 | `onClick={handleOpenDialog}` passes the click event as `team`, so the form's name becomes `undefined` | clicking "Create Team" and then "Save" without typing a name: `formData.name.trim()` (line 40) throws | the button opens the empty form, `handleOpenDialog()`, and the save shows "Team name is required" | high (not executed) | TeamsContainer.OpenFromClick, TeamsContainer.CreateClickThenSaveThrows | TeamsContainer.CreateDialogThenSaveAsks, TeamsContainer.TeamsPage.HandleOpenDialog |
