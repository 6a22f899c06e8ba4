# proartist team workload and client rules in Dafny

This project models the core of the proartist back office. The core is the
workload scoring of the TEAM members and the goal rebalancing in
`core/assignment.py`. Around it sit the small rules that decide who sees and
changes what:

- the task-reminder job and its command;
- the query, visibility and permission rules of the API views;
- the serializer rules about roles, file names and participants;
- the `IsTeam` permission;
- the browser's route guard, realtime socket address and reconnect cycle;
- the cached current-profile store.

Database tables become explicit sequences in table order, and a score
table is a `map` from profile id to integer. Dates are integer day numbers,
with a missing due date after every date. The clock, e-mail, the activity
log, the browser's storage and URL parser are all parameters:

- "today" is an integer;
- the activity log is a set of reminder keys;
- sent mail is an outbox;
- the protocol, host, path and token are inputs.

Modules, one file each:

| module | file | models |
|---|---|---|
| `Common` | common.dfy | `Option`, duplicate-free sequences, left-to-right sums |
| `Roles` | roles.dfy | profiles, role keys, the TEAM pool |
| `Assignment` | assignment.dfy | `compute_team_scores`, `pick_lowest_score_member`, `assign_task_for_review` |
| `Rebalance` | rebalance.dfy | `rebalance_growpro_assignments`, both phases |
| `Automation` | automation.dfy | `_profile_emails`, `_notify_task`, `send_task_reminders` |
| `ReminderCommand` | reminder_command.dfy | the `send_task_reminders` management command |
| `Text` | text.dfy | `str.split`, `str.strip`, `str.upper`, `split("/")[-1]` |
| `Permissions` | permissions.dfy | `IsTeam` |
| `Views` | views.dfy | task query, project and request visibility, project permissions, chat `ensure`, `stats`, `register` |
| `Serializers` | serializers.dfy | TEAM-role stripping, locked flag, file names, display names, participants |
| `Router` | router.dfy | the `beforeEach` guard |
| `Realtime` | realtime.dfy | `buildWsUrl` and the connect / reconnect cycle |
| `CurrentProfile` | current_profile.dfy | `fetchProfile`, `clearProfile`, `isTeam` |

## Model

| member | source | states |
|---|---|---|
| Roles.TeamPool | core/assignment.py:15-16 | the pool holds the id of every TEAM holder and of nobody else, each once when profile ids are unique |
| Roles.TeamPoolMembership | core/assignment.py:15-16 | a profile of the table is in the pool exactly when it has the TEAM role |
| Assignment.PriorityPoints | core/assignment.py:7-12 | a task weighs 1 to 3; LOW, MEDIUM and any unknown key weigh 1, only HIGH and CRITICAL weigh more |
| Assignment.TeamScoreNonNegative | core/assignment.py:19-43 | no member's workload score is negative |
| Assignment.ScoreOrderIndependent | core/assignment.py:25-41 | a score does not depend on the order in which tasks and projects are listed |
| Assignment.AddToMembers | core/assignment.py:32-34 | the inner loop adds the weight to exactly the members with an entry and leaves the key set alone |
| Assignment.AddTaskWeights | core/assignment.py:25-34 | after the task loop each entry has grown by its load from open tasks, and no entry was added |
| Assignment.AddProjectWeights | core/assignment.py:36-41 | after the project loop each entry has grown by 2 per live project where the member participates or owns, counted once |
| Assignment.ComputeTeamScores | core/assignment.py:19-43 | the loops compute the reference score map: one entry per pool member, its task weights plus project points; ids outside the pool get nothing |
| Assignment.LowestIsUnique | core/assignment.py:46-49 | the (score, id) minimum is unique, so the pick does not depend on map order |
| Assignment.PickLowestScoreMember | core/assignment.py:46-49 | None exactly for an empty map, otherwise the lowest score with ties to the smallest id |
| Assignment.AssignTaskForReview | core/assignment.py:52-62 | with an empty pool nothing is picked and the task is unchanged; otherwise the (score, id)-lowest member of the pool becomes an assignee and nobody is removed |
| Rebalance.KeyOrder | core/assignment.py:84 | the urgency key (due date with missing last, then creation) is a strict weak order |
| Rebalance.FirstMax | core/assignment.py:97 | `max(scores, key=scores.get)`: a highest score, the first such in team order |
| Rebalance.FirstMin | core/assignment.py:98 | `min(scores, key=scores.get)`: a lowest score, the first such in team order |
| Rebalance.LatestHeldGoal | core/assignment.py:101-105 | None exactly when the member holds no pending goal, otherwise the first of its goals with the greatest urgency key |
| Rebalance.EarliestOrphan | core/assignment.py:84 | the next orphan of the stable sort: every other remaining orphan sorts after it |
| Rebalance.AddHeldGoals | core/assignment.py:76-78 | each pool member's score grows by the number of pending goals it holds |
| Rebalance.AssignOrphans | core/assignment.py:80-91 | orphans are taken in stable urgency order; each goes to the lowest scorer after the earlier assignments; afterwards every pending goal is held in the pool and only orphans changed |
| Rebalance.EqualizeStep | core/assignment.py:96-110 | one round: no move when the gap is at most 2 or the top member holds nothing; otherwise its least urgent goal goes to the bottom member and the scores move by -1/+1 |
| Rebalance.Rounds | core/assignment.py:96-110 | rounds keep the pool's key set; n rounds are n EqualizeSteps one after the other, None once one of them stops |
| Rebalance.Equalize | core/assignment.py:93-110 | the result is exactly `moved` EqualizeStep rounds from the phase-1 state, and when fewer than 2 x pending were made the next round moves nothing; none with one member or no goal; only pending goals change; total score kept |
| Rebalance.HeldTotalCountsPending | core/assignment.py:73-91 | once every pending goal is held in the pool, the members' held counts add up to the number of pending goals |
| Rebalance.GoalScoresTotal | core/assignment.py:76-110 | total score = total workload + number of pending goals, whoever holds them |
| Rebalance.GoalScoresNonNegative | core/assignment.py:108-109 | scores stay non-negative under any assignment of the goals |
| Rebalance.RunPhases | core/assignment.py:80-110 | phase 1 is the greedy assignment in stable urgency order, phase 2 is `moved` EqualizeStep rounds from its result; every orphan counted and assigned, pending goals stay pending and held, at most 2 x pending moves, and the stop condition |
| Rebalance.FinalScores | core/assignment.py:76-110 | the job's running scores end equal to workload plus held goals of the returned goals |
| Rebalance.RebalanceGrowProAssignments | core/assignment.py:65-112 | empty pool: nothing changes and both counts are 0; otherwise phase 1 assigns the orphans in stable urgency order, each to the (score, id)-lowest member of the running design scores, and phase 2 is exactly `rebalanced` EqualizeStep rounds from there; only pending goals change; assigned = number of orphans; moves bounded and conserving the total; the stop condition |
| Automation.EmailsOf | core/automation.py:10-17 | no empty address, and none at all exactly when no member has a truthy e-mail |
| Automation.EmailsOfMembers | core/automation.py:10-17 | an address is kept exactly when some member has it as a truthy e-mail |
| Automation.EmailsOfAppend | core/automation.py:10-17 | collection works piece by piece, so input order is kept |
| Automation.ProfileEmails | core/automation.py:10-17 | the loop returns the reference list of truthy e-mails |
| Automation.Judge | core/automation.py:28-33 | outcomes in order: skipped exactly when already reminded, otherwise no recipients exactly without e-mails, otherwise notified with the recipient count |
| Automation.NotifyTask | core/automation.py:28-45 | a dry run or a non-notified task neither mails nor logs; a real notification mails the recipients and logs its key |
| Automation.NotifyAll | core/automation.py:70-81 | every task of a pass lands in exactly one counter; the log only grows, by keys of this event; a dry run changes neither log nor outbox |
| Automation.NotifyAllMatchesBatch | core/automation.py:70-97 | a pass adds the tally of its tasks against the log at its start, and a real pass logs exactly its new keys |
| Automation.NewKeysMembers | core/automation.py:36-44 | a pass logs the key of a task exactly when it notifies that task |
| Automation.BatchAfterLogging | core/automation.py:20-25 | after its keys are logged, every task a pass notified is skipped when the pass runs again |
| Automation.DueSoon | core/automation.py:60-68 | exactly the live, not-DONE tasks due from today to today + days, as a subsequence of the snapshot (its order kept), with distinct ids when the snapshot's are |
| Automation.Overdue | core/automation.py:84 | exactly the live, not-DONE tasks of the base query due before today, as a subsequence of the snapshot (its order kept), with distinct ids when the snapshot's are |
| Automation.WindowsDisjoint | core/automation.py:67-84 | no task is both due soon and overdue |
| Automation.SendTaskReminders | core/automation.py:48-99 | the two counts are the sizes of the selections; handled tasks add up to them; the log only grows; a dry run neither logs nor mails |
| Automation.RunSummary | core/automation.py:51-97 | the summary starts at 0 and is the counts plus the tallies of both passes against the initial log |
| Automation.RunLog | core/automation.py:36-44 | a real run logs exactly the keys of the tasks it notified |
| Automation.DryRunSameCounters | core/automation.py:34-45 | a dry run reports the same counters as a real one |
| Automation.RerunSkipsNotified | core/automation.py:20-44 | running again after a real run turns each notification of the first run into a skip |
| ReminderCommand.EffectiveDays | core/management/commands/send_task_reminders.py:16 | the window always lies in [1, 30], is unchanged inside it and pinned to the nearer bound outside |
| ReminderCommand.EffectiveDaysIdempotent | core/management/commands/send_task_reminders.py:16 | clamping an already clamped window changes nothing |
| ReminderCommand.EffectiveDaysMonotone | core/management/commands/send_task_reminders.py:16 | clamping keeps the order of windows |
| ReminderCommand.Handle | core/management/commands/send_task_reminders.py:15-22 | a pass runs unless its `--no-` flag is set; a `--dry-run` run neither logs nor mails |
| ReminderCommand.DueSoonPassAlwaysRuns | core/management/commands/send_task_reminders.py:16-20 | without `--no-due-soon`, the due-soon pass always runs because the window is at least 1 |
| ReminderCommand.DefaultsMatch | core/management/commands/send_task_reminders.py:10-13 | with no option given the command runs 3 days, both passes, for real |
| Text.Split | core/views.py:140 | at least one piece, none containing the separator |
| Text.JoinSplit | core/views.py:140 | joining the pieces gives the string back |
| Text.SplitJoin | core/views.py:140 | splitting a join of separator-free pieces gives the pieces back |
| Text.Strip | core/views.py:140 | the stripped text is no longer than the input and neither starts nor ends with white space |
| Text.StripIsMiddleSlice | core/views.py:140 | the stripped text is the slice behind the leading white space, with only white space on either side |
| Text.StripEmpty | core/views.py:140 | a piece strips to nothing exactly when it is all white space |
| Text.Upper | core/views.py:140 | each ASCII lower-case letter is raised, every other character kept |
| Text.AfterLast | core/serializers.py:145 | a separator-free suffix that is the whole text or follows a separator |
| Text.SplitLastPiece | core/serializers.py:145 | after a last separator comes the last piece |
| Permissions.IsTeam | core/permissions.py:4-9 | refused without a user, without authentication or without a profile; otherwise granted exactly for a TEAM holder |
| Permissions.IsTeamMatchesPool | core/permissions.py:9 | the permission lets a profile through exactly when the profile is in the assignment pool |
| Views.CleanStatuses | core/views.py:140 | every kept status is non-empty, free of edge white space and of lower-case letters |
| Views.CleanStatusesKeepSome | core/views.py:140 | the comprehension keeps, in order, the stripped upper-cased form of exactly the non-blank pieces |
| Views.CleanStatusesMembers | core/views.py:140 | a status is kept exactly when some piece strips to something non-empty that upper-cases to it |
| Views.ParseStatuses | core/views.py:139-140 | the parsed statuses are clean and no more numerous than the pieces |
| Views.ParseJoined | core/views.py:140 | a clean comma-free status list joined with commas parses back to itself |
| Views.CleanTokens | core/views.py:140 | clean statuses pass through the comprehension unchanged |
| Views.NoStatusesWhenBlank | core/views.py:139-142 | the status filter is skipped exactly when every piece is blank |
| Views.FilterTasks | core/views.py:137-142 | a task stays exactly when it passes the project filter (if given) and the status filter (if non-empty) |
| Views.TaskQuery | core/views.py:133-143 | membership as the two filters say; with neither filter active the list is returned whole |
| Views.VisibleProjects | core/views.py:121-126 | None, the 500 that `request.user.profile` raises, exactly for a user without a profile; otherwise a TEAM member sees the whole table and anyone else exactly the projects listing them, in table order |
| Views.ProjectAccess | core/views.py:116-119 | GET/HEAD/OPTIONS need only a signed-in user; every other method needs `IsTeam` |
| Views.VisibleRequests | core/views.py:55-57 | None, the 500 that `request.user.profile` raises, exactly for a user without a profile; otherwise exactly the requests the user sent or received, in table order |
| Views.FindThread | core/views.py:93-95 | the first thread between the two profiles in either orientation, None exactly when none exists |
| Views.FreshId | core/views.py:97 | a new thread id differs from every existing one |
| Views.Ensure | core/views.py:89-98 | a 500 exactly when the user has no profile or `profile_id` is not a number; a 404 exactly when it is missing or names no profile; otherwise the existing thread of the pair, or a new me-to-other thread appended |
| Views.FindThreadSymmetric | core/views.py:94 | the pair query finds the same thread from either side |
| Views.EnsureIdempotent | core/views.py:89-98 | a repeated `ensure`, from either side, returns the same thread and creates nothing |
| Views.ZeroCounts | core/views.py:176 | every ROLE_CHOICES key starts at 0 |
| Views.RoleCounts | core/views.py:176-178 | the reported keys are exactly the ROLE_CHOICES keys and the keys of the rows |
| Views.RoleCountsLastRowWins | core/views.py:177-178 | a key's count is that of its last row |
| Views.RoleCountsZeroWithoutRow | core/views.py:176 | a ROLE_CHOICES key without a row is reported as 0 |
| Views.RoleCountsOfUniqueKeys | core/views.py:176-178 | with unique role keys every ROLE_CHOICES key is reported and every row's count is reported for its key |
| Views.RolesWithKeys | core/views.py:32-33 | exactly the table roles whose key was asked for |
| Views.Register | core/views.py:23-34 | 400 without username or password, 400 for a taken username, both leaving the users alone; otherwise the user is added and its profile is named after it with the asked-for roles |
| Views.RegisterOnce | core/views.py:28-30 | the same registration sent twice is refused the second time |
| Serializers.WithoutTeam | core/serializers.py:84 | exactly the non-TEAM roles remain, so no TEAM role is left |
| Serializers.WithoutTeamAppend | core/serializers.py:84 | filtering works piece by piece, so the other roles keep their order |
| Serializers.WithoutTeamKeeps | core/serializers.py:84 | a list without TEAM roles is left exactly as it is |
| Serializers.UpdateRoles | core/serializers.py:78-86 | no roles given: unchanged; no request or a TEAM requester: as given; any other requester: as given without TEAM |
| Serializers.NoTeamEscalation | core/serializers.py:81-85 | after an update by a non-TEAM requester the profile has TEAM only if it had it before |
| Serializers.NonTeamRolesPass | core/serializers.py:81-85 | roles without TEAM are stored as given whoever sends them |
| Serializers.IsLocked | core/serializers.py:88-92 | locked exactly when a user exists and is inactive |
| Serializers.FileName | core/serializers.py:142-145 | None exactly without a file name; otherwise a slash-free suffix that is the whole name or follows a slash |
| Serializers.FileNameOfPath | core/serializers.py:145 | a name stored under folders gives back its own last part |
| Serializers.DisplayName | core/serializers.py:137 | the profile's name when it is non-empty, the username otherwise |
| Serializers.DisplayNameNonEmpty | core/serializers.py:137 | a user with a username is never shown with an empty name |
| Serializers.CreateParticipants | core/serializers.py:202-207 | a new project holds exactly the given participants, none when the list is missing or empty |
| Serializers.UpdateParticipants | core/serializers.py:209-214 | an update replaces the participants when a list is given, even an empty one, and keeps them otherwise |
| Serializers.CreateIsUpdateOfEmpty | core/serializers.py:202-214 | skipping the empty list on create is unobservable: create = update of an empty project |
| Serializers.UpdateParticipantsIdempotent | core/serializers.py:209-214 | sending the same participants twice changes nothing the second time |
| Router.SomeRequiresAuth | frontend/src/router/index.js:48 | true exactly when some matched record requires a sign-in |
| Router.SomeGuestOnly | frontend/src/router/index.js:49 | true exactly when some matched record is for guests only |
| Router.BeforeEach | frontend/src/router/index.js:46-60 | login with the full path as redirect exactly for a sign-in page without a token; dashboard exactly for a guest page with a token; otherwise proceed |
| Router.RedirectsSettle | frontend/src/router/index.js:19-38 | the login and dashboard pages accept the navigation the guard redirected there, so it never bounces twice |
| Router.SignInCheckFirst | frontend/src/router/index.js:51-58 | a page flagged both ways sends a guest to the login page |
| Realtime.DropApiMount | frontend/src/composables/useRealtimeUpdates.js:14 | a trailing `/api/` or `/api` is cut, any other path kept |
| Realtime.DropTrailingSlash | frontend/src/composables/useRealtimeUpdates.js:15 | at most one trailing slash is cut |
| Realtime.Scheme | frontend/src/composables/useRealtimeUpdates.js:12 | `wss:` exactly under `https:`, else `ws:` |
| Realtime.SocketRoot | frontend/src/composables/useRealtimeUpdates.js:14-15 | the cleaned path is a prefix of the API path, and what is cut is one of "", "/", "/api", "/api/", "//api", "//api/" |
| Realtime.BuildWsUrl | frontend/src/composables/useRealtimeUpdates.js:9-17 | the address is scheme, `//` and the host, then exactly the cleaned path, then the updates path and the token (empty when none is stored) |
| Realtime.DevelopmentAddress | frontend/src/api.js:3 | the development base gives `ws://127.0.0.1:8000/ws/updates/?token=` plus the token |
| Realtime.ApiMountWithSlashIgnored | frontend/src/composables/useRealtimeUpdates.js:14-15 | a prefix with `/api/` appended gives the same socket root as the prefix |
| Realtime.ApiMountIgnored | frontend/src/composables/useRealtimeUpdates.js:14-15 | a prefix with `/api` appended gives the same socket root as the prefix |
| Realtime.TrailingSlashIgnored | frontend/src/composables/useRealtimeUpdates.js:14-15 | a prefix with `/` appended gives the same socket root as the prefix |
| Realtime.ScheduleReconnect | frontend/src/composables/useRealtimeUpdates.js:19-25 | a handle in `reconnectTimer`, even of a cancelled timer, makes scheduling do nothing; otherwise one timer is armed and its handle kept |
| Realtime.ConnectNow | frontend/src/composables/useRealtimeUpdates.js:27-39 | not ready afterwards; a new socket unless creation throws, in which case a reconnect is scheduled |
| Realtime.Step | frontend/src/composables/useRealtimeUpdates.js:19-68 | open makes the client ready; close and error make it unready and schedule; a firing timer clears the handle and connects; unmount cancels the timer and keeps its handle |
| Realtime.StepHealthy | frontend/src/composables/useRealtimeUpdates.js:19-60 | every event keeps at most one timer, held by the handle, and readiness only with a socket |
| Realtime.RunHealthy | frontend/src/composables/useRealtimeUpdates.js:19-60 | no sequence of events ever arms two timers |
| Realtime.CloseAndErrorScheduleOnce | frontend/src/composables/useRealtimeUpdates.js:53-60 | an error followed by a close arms one timer, not two |
| Realtime.ReconnectAfterUnmount | frontend/src/composables/useRealtimeUpdates.js:53-68 | as written, with no reconnect pending at unmount, the close event after unmounting arms a timer whose firing opens a new socket |
| Realtime.StaleHandleAfterUnmount | frontend/src/composables/useRealtimeUpdates.js:19-68 | with a reconnect pending at unmount, the cancelled timer's handle stays, so no later close or error arms a timer and no socket is opened without a new `connect` |
| Realtime.StepStopped | frontend/src/composables/useRealtimeUpdates.js:63-68 | as intended: after unmounting every event is ignored; before, events act as written |
| Realtime.UnmountIsFinal | frontend/src/composables/useRealtimeUpdates.js:63-68 | with the guard, no event after unmounting arms a timer or opens a socket |
| Realtime.StoppedAgreesBeforeUnmount | frontend/src/composables/useRealtimeUpdates.js:19-60 | before unmounting, the guarded cycle is the original one |
| CurrentProfile.StartFetch | frontend/src/composables/useCurrentProfile.js:9-13 | no request while loading or when cached and not forced; otherwise a request with loading set and the error cleared |
| CurrentProfile.FetchSucceeded | frontend/src/composables/useCurrentProfile.js:15-23 | the data becomes the profile, loaded, not loading |
| CurrentProfile.FetchFailed | frontend/src/composables/useCurrentProfile.js:19-23 | the error is recorded, loading ends, profile and loaded unchanged |
| CurrentProfile.ClearProfile | frontend/src/composables/useCurrentProfile.js:31-35 | profile, loaded and error reset; loading untouched |
| CurrentProfile.IsTeam | frontend/src/composables/useCurrentProfile.js:27-29 | false without a profile or roles; otherwise exactly when a role has key TEAM |
| CurrentProfile.AnyTeam | frontend/src/composables/useCurrentProfile.js:28 | the front-to-back `some` scan is true exactly when a role has key TEAM |
| CurrentProfile.TransitionsConsistent | frontend/src/composables/useCurrentProfile.js:9-35 | no transition leaves the store loaded without a profile |
| CurrentProfile.CachedAfterSuccess | frontend/src/composables/useCurrentProfile.js:11-18 | after a success a plain fetch is served from the cache and a forced one asks again |
| CurrentProfile.FailedRefreshKeepsProfile | frontend/src/composables/useCurrentProfile.js:19-23 | a failed forced refresh keeps the profile loaded before |
| CurrentProfile.ClearForcesRequest | frontend/src/composables/useCurrentProfile.js:31-35 | after clearing, the next fetch asks the server unless one is in flight |
| CurrentProfile.ClientAgreesWithServer | frontend/src/composables/useCurrentProfile.js:27-29 | the client's `isTeam` and the server's `IsTeam` agree on the same roles |

## Left out

- Database access, `prefetch_related`, `save()` and the `transaction.atomic` block: the model maps a snapshot to new values, so atomicity and rollback do not arise.
- core/models.py and the migrations describe an older schema; entity fields follow what core/assignment.py and core/automation.py read.
- Assignment.AssignTaskForReview: no claim that a second call picks the same member. After the first call the task adds points to the picked member, so a second call may legitimately pick someone else. The model states set-add semantics only.
- A per-member points breakdown and a daily points report are not implemented in the source and are not modelled.
- Rebalance.KeyOrder: `date.max` becomes "no due date, after every date". A goal actually due on `date.max` would tie with undated goals in the source but sorts before them here.
- The `if not target_id` tests (core/assignment.py:58, 86) are dead code: ids are positive and the pool is non-empty on those paths.
- Sending e-mail, `log_activity`, the subjects, messages, the 200-character description cut and the `days` metadata are not modelled. E-mail becomes an outbox of recipient lists and the activity log a set of (event, task, due date) keys.
- `timezone.now()` and `timedelta`: "today" is an integer day and the window end is `today + days`.
- The command's printing of the summary to standard output is not modelled.
- Views.TaskQuery: the `project` parameter is an optional integer. Its conversion from text and the error an unparsable id raises are not modelled.
- Views.VisibleProjects, Views.VisibleRequests, Views.TaskQuery: results keep table order. The `order_by("-created_at")` sorting is the database's and is not modelled.
- Views.FindThread: `.first()` without an ordering is taken as the first thread in table order.
- Views.FreshId: database-assigned ids are modelled as one more than the largest existing id.
- `stats` also reports open requests, active contracts and due payments. Those counts are not modelled; only the role counts are.
- Views.Register: password hashing, the e-mail field and the ids in the response are not modelled.
- The rest of core/views.py is not modelled: the other view sets, `send`, and message creation.
- Serializers.UpdateRoles: copying the other validated fields to the instance is the framework's and is not modelled.
- Text.Strip: white space is the ASCII and Latin-1 part of Python's `str.isspace`. Other Unicode spaces are not stripped.
- Text.Upper: only ASCII letters are raised. Python's `str.upper` also raises other Unicode letters and can lengthen a string.
- Asynchronous transport, the JWT check, the API client's retry interceptor and the server-side realtime consumers are not modelled.
- Realtime.Step: the handling of incoming messages, console logging and the 2-second delay are not modelled. Events are taken to come from the socket currently held; the close event of a socket replaced by a later `connect` is not modelled.
- Realtime.BuildWsUrl: browser URL parsing and `localStorage` are replaced by protocol, host, path and token inputs.
- CurrentProfile.FetchFailed: the error is rethrown to the caller; the model records only the store.
- Router.RedirectsSettle: of the route table, only the records matched for the login page and the dashboard are modelled. The catch-all redirect and the other pages are not.

## Findings

| source | as written | input that shows it | evidently intended | confidence | as-written member | corrected member |
|---|---|---|---|---|---|---|
| frontend/src/composables/useRealtimeUpdates.js:63-68 | the unmount hook clears the timer and closes the socket but leaves the socket's `onclose` handler attached | a client with an open socket and no reconnect pending is unmounted; the close event that `close()` triggers arms a reconnect timer, and its firing opens a new socket for the unmounted component | after unmounting no reconnect is scheduled and no socket is opened | medium, not executed | Realtime.ReconnectAfterUnmount | Realtime.StepStopped |
