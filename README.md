# mestring — a verified model of its rules

Mestring is the Oslo school service in which teachers record goals and
observations of their students' mastery, grouped by Feide teaching and
basis groups, subjects and schools. This project models the rules at its
core and proves what they promise:

- the REST views' query-parameter handling and the filters each listing
  applies (`RequestParams`, `Listings`, `TaskListing`, with the field
  spellings in `Lookups`), and the middleware that adds snake_case copies of
  camelCase query-parameter keys to each request (`CamelCase`);
- the row-level access policies: which goals, observations, groups, users
  and subjects a user may list and retrieve (`AccessBase`, `GoalPolicy`,
  `ObservationPolicy`, `GroupPolicy`, `UserPolicy`, `SubjectPolicy`). A
  retrieval is decided for a request, its query parameters and its clock,
  because the conditions read the target through the view's own queryset:
  the policy's scope, then the deleted filter, and for groups the validity
  window;
- the model helpers that the policies and views use: a user's groups by
  kind and validity window, group members, school short names and goal
  kinds (`Mastery`, `Validity`);
- the Feide import pipeline: paging through the groups API, fetching
  memberships, writing the fetched groups and members into the database,
  reading users from an Excel sheet (`FeideGroups`, `FeideMemberships`,
  `ImportHelpers`, `ImportUsers`, `ExcelImport`);
- the background-task runner with its retry back-off, and the cleaner
  bot's retention rules (`BackgroundTasks`, `CleanerBot`);
- the affiliation check run at sign-in (`Affiliations`);
- four frontend helpers: mastery value calculation, the query-string
  builder, the alert store with its expiry sweep, and the cookie jar
  (`MasteryHelpers`, `UrlString`, `Alerts`, `CookieJar`).

Most modules correspond to one source file. `backend/mastery/api/views.py`
is split into `RequestParams`, `Listings`, `TaskListing` and `Lookups`.
`Text` corresponds to no source file: it holds the string operations Python
and TypeScript provide (strip, lower, split, join, replace, slicing). The
database is a value (maps of rows keyed by id) wherever a function only
reads it. Where the source updates state step by step, the model is a class
whose methods are proved against specification functions. These are the
task queue (`BackgroundTasks.TaskQueue`), the user directory being imported
(`ImportUsers.Directory`), the cleaner bot's tables (`CleanerBot.Store`),
the alert store (`Alerts.AlertStore`) and a school's short name
(`Mastery.School`). The cookie jar reads `document.cookie` with a loop in a
method and builds the assigned string with a function. The clock, the network and the
spreadsheet enter as parameters or as sequences of responses.

## Model

| member | source | states |
|---|---|---|
| RequestParams.GetRequestParam | backend/mastery/api/views.py:16-33 | the second component is true exactly when the key is present; the parsed value is truthy exactly when it is neither None nor False |
| RequestParams.SpellsLower | backend/mastery/api/views.py:29-32 | the letter-by-letter test agrees with `value.lower() == 'false'` / `'true'` in both directions |
| RequestParams.GetRequestParamSpec | backend/mastery/api/views.py:16-33 | None exactly for a missing, empty or blank value; False / True exactly when the stripped value is "false" / "true" in any letter case; any other value comes back stripped and non-empty |
| RequestParams.ParseIgnoresPadding | backend/mastery/api/views.py:26 | two values with the same stripped form parse the same |
| RequestParams.WordRoundTrip | backend/mastery/api/views.py:26-33 | a returned string, given back as a parameter, parses to itself |
| RequestParams.DeletedSelectionSpec | backend/mastery/api/views.py:36-45 | only deleted rows exactly for a stripped "only", all rows exactly for a stripped "include" (both case-sensitive) |
| RequestParams.DeletedDefault | backend/mastery/api/views.py:44-45 | without "only" or "include" (absent, or e.g. "exclude") the filter keeps exactly the rows whose deleted_at is null |
| RequestParams.ValiditySelectionSpec | backend/mastery/api/views.py:48-56 | the outside-validity filter applies exactly when is_valid is present and blank or "false" in any case; otherwise the within filter |
| RequestParams.EnabledSelectionSpec | backend/mastery/api/views.py:423-433 | disabled groups only exactly for "exclude"; enabled only exactly when absent, blank, false or "only"; no filter without warning exactly for "include" |
| RequestParams.ReadAgrees | backend/mastery/api/views.py:16-33 | the query read once gives, for every parameter name, the value, presence flag and comma list that get_request_param gives |
| RequestParams.StripNonEmptyKeeps | backend/mastery/api/views.py:414 | stripping adds no comma to an entry, and no non-empty entry is dropped |
| RequestParams.CommaListEntries | backend/mastery/api/views.py:414 | no entry of a comma list holds a comma |
| RequestParams.CommaListJoin | backend/mastery/api/views.py:414-418 | comma-free entries joined with "," read back as the non-empty entries, stripped, in order; all of them when none is empty |
| RequestParams.BlankEntryKept | backend/mastery/api/views.py:418 | an entry of blanks only survives (`if id` tests before stripping), as an empty id |
| Listings.ListUsers | backend/mastery/api/views.py:137-168 | non-list actions: the deleted filter only; a list without a truthy school is a missing-parameter error; roles or groups of "true" fail on `.split`; otherwise the school filter, the roles filter exactly when role names remain, the group filter exactly when ids remain, and distinct; no filter other than these four is ever applied |
| Listings.ListUserSchools | backend/mastery/api/views.py:215-235 | school required for a list; then school, plus user and role filters exactly when those parameters are truthy; distinct; no filter beyond deleted, school, user and role is ever applied |
| Listings.ListUserGroups | backend/mastery/api/views.py:284-307 | school required for a list; then the group's school, plus user, group and role filters exactly when truthy; distinct; no filter beyond deleted, the group's school, user, group and role is ever applied |
| Listings.ListGroups | backend/mastery/api/views.py:384-437 | deleted and validity filters always; school required for a list; type (lower-cased), user, subject filters exactly when truthy; roles and ids filters exactly when entries remain; is_enabled=True exactly for the enabled-only selection and False exactly for "exclude"; a list result is not distinct; no filter outside these ten is ever applied |
| Listings.GroupScalarFilters | backend/mastery/api/views.py:406-411 | the type, user and subject filters, each present exactly when its parameter is truthy |
| Listings.GroupListFilters | backend/mastery/api/views.py:412-433 | the roles, ids and enabled filters, each present exactly under its condition |
| Listings.ListSubjects | backend/mastery/api/views.py:479-518 | school required for a list; students of "true" fail; the students filter exactly when ids remain; owned_by_school = school exactly when is_owned_by_school is truthy, = null exactly when present and falsy; only a list is distinct; no filter beyond deleted, school, students and the two owned_by_school filters is ever applied |
| Listings.ListGoals | backend/mastery/api/views.py:563-598 | a list needs one of group, student, subject (missing-parameter otherwise) and refuses group with subject; each filter is present exactly when its parameter is truthy, never group and subject together; no filter beyond deleted, group, student and subject is ever applied |
| Listings.ListMasterySchemas | backend/mastery/api/views.py:643-649 | no filter unless a list with a truthy school, then exactly the school filter |
| Listings.ListObservations | backend/mastery/api/views.py:691-715 | a list needs one of student, observer, goal; each filter present exactly when its parameter is truthy; no filter beyond deleted, student, observer and goal is ever applied |
| TaskListing.FilterTasks | backend/mastery/api/views.py:743 | a filter on a field DataMaintenanceTask lacks is a server error; one on a column adds exactly that filter |
| TaskListing.ListTasksAsWritten | backend/mastery/api/views.py:736-746 | as written, the list fails exactly when the status parameter is truthy; otherwise no filter |
| TaskListing.StatusFilterFails | backend/mastery/api/views.py:740-743 | a query `status=<v>` with v a non-blank, non-boolean word makes the status parameter truthy, so the listing as written fails |
| TaskListing.ListTasks | backend/mastery/api/views.py:736-746 | with the filter on `status`: no filter unless a list with a truthy status, then exactly the status filter |
| CamelCase.Underscored | backend/mastery/middleware.py:10 | one "_" is added per capital letter |
| CamelCase.SnakeHead | backend/mastery/middleware.py:10 | a capital becomes "_" and its lower-case form; every other character is kept |
| CamelCase.SnakeHasNoUpper | backend/mastery/middleware.py:10 | a converted key has no capital letters |
| CamelCase.SnakeFixed | backend/mastery/middleware.py:10-11 | a key converts to itself exactly when it has no capital letter |
| CamelCase.SnakeIdempotent | backend/mastery/middleware.py:10-11 | converting a converted key changes nothing |
| CamelCase.ProcessRequest | backend/mastery/middleware.py:5-14 | the loop over the keys builds the specification's query: the copy plus each changed key's snake spelling |
| CamelCase.KeysAfter | backend/mastery/middleware.py:8-12 | a key is in the new query exactly when it was in the old one or is the changed snake spelling of a visited key |
| CamelCase.ValueKept | backend/mastery/middleware.py:8-12 | an original key that no visited key converts to keeps its value |
| CamelCase.SnakeValue | backend/mastery/middleware.py:11-12 | the snake spelling of a visited key carries that key's value when no later key converts to it too |
| CamelCase.LowerCaseUnchanged | backend/mastery/middleware.py:11 | a query whose keys have no capitals passes through unchanged |
| Validity.Complement | backend/mastery/querysets.py:7-29 | for every group and moment exactly one of within and outside holds |
| Validity.UnboundedAlwaysValid | backend/mastery/querysets.py:15-17 | a group with both bounds null is within its window at every moment |
| Validity.BoundsInclusive | backend/mastery/querysets.py:15-17 | both ends belong to the window, and the moments just outside do not |
| Validity.WindowConvex | backend/mastery/querysets.py:13-18 | valid at two moments means valid at every moment in between |
| Validity.Within | backend/mastery/querysets.py:7-18 | defines within_validity_period: a null bound leaves its side open and both ends are inclusive; BoundsInclusive, UnboundedAlwaysValid and WindowConvex state its properties |
| Validity.Outside | backend/mastery/querysets.py:20-29 | defines outside_validity_period: a null bound never makes a group invalid; Complement states that it is exactly the negation of Within |
| BackgroundTasks.Oldest | backend/mastery/data_import/run_background_tasks.py:20-28 | the chosen row is pending, unclaimed and due, and no claimable row was created earlier (the first of equals); None exactly when no row is claimable |
| BackgroundTasks.NextExecutionTime | backend/mastery/data_import/run_background_tasks.py:44-46 | the retry comes RETRY_BACKOFF[attempts-1] seconds later, between 60 and 600; the index is in range whenever attempts is between 1 and 3 |
| BackgroundTasks.AppendErrorToResult | backend/mastery/data_import/run_background_tasks.py:49-54 | exactly one error is appended, with "unexpected-error" and the message cut at 1000 characters; the earlier errors and all other keys are kept; a missing result counts as {} |
| BackgroundTasks.DoWork | backend/mastery/data_import/run_background_tasks.py:57-88 | a missing or empty org_number, or an unknown job name, raises before yielding; otherwise the named job's chunks |
| BackgroundTasks.Consumed | backend/mastery/data_import/run_background_tasks.py:104-107 | run() consumes the chunks up to and including the first one that is done, all of them if none is |
| BackgroundTasks.TaskQueue.constructor | backend/mastery/data_import/run_background_tasks.py:17-36 | a queue holding the given task rows |
| BackgroundTasks.TaskQueue.ClaimNextTask | backend/mastery/data_import/run_background_tasks.py:17-36 | picks the row Oldest names; that row becomes running with started_at = last_heartbeat_at = now, the handler name and one more attempt; nothing else changes, and nothing at all when no row is due |
| BackgroundTasks.TaskQueue.ReportProgress | backend/mastery/data_import/run_background_tasks.py:104-107 | the chunk loop stores each chunk's result with a heartbeat, stops after the first chunk that is done, and reports how many chunks it consumed and whether one was done |
| BackgroundTasks.TaskQueue.HandleFailure | backend/mastery/data_import/run_background_tasks.py:112-136 | the except branch: the error appended; with attempts at most 3 pending, unclaimed, failed_at cleared and due after the back-off; otherwise failed with failed_at set and no earliest_run_at |
| BackgroundTasks.TaskQueue.Run | backend/mastery/data_import/run_background_tasks.py:99-138 | with a clock that does not run backwards (now <= later): returns the claimed row (None when nothing is due, the queue unchanged); the claimed row ends as the specification's Outcome of claiming it and running its job; no other row changes |
| BackgroundTasks.ConsumedIsFirstDone | backend/mastery/data_import/run_background_tasks.py:104-107 | the loop's stopping point is Consumed, and the loop saw a done chunk exactly when the job yields one |
| BackgroundTasks.SuccessFinishes | backend/mastery/data_import/run_background_tasks.py:108-111 | a job that did not raise leaves the task finished with finished_at set and the last consumed chunk's result, attempts and handler unchanged |
| BackgroundTasks.FailureSchedulesRetry | backend/mastery/data_import/run_background_tasks.py:119-126 | a raise with attempts at most 3 leaves the task pending, unclaimed, with failed_at cleared, due exactly from later + RETRY_BACKOFF[attempts-1], with an errors list |
| BackgroundTasks.FailureExhaustsRetries | backend/mastery/data_import/run_background_tasks.py:127-131 | a raise after the fourth attempt leaves the task failed for good: failed_at set, no earliest_run_at, handler kept, never claimable |
| BackgroundTasks.AttemptsBounded | backend/mastery/data_import/run_background_tasks.py:33-121 | a task that raised is due again only if its claim was attempt 1, 2 or 3, and each claim adds exactly one attempt |
| BackgroundTasks.BadTaskRaises | backend/mastery/data_import/run_background_tasks.py:72-88 | a task without org_number or with an unknown job raises having consumed no chunk |
| BackgroundTasks.NotDueNotClaimed | backend/mastery/data_import/run_background_tasks.py:23 | a task whose earliest_run_at is later than now, or null, is not claimed |
| BackgroundTasks.TimestampsOrdered | backend/mastery/data_import/run_background_tasks.py:17-131 | with now <= later, a claimed and run task has started_at = now <= last_heartbeat_at <= later, finished_at = later when it finished, and failed_at = later when it failed for good |
| BackgroundTasks.Claimed | backend/mastery/data_import/run_background_tasks.py:29-33 | defines the claimed row: running, started_at and last_heartbeat_at at now, the handler name, one more attempt; ClaimNextTask and TimestampsOrdered state its effect |
| BackgroundTasks.Retry | backend/mastery/data_import/run_background_tasks.py:112-136 | defines the except branch; FailureSchedulesRetry and FailureExhaustsRetries state its two outcomes |
| BackgroundTasks.Outcome | backend/mastery/data_import/run_background_tasks.py:99-138 | defines the claimed task at the end of run(); SuccessFinishes, FailureSchedulesRetry, FailureExhaustsRetries and TimestampsOrdered state its properties |
| CleanerBot.Store.constructor | backend/mastery/data_import/cleaner_bot.py:19-56 | a store holding the given tables |
| CleanerBot.Store.Load | backend/mastery/data_import/cleaner_bot.py:67-126 | one bulk update: the tables become the given ones |
| CleanerBot.Store.DeleteGroups | backend/mastery/data_import/cleaner_bot.py:130-138 | hard_delete_groups: the store and the count become HardDeleteGroups of the old store; a RestrictedError changes nothing |
| CleanerBot.Store.DeleteUsers | backend/mastery/data_import/cleaner_bot.py:141-149 | hard_delete_users: the store and the count become HardDeleteUsers of the old store; a RestrictedError changes nothing |
| CleanerBot.Store.DeleteObservations | backend/mastery/data_import/cleaner_bot.py:152-159 | hard_delete_observations: the store and the count become HardDeleteObservations of the old store |
| CleanerBot.Store.DeleteGoals | backend/mastery/data_import/cleaner_bot.py:162-170 | hard_delete_goals: the store and the count become HardDeleteGoals of the old store; a RestrictedError changes nothing |
| CleanerBot.Store.DeleteMemberships | backend/mastery/data_import/cleaner_bot.py:173-181 | hard_delete_user_groups: the store and the count become HardDeleteMemberships of the old store |
| CleanerBot.Store.SoftDelete | backend/mastery/data_import/cleaner_bot.py:30-36 | the five soft deletes in source order, each counting then updating, leave the store and counts of SoftPass |
| CleanerBot.Store.HardDelete | backend/mastery/data_import/cleaner_bot.py:39-45 | the five hard deletes in source order; the first RestrictedError ends the pass keeping the earlier steps' deletions |
| CleanerBot.Store.UpdateDataIntegrity | backend/mastery/data_import/cleaner_bot.py:19-56 | the store and outcome become IntegrityOutcome: soft pass then hard pass with the retention cutoffs from now |
| CleanerBot.SoftDeleteGroupsCountsItsUpdates | backend/mastery/data_import/cleaner_bot.py:59-68 | a group is updated exactly when it is not deleted, maintained before the threshold and within validity; updated rows get deleted_at = now; the count is the number updated; nothing else changes |
| CleanerBot.SoftDeleteUsersCountsItsUpdates | backend/mastery/data_import/cleaner_bot.py:71-84 | a user is updated exactly when not deleted, not superadmin, maintained before the threshold and without a non-deleted membership; stamped with now; the count is the number updated; nothing else changes |
| CleanerBot.SoftDeleteObservationsCountsItsUpdates | backend/mastery/data_import/cleaner_bot.py:87-95 | an observation is updated exactly when not deleted and its student is soft-deleted; stamped with now; nothing else changes |
| CleanerBot.SoftDeleteGoalsCountsItsUpdates | backend/mastery/data_import/cleaner_bot.py:98-110 | a goal is updated exactly when not deleted and personal with a deleted student or a group goal of a deleted group; stamped with now; nothing else changes |
| CleanerBot.SoftDeleteMembershipsCountsItsUpdates | backend/mastery/data_import/cleaner_bot.py:113-127 | a membership is updated exactly when not deleted and either unmaintained in a group within validity or in a soft-deleted group; stamped with now; nothing else changes |
| CleanerBot.InvalidGroupKept | backend/mastery/data_import/cleaner_bot.py:61-65 | a group outside its validity window is never soft-deleted, however long unmaintained |
| CleanerBot.SoftDeleteGroupsIdempotent | backend/mastery/data_import/cleaner_bot.py:62-67 | a second groups step at the same time finds nothing and keeps the first step's deleted_at |
| CleanerBot.SoftPassKeepsDeleted | backend/mastery/data_import/cleaner_bot.py:30-36 | the soft pass keeps every row, and rows already soft-deleted keep their deleted_at |
| CleanerBot.SoftPassPropagates | backend/mastery/data_import/cleaner_bot.py:87-127 | after one soft pass, every observation and personal goal of a deleted student, and every goal and membership of a deleted group, is soft-deleted |
| CleanerBot.SameLinksKeepConsistency | backend/mastery/data_import/cleaner_bot.py:62-126 | tables with the same rows and foreign keys as consistent tables are consistent |
| CleanerBot.SoftDeleteGroupsKeepsLinks | backend/mastery/data_import/cleaner_bot.py:67 | the groups step changes no row's links |
| CleanerBot.SoftDeleteUsersKeepsLinks | backend/mastery/data_import/cleaner_bot.py:83 | the users step changes no row's links |
| CleanerBot.SoftDeleteObservationsKeepsLinks | backend/mastery/data_import/cleaner_bot.py:94 | the observations step changes no row's links |
| CleanerBot.SoftDeleteGoalsKeepsLinks | backend/mastery/data_import/cleaner_bot.py:109 | the goals step changes no row's links |
| CleanerBot.SoftDeleteMembershipsKeepsLinks | backend/mastery/data_import/cleaner_bot.py:126 | the memberships step changes no row's links |
| CleanerBot.SoftPassKeepsConsistency | backend/mastery/data_import/cleaner_bot.py:30-36 | the soft pass keeps every foreign key pointing at an existing row |
| CleanerBot.HardDeleteGroupsKeepsConsistency | backend/mastery/data_import/cleaner_bot.py:130-138 | deleting groups, with memberships cascading and goals restricting, leaves no dangling reference |
| CleanerBot.HardDeleteUsersKeepsConsistency | backend/mastery/data_import/cleaner_bot.py:141-149 | deleting users, with memberships and observations cascading, observers nulled and goals restricting, leaves no dangling reference |
| CleanerBot.HardDeleteLeavesKeepConsistency | backend/mastery/data_import/cleaner_bot.py:152-181 | deleting observations or memberships leaves no dangling reference |
| CleanerBot.HardDeleteGoalsKeepsConsistency | backend/mastery/data_import/cleaner_bot.py:162-170 | deleting goals, restricted by observations and by following goals, leaves no dangling reference |
| CleanerBot.HardPassKeepsConsistency | backend/mastery/data_import/cleaner_bot.py:39-45 | the hard pass, whether it completes or stops at a RestrictedError, keeps the tables consistent |
| CleanerBot.IntegrityKeepsConsistency | backend/mastery/data_import/cleaner_bot.py:19-56 | update_data_integrity keeps every foreign key pointing at an existing row |
| CleanerBot.ReportedLeavesNothingOverdue | backend/mastery/data_import/cleaner_bot.py:39-56 | when the pass reports, no row soft-deleted before its table's cutoff is left |
| CleanerBot.UserLagsOnePass | backend/mastery/data_import/cleaner_bot.py:33-36 | users are soft-deleted before memberships, so a user whose last membership expires in one pass is soft-deleted only by the next |
| CleanerBot.SoftDeleteGroups | backend/mastery/data_import/cleaner_bot.py:59-68 | defines the groups step; SoftDeleteGroupsCountsItsUpdates states which rows it stamps and that its count is theirs |
| CleanerBot.SoftDeleteUsers | backend/mastery/data_import/cleaner_bot.py:71-84 | defines the users step; SoftDeleteUsersCountsItsUpdates states which rows it stamps and that its count is theirs |
| CleanerBot.SoftDeleteObservations | backend/mastery/data_import/cleaner_bot.py:87-95 | defines the observations step; SoftDeleteObservationsCountsItsUpdates states which rows it stamps and that its count is theirs |
| CleanerBot.SoftDeleteGoals | backend/mastery/data_import/cleaner_bot.py:98-110 | defines the goals step; SoftDeleteGoalsCountsItsUpdates states which rows it stamps and that its count is theirs |
| CleanerBot.SoftDeleteMemberships | backend/mastery/data_import/cleaner_bot.py:113-127 | defines the memberships step; SoftDeleteMembershipsCountsItsUpdates states which rows it stamps and that its count is theirs |
| CleanerBot.SoftPass | backend/mastery/data_import/cleaner_bot.py:30-36 | defines the five soft steps in source order; SoftPassKeepsDeleted, SoftPassPropagates and SoftPassKeepsConsistency state its properties |
| CleanerBot.HardDeleteGroups | backend/mastery/data_import/cleaner_bot.py:130-138 | defines hard_delete_groups with its cascade and RESTRICT rule; HardDeleteGroupsKeepsConsistency states what it keeps |
| CleanerBot.HardDeleteUsers | backend/mastery/data_import/cleaner_bot.py:141-149 | defines hard_delete_users with its cascades, nulled observers and RESTRICT rule; HardDeleteUsersKeepsConsistency states what it keeps |
| CleanerBot.HardDeleteObservations | backend/mastery/data_import/cleaner_bot.py:152-159 | defines hard_delete_observations; HardDeleteLeavesKeepConsistency states what it keeps |
| CleanerBot.HardDeleteGoals | backend/mastery/data_import/cleaner_bot.py:162-170 | defines hard_delete_goals with its RESTRICT rules; HardDeleteGoalsKeepsConsistency states what it keeps |
| CleanerBot.HardDeleteMemberships | backend/mastery/data_import/cleaner_bot.py:173-181 | defines hard_delete_user_groups; HardDeleteLeavesKeepConsistency states what it keeps |
| CleanerBot.HardPass | backend/mastery/data_import/cleaner_bot.py:39-45 | defines the five hard deletes in source order, stopping at the first RestrictedError; HardPassKeepsConsistency and ReportedLeavesNothingOverdue state its properties |
| FeideGroups.SubjectOf | backend/mastery/data_import/feide_api.py:51-58 | a subject entry is made only from a grep object whose "code" is a non-empty string, and carries that code; the lookup raises exactly when the grep object is non-empty and lacks "code" or "displayName" |
| FeideGroups.ClassifyPage | backend/mastery/data_import/feide_api.py:37-60 | the loop over one page computes the page's lists, or the KeyError of its first failing teaching group |
| FeideGroups.ClassifiedErrSticks | backend/mastery/data_import/feide_api.py:37-60 | once a prefix of the page raises, the whole page raises with that same error |
| FeideGroups.ClassifiedSelects | backend/mastery/data_import/feide_api.py:44-60 | owners, schools, teaching and basis lists hold exactly the groups of that kind, in page order (fc:org with a parent is a school, without one an owner; go groups "u" and "b"); there are never more subjects than teaching groups |
| FeideGroups.SelectPartitions | backend/mastery/data_import/feide_api.py:44-60 | every group of a page falls into exactly one of the four lists or is dropped |
| FeideGroups.ClassifiedFailsOnGrep | backend/mastery/data_import/feide_api.py:49-58 | a page fails to classify only because of the grep object of a teaching group |
| FeideGroups.NextUrlIsFirstNext | backend/mastery/data_import/feide_api.py:67-70 | the next url is that of the first link with rel "next"; there is none exactly when no link has rel "next" |
| FeideGroups.NextPage | backend/mastery/data_import/feide_api.py:62-70 | no "Link" header gives no next url; otherwise the loop stops at the first rel "next" link |
| FeideGroups.DedupSubjects | backend/mastery/data_import/feide_api.py:122-130 | the loop with its `seen` set computes the de-duplicated subject list |
| FeideGroups.DedupUnique | backend/mastery/data_import/feide_api.py:122-130 | no two kept subjects share a code |
| FeideGroups.DedupComplete | backend/mastery/data_import/feide_api.py:122-130 | every subject with a truthy code has its code among the kept ones |
| FeideGroups.DedupKeepsFirst | backend/mastery/data_import/feide_api.py:122-130 | each kept subject is the first entry with its code |
| FeideGroups.FetchGroupsPage | backend/mastery/data_import/feide_api.py:20-72 | one request gives the page's lists and next url, or the text of the exception raised by the request or the classification |
| FeideGroups.FetchGroupsFromFeide | backend/mastery/data_import/feide_api.py:75-154 | the paging loop (with a failed request adding no groups), the de-duplication and the final report compute the corrected fetch over the responses |
| FeideGroups.StepExtends | backend/mastery/data_import/feide_api.py:93-106 | one corrected iteration appends exactly its response's lists and counts one page |
| FeideGroups.PagesGatherSuccessfulPages | backend/mastery/data_import/feide_api.py:93-106 | the fetched lists are exactly the lists of the successful pages among the responses used, each once and in order |
| FeideGroups.PagesKeepReportsInStep | backend/mastery/data_import/feide_api.py:106-120 | the loop yields one progress report per ten pages, none of them final |
| FeideGroups.FetchReports | backend/mastery/data_import/feide_api.py:106-154 | a finished fetch yields one report per ten pages with is_done false, then one final report with is_done true whose subjects have distinct codes; the corrected loop never raises |
| FeideGroups.FlakyPages | backend/mastery/data_import/feide_api.py:20-72 | the three example responses give a teaching group with a next link, the request's error, and an empty last page |
| FeideGroups.FlakyRunCorrected | backend/mastery/data_import/feide_api.py:93-130 | over those responses the corrected loop fetches the teaching group once |
| FeideGroups.StaleResultRepeatsPage | backend/mastery/data_import/feide_api.py:93-104 | as written, the failed request between two pages re-adds the previous page's teaching group, so it is fetched twice |
| FeideGroups.FirstFailureRaises | backend/mastery/data_import/feide_api.py:93-100 | as written, a failure on the first request raises, since `result` is not yet bound |
| FeideGroups.NextUrl | backend/mastery/data_import/feide_api.py:67-70 | defines the scan for the first rel "next" link; NextUrlIsFirstNext states both directions |
| FeideGroups.StepAsWritten | backend/mastery/data_import/feide_api.py:93-106 | defines one loop iteration as written, re-adding the previous result after a failed request; StaleResultRepeatsPage and FirstFailureRaises exhibit it |
| FeideGroups.Step | backend/mastery/data_import/feide_api.py:93-106 | defines the corrected iteration, where a failed request adds no groups; StepExtends and PagesGatherSuccessfulPages state its properties |
| FeideGroups.FetchedFileCounted | backend/mastery/data_import/feide_api.py:128-137 | the groups file a finished fetch writes, counted as count_fetched_groups counts it (helpers.py:61-69), gives the number of basis plus teaching groups of the successful pages |
| ImportHelpers.CreateUserItem | backend/mastery/data_import/helpers.py:29-38 | the item exists exactly when "userid_sec" has a first entry containing ":", and "name" and "membership" are present; then feide_id is the second ":"-field of that entry, the email is that id with every "@feide." replaced by "@", and name and affiliation are copied |
| ImportHelpers.EmailOfPlainId | backend/mastery/data_import/helpers.py:32 | a Feide id without "@feide." is its own email |
| ImportHelpers.EmailDropsFeideRealm | backend/mastery/data_import/helpers.py:32 | "user@feide.realm" gives the email "user@realm" |
| ImportHelpers.EmailOf | backend/mastery/data_import/helpers.py:32 | defines the email rewrite, every "@feide." becoming "@"; EmailOfPlainId and EmailDropsFeideRealm state its effect |
| ImportHelpers.CountFetchedGroups | backend/mastery/data_import/helpers.py:61-69 | None exactly for a missing or empty groups file; otherwise the number of basis groups plus the number of teaching groups, a missing list counting 0 |
| ImportHelpers.CountFetchedMembershipsAndUsers | backend/mastery/data_import/helpers.py:72-95 | (None, None) for a missing file; otherwise the number of counted teacher and student objects with a "feide_id" and the number of distinct ids among them, never more users than memberships |
| ImportHelpers.CountMembers | backend/mastery/data_import/helpers.py:89-93 | the loop over one member list adds the ids of the objects with a "feide_id" to the set and their number to the count |
| ImportHelpers.ElementsBound | backend/mastery/data_import/helpers.py:95 | the number of distinct ids never exceeds the number of ids |
| FeideGroups.Dedup | backend/mastery/data_import/feide_api.py:122-130 | every kept subject is one of the input's, with a truthy code |
| FeideGroups.Select | backend/mastery/data_import/feide_api.py:44-60 | the groups of one kind are groups of the page, of that kind, and never more than the page |
| FeideGroups.PagesNeverCrash | backend/mastery/data_import/feide_api.py:93-106 | with a failed request adding no groups, the paging loop never raises |
| FeideMemberships.RoleOf | backend/mastery/data_import/feide_api.py:216-224 | a member is a student exactly when its lower-cased affiliation (or "" when it has none) is "student", faculty exactly when it is "faculty", and other otherwise |
| FeideMemberships.FetchMembershipsFromFeide | backend/mastery/data_import/feide_api.py:157-263 | the loops over the groups and their members compute the fetch: no groups file raises; a raising request, a 200 answer whose body is not JSON, or a member without a readable item raises; otherwise the reports and the memberships by group id |
| FeideMemberships.TallyMembers | backend/mastery/data_import/feide_api.py:211-225 | the loop over one group's members places each in the list of its role and updates the counters, or raises at the first unreadable member |
| FeideMemberships.TalliedKeepsCountsBounded | backend/mastery/data_import/feide_api.py:211-225 | teacher plus student memberships, and the distinct users, never outnumber all memberships |
| FeideMemberships.TalliedKeepsReports | backend/mastery/data_import/feide_api.py:211-225 | the member loop adds no errors and no reports |
| FeideMemberships.GroupStepKeepsBounded | backend/mastery/data_import/feide_api.py:188-242 | one group keeps the counters and every report bounded by the total |
| FeideMemberships.RunKeepsBounded | backend/mastery/data_import/feide_api.py:188-242 | the whole loop keeps the counters and every report bounded by the total |
| FeideMemberships.ReportsBounded | backend/mastery/data_import/feide_api.py:227-263 | every report of a finished fetch, the final one included, counts no more teacher and student memberships, and no more unique users, than memberships |
| FeideMemberships.TalliedOutcome | backend/mastery/data_import/feide_api.py:211-225 | the member loop raises exactly when some member is unreadable; otherwise it counts every member and writes no other group |
| FeideMemberships.FetchedGroupOutcome | backend/mastery/data_import/feide_api.py:198-225 | a group makes the loop raise exactly when its request raises, its 200 body is not JSON, or it has an unreadable member; a fetched group that does not raise adds no error, counts its members and gains its own lists |
| FeideMemberships.RunCrashes | backend/mastery/data_import/feide_api.py:188-225 | the loop raises exactly when some group's request raises, its 200 body is not JSON, or it has an unreadable member |
| FeideMemberships.SkippedGroupOutcome | backend/mastery/data_import/feide_api.py:188-203 | a group without an id, or whose request answers other than 200, appends its one error and leaves the lists and the total unchanged |
| FeideMemberships.RunErrors | backend/mastery/data_import/feide_api.py:189-204 | a loop that does not raise records a data error for each group without an id and a fetch error for each status other than 200, in order |
| FeideMemberships.RunKeys | backend/mastery/data_import/feide_api.py:206 | a loop that does not raise writes lists for exactly the groups with an id and status 200 |
| FeideMemberships.RunTotal | backend/mastery/data_import/feide_api.py:211-225 | a loop that does not raise counts every member of every fetched group |
| FeideMemberships.RunReportsInStep | backend/mastery/data_import/feide_api.py:227-242 | at most one progress report per ten groups, none of them final |
| FeideMemberships.FetchMembershipsOutcome | backend/mastery/data_import/feide_api.py:157-263 | the fetch fails exactly without a groups file or at a group whose request, 200 body or member raises; otherwise it reports at most once per ten groups with is_done false, then once with is_done true, with the errors, total and group ids the groups determine |
| ImportUsers.EnsureUser | backend/mastery/data_import/import_users.py:143-170 | fails exactly when the member has no "feide_id", changing nothing; otherwise the user with that id exists afterwards, is created exactly when none existed, is maintained at `now`, takes the member's name and email where given (keeping its own, or "" for a new user, otherwise); no other row changes |
| ImportUsers.EnsureMembership | backend/mastery/data_import/import_users.py:173-196 | the (user, group) membership exists afterwards with the given role and maintained at `now`; it is created exactly when it did not exist; no other membership, user or group changes |
| ImportUsers.CountProcessedCounted | backend/mastery/data_import/import_users.py:78-101 | counting a processed member keeps one non-final report per ten processed members |
| ImportUsers.ImportMemberCounts | backend/mastery/data_import/import_users.py:49-78 | one member keeps the counters in agreement: users created plus maintained is the number of distinct ids counted, memberships created plus maintained the number processed |
| ImportUsers.ImportMemberIds | backend/mastery/data_import/import_users.py:57-64 | one member adds its Feide id, if it has one, to the counted ids, and leaves the groups alone |
| ImportUsers.ImportMembersCounts | backend/mastery/data_import/import_users.py:48-101 | a role list keeps the counters in agreement and adds exactly its members' Feide ids to the counted ones |
| ImportUsers.ImportGroupsCounts | backend/mastery/data_import/import_users.py:38-101 | the groups loop keeps the counters in agreement and counts exactly the Feide ids of members of known groups |
| ImportUsers.ImportCountsEachUserOnce | backend/mastery/data_import/import_users.py:12-122 | a finished import counts each distinct Feide id of a member of a known group exactly once, as created or maintained; it gives one non-final report per ten processed members, then one final report with is_done true |
| ImportUsers.ImportRunsGroups | backend/mastery/data_import/import_users.py:12-122 | an existing file runs the groups loop from zero counters and then gives the final report |
| ImportUsers.ImportCountsFromStart | backend/mastery/data_import/import_users.py:27-36 | counting from the initial zero counters ends in the final reports over the distinct ids |
| ImportUsers.ImportCountsFrom | backend/mastery/data_import/import_users.py:38-122 | from agreeing counters with no id counted yet, the final reports count the distinct ids of members of known groups |
| ImportUsers.MissingGroupSkipped | backend/mastery/data_import/import_users.py:39-43 | a group unknown to the database appends one missing-group error with its id and changes neither the database nor any counter |
| ImportUsers.UserFailureSkipsMembership | backend/mastery/data_import/import_users.py:49-55 | a member without a Feide id adds one ensure-user-failed error and one failed user, and no membership and no processed member |
| ImportUsers.ImportMembersGrows | backend/mastery/data_import/import_users.py:48-76 | a role list removes no user or membership, and each of its members with a Feide id ends up a user with a membership of the group |
| ImportUsers.ImportGroupsGrows | backend/mastery/data_import/import_users.py:38-76 | the groups loop removes no user or membership, and each member with a Feide id of a known group ends up a user with a membership of that group |
| ImportUsers.ImportedMembersBelong | backend/mastery/data_import/import_users.py:12-122 | after the import every member with a Feide id of a known group is a user with a membership of that group; no user or membership is removed and the groups are untouched |
| ImportUsers.CountUserSplits | backend/mastery/data_import/import_users.py:57-64 | counting a user whose created flag says whether it is new to the database adds its id, and keeps users created equal to the counted ids new to the database and maintained equal to those already there |
| ImportUsers.ImportMemberSplits | backend/mastery/data_import/import_users.py:49-76 | one member keeps the database's users equal to those before the import plus the counted ids, with created and maintained split as above |
| ImportUsers.ImportMembersSplits | backend/mastery/data_import/import_users.py:46-76 | a role list keeps that split |
| ImportUsers.ImportGroupsSplits | backend/mastery/data_import/import_users.py:38-76 | the groups loop keeps that split |
| ImportUsers.FreshImportCreatesEveryUser | backend/mastery/data_import/import_users.py:12-122 | into a database with no users, the final report counts no user maintained and one user created per distinct Feide id of a member of a known group |
| ImportUsers.Directory.constructor | backend/mastery/data_import/import_users.py:12-24 | the directory starts as the given database rows |
| ImportUsers.Directory.EnsureUserExists | backend/mastery/data_import/import_users.py:143-170 | the update in place gives the rows and outcome of ensure_user_exists |
| ImportUsers.Directory.EnsureMembershipExists | backend/mastery/data_import/import_users.py:173-196 | the update in place gives the rows and the created flag of ensure_membership_exists |
| ImportUsers.Directory.ImportOneMember | backend/mastery/data_import/import_users.py:48-101 | one member in place: the rows and counters of the specification |
| ImportUsers.Directory.ImportRoleMembers | backend/mastery/data_import/import_users.py:46-101 | the loop over one role list, in place, gives the rows and counters of the specification |
| ImportUsers.Directory.ImportMembershipsFromFile | backend/mastery/data_import/import_users.py:12-122 | a missing file raises and changes nothing; otherwise the loop over the groups, in place, gives the rows and reports of the specification |
| ExcelImport.Normalised | backend/mastery/data_import/import_from_excel.py:128-129 | a cell is stored as None exactly when it is None or ""; every other cell is stored unchanged |
| ExcelImport.ObjectsFromSheet | backend/mastery/data_import/import_from_excel.py:120-136 | the nested loops compute the sheet's records, or the IndexError of an empty sheet or of the first row longer than the header |
| ExcelImport.RowRecord | backend/mastery/data_import/import_from_excel.py:124-133 | the loop over one row's cells computes that row's record, or raises at its first cell past the header |
| ExcelImport.RecordsErrSticks | backend/mastery/data_import/import_from_excel.py:123-135 | once a row raises, the later rows change nothing |
| ExcelImport.RecordOfWellFormed | backend/mastery/data_import/import_from_excel.py:125-133 | a record holds only column names that are in the header and in the field names, and never the cell "" |
| ExcelImport.RecordOfFails | backend/mastery/data_import/import_from_excel.py:125-126 | a row raises exactly when it has more cells than the header, and then with IndexError |
| ExcelImport.RecordOfKeepsCells | backend/mastery/data_import/import_from_excel.py:125-130 | the cell of every kept column is in the record, normalised, unless a later column of the same name overwrites it |
| ExcelImport.RecordsShape | backend/mastery/data_import/import_from_excel.py:123-136 | the rows raise exactly when one is longer than the header; otherwise at most one record per row, none empty, each well formed |
| ExcelImport.ObjectsOfShape | backend/mastery/data_import/import_from_excel.py:120-136 | a sheet raises exactly when it is empty or a row is longer than its header row; otherwise at most one record per row after the header, none empty, each well formed |
| ExcelImport.RoleOfCell | backend/mastery/data_import/import_from_excel.py:205 | a member is a teacher exactly when its "role" cell is the text "teacher", and a student otherwise |
| ExcelImport.MemberEmail | backend/mastery/data_import/import_from_excel.py:200 | an email is derived exactly when the record has a "user_feide_id" text cell that contains ":"; every other record raises |
| ExcelImport.MemberEmailAgreesWithFeide | backend/mastery/data_import/import_from_excel.py:200 | a spreadsheet member gets the same email as a Feide member with the same id (backend/mastery/data_import/helpers.py:31-32) |
| Mastery.GroupsOfIff | backend/mastery/models.py:128-150 | a group is among the user's groups exactly when the user has a membership of it; the teacher and student groups are among them |
| Mastery.GoalKinds | backend/mastery/models.py:287-300 | no goal is both personal and a group goal; either kind meets the goal_group_or_student constraint, and the constraint also admits a goal with both a group and a student |
| Mastery.School.constructor | backend/mastery/models.py:29-36 | a school starts with the given short name and no save |
| Mastery.School.EnsureShortName | backend/mastery/models.py:41-45 | afterwards the short name is the given one; the row is saved once exactly when the name changed |
| Mastery.GetMembers | backend/mastery/models.py:195-211 | a user is returned exactly when they have a membership of the group whose role fits the filter (any role, a role name, or a Role object) |
| Mastery.GetMembersFilters | backend/mastery/models.py:195-211 | without a role every member is returned; filtering by a Role object returns a subset of filtering by its name, which returns a subset of all members; the two filters agree when no other stored role has that name |
| Mastery.TeacherGroups | backend/mastery/models.py:147-150 | defines teacher_groups: the groups where the user has a membership with the teacher role; GroupsOfIff places them among the user's groups |
| Mastery.StudentGroups | backend/mastery/models.py:142-145 | defines student_groups: the groups where the user has a membership with the student role; GroupsOfIff places them among the user's groups |
| Mastery.SchoolsOf | backend/mastery/models.py:136-140 | defines get_schools: the schools of the user's groups together with those of the user's UserSchool rows; UserPolicy.TeacherAtMySchoolListed uses it |
| Mastery.IsPersonal | backend/mastery/models.py:293-295 | defines is_personal: no group and a student; GoalKinds states it excludes is_group |
| Mastery.IsGroup | backend/mastery/models.py:297-299 | defines is_group: a group and no student; GoalKinds states it excludes is_personal |
| Mastery.IsFeideSynchronized | backend/mastery/models.py:104-107 | defines is_feide_synchronized: no owning school; SubjectPolicy.AdminAtOwningSchoolIff states such a subject never passes the school-admin condition |
| AccessBase.UserGroupValuesIff | backend/mastery/access_policies/base.py:7-20 | a user matches a role name exactly when they hold that role in some group, and (when no role is called "superadmin") matches "superadmin" exactly when their superadmin flag is set |
| ObservationPolicy.Scope | backend/mastery/access_policies/observation.py:61-97 | the scope never adds an observation to the queryset it filters |
| ObservationPolicy.ScopeQueryset | backend/mastery/access_policies/observation.py:61-97 | collecting the Q clauses one by one, with the teacher clauses only when the user teaches some (basis) group, gives the scope |
| ObservationPolicy.FiltersMatch | backend/mastery/access_policies/observation.py:81-95 | the OR-ed clauses match an observation exactly when the user created or observed it, it is their own and visible to them, its goal is a group goal of a group they teach, or its student is in a basis group they teach |
| ObservationPolicy.ScopeIff | backend/mastery/access_policies/observation.py:61-97 | an observation is listed exactly when it is in the queryset and the user is a superadmin or the reference definition lets them see it |
| ObservationPolicy.ObjectQueryset | backend/mastery/api/views.py:691-693 | defines what get_object searches: the scope, then the deleted filter |
| ObservationPolicy.IsUserCreatorOrObserver | backend/mastery/access_policies/observation.py:102-109 | defines is_user_creator_or_observer on the object get_object finds; CreatorOrObserverMayRetrieve states its effect |
| ObservationPolicy.IsUserTarget | backend/mastery/access_policies/observation.py:111-118 | defines is_user_target on the object get_object finds |
| ObservationPolicy.IsObservationNotVisibleToStudent | backend/mastery/access_policies/observation.py:120-127 | defines is_observation_not_visible_to_student on the object get_object finds; InvisibleDeniedToStudent states its effect |
| ObservationPolicy.IsUserTeacherOfStudent | backend/mastery/access_policies/observation.py:129-152 | defines is_user_teacher_of_student: the goal is a group goal of a group the user teaches, or the student is in a basis group the user teaches; a missing goal or student row makes it false |
| ObservationPolicy.MayRetrieve | backend/mastery/access_policies/observation.py:15-59 | defines the retrieve decision of the statements; the lemmas below state its properties |
| ObservationPolicy.UnfoundRefused | backend/mastery/access_policies/observation.py:102-152 | an observation get_object does not find is refused to everyone but a superadmin |
| ObservationPolicy.InvisibleDeniedToStudent | backend/mastery/access_policies/observation.py:44-127 | a user holding the student role cannot retrieve an observation hidden from students that get_object finds, whatever else allows it; nor one it does not find, unless a superadmin |
| ObservationPolicy.CreatorOrObserverMayRetrieve | backend/mastery/access_policies/observation.py:28-109 | the creator or observer of an observation, unless they hold the student role and it is hidden, may retrieve it when the deleted filter keeps it, and, short of a superadmin, may not when the filter hides it |
| ObservationPolicy.RetrievableIsListed | backend/mastery/access_policies/observation.py:15-152 | every observation a user may retrieve is also in what they may list |
| GoalPolicy.Scope | backend/mastery/access_policies/goal.py:60-91 | the scope never adds a goal to the queryset it filters |
| GoalPolicy.ScopeQueryset | backend/mastery/access_policies/goal.py:60-88 | collecting the Q clauses one by one, the teacher clauses only for a user with teacher groups and the student clauses only for one with student groups, gives the scope |
| GoalPolicy.FiltersMatch | backend/mastery/access_policies/goal.py:72-86 | the OR-ed clauses match a goal exactly when the user created it, it is a goal of a group they teach, its student is in a group they teach, it is their own personal goal and they are in some student group, or it is a goal of a group they study in |
| GoalPolicy.ScopeIff | backend/mastery/access_policies/goal.py:60-91 | a goal is listed exactly when it is in the queryset and the user is a superadmin or the reference definition lets them see it |
| GoalPolicy.ObjectQueryset | backend/mastery/api/views.py:563-565 | defines what get_object searches for a single goal: the scope, then the deleted filter |
| GoalPolicy.IsUserCreator | backend/mastery/access_policies/goal.py:93-102 | defines is_user_creator on the scope alone; CreatorIff states it |
| GoalPolicy.IsGoalInGroupWhereUserIsTeacher | backend/mastery/access_policies/goal.py:104-116 | defines is_goal_in_group_where_user_is_teacher on the goal get_object finds |
| GoalPolicy.IsGoalStudentInGroupTaughtByUser | backend/mastery/access_policies/goal.py:118-132 | defines is_goal_student_in_group_taught_by_user on the goal get_object finds; a missing student row makes it false |
| GoalPolicy.IsUserOwner | backend/mastery/access_policies/goal.py:134-144 | defines is_user_owner on the scope alone; OwnerIff states it |
| GoalPolicy.IsGoalInGroupWhereUserIsStudent | backend/mastery/access_policies/goal.py:146-158 | defines is_goal_in_group_where_user_is_student on the goal get_object finds |
| GoalPolicy.MayRetrieve | backend/mastery/access_policies/goal.py:9-58 | defines the retrieve decision of the statements; RetrievableIsListed states its property |
| GoalPolicy.CreatorIff | backend/mastery/access_policies/goal.py:93-102 | is_user_creator holds exactly for an existing goal the user created: the scope check it makes never shuts out a creator |
| GoalPolicy.OwnerIff | backend/mastery/access_policies/goal.py:134-144 | for a user in some student group, is_user_owner holds exactly for an existing goal whose student they are |
| GoalPolicy.OwnGoalHiddenWithoutStudentGroup | backend/mastery/access_policies/goal.py:81-144 | a user in no group neither lists nor owns a personal goal of theirs that someone else created |
| GoalPolicy.RetrievableIsListed | backend/mastery/access_policies/goal.py:9-158 | every goal a user may retrieve is also in what they may list |
| GroupPolicy.Scope | backend/mastery/access_policies/group.py:27-39 | the scope never adds a group to the queryset it filters |
| GroupPolicy.ScopeIff | backend/mastery/access_policies/group.py:27-37 | a group is listed exactly when it is in the queryset and the user is a superadmin or holds a teacher or student membership of it; a user who is not a superadmin is a member of every group listed |
| GroupPolicy.MemberOfGroupIff | backend/mastery/access_policies/group.py:43-49 | is_member_of_group holds exactly when the group exists, passes the view's deleted and validity filters, and the user is a member of it and (short of a superadmin) holds a teacher or student membership of it; for a user who is not a superadmin, exactly the groups get_object finds |
| GroupPolicy.RetrievableIsListed | backend/mastery/access_policies/group.py:4-49 | every group a user may retrieve is also listed; a user who is not a superadmin may retrieve exactly the groups get_object finds |
| GroupPolicy.StaffGroupNotRetrievable | backend/mastery/access_policies/group.py:18-49 | a teacher who holds only a staff membership of another group neither lists nor may retrieve it |
| GroupPolicy.ObjectQueryset | backend/mastery/api/views.py:384-387 | defines what get_object searches: the scope, then the deleted and validity filters |
| GroupPolicy.IsMemberOfGroup | backend/mastery/access_policies/group.py:43-49 | defines is_member_of_group on the group get_object finds; MemberOfGroupIff states it |
| GroupPolicy.MayRetrieve | backend/mastery/access_policies/group.py:4-25 | defines the retrieve decision of the statements; RetrievableIsListed states it |
| UserPolicy.Scope | backend/mastery/access_policies/user.py:35-56 | the scope never adds a user to the queryset it filters |
| UserPolicy.TeacherAtMySchoolListed | backend/mastery/access_policies/user.py:43-93 | is_target_teacher_at_my_school holds exactly for a user get_object finds who has a teacher membership at a school of the requester (its early return for a requester without schools changes nothing), and every such existing user is listed |
| UserPolicy.SelfAndClassmatesListed | backend/mastery/access_policies/user.py:48-53 | a user always lists themselves, and lists every member of a group where they teach or study |
| UserPolicy.RetrievableIsListed | backend/mastery/access_policies/user.py:5-93 | every user a user may retrieve is also listed, and for a user who is not a superadmin is one get_object finds |
| UserPolicy.SelfRetrievable | backend/mastery/access_policies/user.py:20-67 | a user may retrieve their own row exactly when the deleted filter keeps it or they are a superadmin |
| UserPolicy.StaffPeerNotRetrievable | backend/mastery/access_policies/user.py:35-93 | a teacher who shares only a staff group with another user neither lists nor may retrieve that user |
| UserPolicy.ObjectQueryset | backend/mastery/api/views.py:137-140 | defines what get_object searches: the scope, then the deleted filter |
| UserPolicy.IsUserSelf | backend/mastery/access_policies/user.py:60-67 | defines is_user_self on the user get_object finds; SelfRetrievable states its effect |
| UserPolicy.IsInSameGroup | backend/mastery/access_policies/user.py:69-79 | defines is_in_same_group on the user get_object finds |
| UserPolicy.IsTargetTeacherAtMySchool | backend/mastery/access_policies/user.py:81-93 | defines is_target_teacher_at_my_school; TeacherAtMySchoolListed states it |
| UserPolicy.MayRetrieve | backend/mastery/access_policies/user.py:5-33 | defines the retrieve decision of the statements; RetrievableIsListed and SelfRetrievable state its properties |
| SubjectPolicy.Scope | backend/mastery/access_policies/subject.py:67-98 | the scope never adds a subject to the queryset it filters |
| SubjectPolicy.AdminAtOwningSchoolIff | backend/mastery/access_policies/subject.py:101-116 | is_admin_at_school_which_owns_subject holds exactly for an existing subject owned by a school where the user is admin (its scope check never shuts such a subject out); a Feide-synchronized subject never passes it |
| SubjectPolicy.BelongsToGroupIff | backend/mastery/access_policies/subject.py:119-131 | belongs_to_group holds exactly for an existing subject the deleted filter keeps and some group of the user uses; membership alone puts it in scope |
| SubjectPolicy.AccessibleIsListed | backend/mastery/access_policies/subject.py:9-186 | every subject a user may retrieve or change, with school roles counted as principals, is also listed |
| SubjectPolicy.SchoolAdminMayAccessOwnedSubject | backend/mastery/access_policies/subject.py:17-116 | with school roles counted as principals, a school admin may retrieve and change every subject their school owns, deleted or not, since that condition reads the scope alone |
| SubjectPolicy.SchoolAdminShutOutAsWritten | backend/mastery/access_policies/subject.py:17-23 | as written, an admin of the owning school holding no group role may neither retrieve nor update the subject |
| SubjectPolicy.SchoolAdminListsOwnedSubject | backend/mastery/access_policies/subject.py:91-94 | that same admin does list the subject |
| SubjectPolicy.ObjectQueryset | backend/mastery/api/views.py:479-481 | defines what get_object searches for a single subject: the scope, then the deleted filter |
| SubjectPolicy.IsAdminAtSchoolWhichOwnsSubject | backend/mastery/access_policies/subject.py:101-116 | defines is_admin_at_school_which_owns_subject on the scope alone; AdminAtOwningSchoolIff states it |
| SubjectPolicy.BelongsToGroup | backend/mastery/access_policies/subject.py:119-131 | defines belongs_to_group on the subject get_object finds; BelongsToGroupIff states it |
| SubjectPolicy.IsUserCreator | backend/mastery/access_policies/subject.py:134-145 | defines is_user_creator on the subject get_object finds |
| SubjectPolicy.IsUserOwner | backend/mastery/access_policies/subject.py:147-158 | defines is_user_owner: some goal on the subject get_object finds is the user's |
| SubjectPolicy.IsUserCreatorOfGoal | backend/mastery/access_policies/subject.py:160-171 | defines is_user_creator_of_goal: the user created some goal on the subject get_object finds |
| SubjectPolicy.IsGoalStudentInBasisGroupTaughtByUser | backend/mastery/access_policies/subject.py:173-186 | defines is_goal_student_in_basis_group_taught_by_user on the subject get_object finds |
| SubjectPolicy.MayAccess | backend/mastery/access_policies/subject.py:9-65 | defines the decision with school roles counted as principals; AccessibleIsListed and SchoolAdminMayAccessOwnedSubject state its properties |
| SubjectPolicy.MayAccessAsWritten | backend/mastery/access_policies/subject.py:9-65 | defines the decision as written, with group roles only; SchoolAdminShutOutAsWritten exhibits it |
| Affiliations.Spelled | backend/mastery/api/auth.py:70-75 | the three affiliation strings are "student@", "faculty@" and "staff@" followed by the organisation number and ".feide.osloskolen.no" |
| Affiliations.SchoolsWith | backend/mastery/api/auth.py:68-75 | a kind's list never holds more schools than there are |
| Affiliations.CheckAffiliations | backend/mastery/api/auth.py:62-63 | a missing or empty user id or affiliation list gives three empty lists |
| Affiliations.CheckAffiliationsLoop | backend/mastery/api/auth.py:57-76 | the loop over the schools gives the three lists of the specification |
| Affiliations.SchoolsWithIff | backend/mastery/api/auth.py:68-75 | a school is in a kind's list exactly when it is one of the schools and its affiliation of that kind is listed |
| Affiliations.SchoolsWithKeepsOrder | backend/mastery/api/auth.py:68-75 | the lists keep the order of the schools: the lookup over a concatenation is the concatenation of the lookups |
| Affiliations.CheckAffiliationsIff | backend/mastery/api/auth.py:57-76 | with a user id and affiliations, each list holds exactly the schools whose student, faculty or staff affiliation is listed |
| Affiliations.SchoolInEveryList | backend/mastery/api/auth.py:70-75 | the three checks are independent: one school can be in all three lists |
| MasteryHelpers.LeastMin | frontend/src/utils/masteryHelpers.ts:13 | Math.min over the levels' minValue is at or below every level's minimum and is one of them |
| MasteryHelpers.GreatestMax | frontend/src/utils/masteryHelpers.ts:14 | Math.max over the levels' maxValue is at or above every level's maximum and is one of them |
| MasteryHelpers.UseMasteryCalculations | frontend/src/utils/masteryHelpers.ts:9-32 | the levels are the config's (none when schema, config or list is absent) and hasLevels says whether there are any; without levels the range is 0 to 100 with default 50; with levels the range is the least minimum to the greatest maximum; the default is the midpoint; the step is inputIncrement, or 1 when it is absent or 0 |
| MasteryHelpers.CalculateSafeMasteryValue | frontend/src/utils/masteryHelpers.ts:18-21 | a present numeric value is returned as is; a missing or non-numeric one gives the default value |
| MasteryHelpers.DefaultWithinRange | frontend/src/utils/masteryHelpers.ts:13-21 | with levels whose minimum is at or below their maximum the range is not empty, and the default value, and so every fallback, lies inside it |
| MasteryHelpers.TwoLevelsExample | frontend/src/utils/masteryHelpers.ts:13-16 | levels 0-40 and 40-100 with step 5 give the range 0 to 100, default 50 and step 5 |
| UrlString.Prefix | frontend/src/utils/functions.ts:2 | the prefix ends in "?", is the path followed by "?" for a non-empty path, and is "?" alone otherwise |
| UrlString.Pairs | frontend/src/utils/functions.ts:5-6 | there is one "key=value" entry per parameter |
| UrlString.UrlStringFrom | frontend/src/utils/functions.ts:1-9 | the result starts with the prefix, and is the prefix alone without parameters |
| UrlString.JoinLength | frontend/src/utils/functions.ts:5-7 | the joined query is every key and value, one "=" per entry and one "&" between entries |
| UrlString.UrlLength | frontend/src/utils/functions.ts:1-9 | nothing is escaped or dropped: the length is that of the prefix, every key and value, each "=" and each "&" |
| UrlString.UrlRoundTrip | frontend/src/utils/functions.ts:1-9 | when no key or value holds "&" or "=", the query after the prefix splits at "&" into the entries and each entry at "=" into its key and value, in order |
| UrlString.PairsShape | frontend/src/utils/functions.ts:6 | each entry is the key, "=", and the value; with plain keys and values no entry holds "&" |
| Alerts.WithoutId | frontend/src/stores/alerts.ts:28 | an alert survives the removal exactly when it was there and its id differs; the list never grows |
| Alerts.Flushed | frontend/src/stores/alerts.ts:34-36 | an alert survives the flush exactly when it was there and is persistent or younger than the time to live; the list never grows |
| Alerts.AlertStore.constructor | frontend/src/stores/alerts.ts:14-17 | the store starts with no alerts and the counter at 0 |
| Alerts.AlertStore.AddAlert | frontend/src/stores/alerts.ts:19-24 | the counter goes up by one and the new alert, with that id, the current time and isPersistent defaulting to false, is appended; ids stay increasing and at most the counter |
| Alerts.AlertStore.RemoveAlert | frontend/src/stores/alerts.ts:26-29 | a missing id changes nothing; otherwise the alerts with that id go and the rest stay in order |
| Alerts.AlertStore.Flush | frontend/src/stores/alerts.ts:31-37 | one timer tick keeps the persistent and young alerts in order, and the counter |
| Alerts.IncreasingUnique | frontend/src/stores/alerts.ts:14-20 | ids drawn from the growing counter are unique |
| Alerts.WithoutIdKeepsOrder | frontend/src/stores/alerts.ts:28 | removal keeps the ids increasing |
| Alerts.FlushedKeepsOrder | frontend/src/stores/alerts.ts:34-36 | the flush keeps the ids increasing |
| Alerts.FlushIdempotent | frontend/src/stores/alerts.ts:34-36 | flushing twice at the same time removes nothing more |
| Alerts.RemoveAbsentId | frontend/src/stores/alerts.ts:28 | removing an id no alert has changes nothing |
| Alerts.ExpiresAtTTL | frontend/src/stores/alerts.ts:11-35 | a non-persistent alert survives a flush one millisecond before its time to live and is removed by the flush at it |
| CookieJar.Entries | frontend/src/stores/cookieJar.ts:14-16 | every entry of document.cookie is parsed, one for one |
| CookieJar.GetCookie | frontend/src/stores/cookieJar.ts:13-22 | the scan over the entries returns the answer of the first entry carrying the prefixed name: its value, undefined without "=", or null when none matches |
| CookieJar.SetCookieString | frontend/src/stores/cookieJar.ts:5-10 | the assigned string starts with the prefixed name, "=", the value and ";expires=" |
| CookieJar.EntriesAt | frontend/src/stores/cookieJar.ts:14-16 | parsing keeps each entry at its position |
| CookieJar.NotFoundIff | frontend/src/stores/cookieJar.ts:15-21 | getCookie returns null exactly when no entry carries the name |
| CookieJar.FirstMatchIsFirst | frontend/src/stores/cookieJar.ts:15-19 | the first entry with the name decides, whatever follows it |
| CookieJar.PrefixedNameShape | frontend/src/stores/cookieJar.ts:2-17 | the prefixed name "mestring_" + name holds "=" or ";" exactly when the name does |
| CookieJar.EntryOfPair | frontend/src/stores/cookieJar.ts:16 | an entry "name=value" with spaces in front parses to the name and the value up to its first "=" |
| CookieJar.StripPair | frontend/src/stores/cookieJar.ts:16 | trimming an entry removes only the spaces in front of it |
| CookieJar.SplitPair | frontend/src/stores/cookieJar.ts:16 | splitting "name=value" at "=" gives the name and then the value's own parts |
| CookieJar.ReadBack | frontend/src/stores/cookieJar.ts:5-22 | a cookie set under a name reads back as its value up to the first "=", wherever its entry stands and with spaces in front, when no earlier entry carries the same name |
| CookieJar.ReadBackWhole | frontend/src/stores/cookieJar.ts:5-22 | a value without "=" reads back whole |
| CookieJar.MatchAfter | frontend/src/stores/cookieJar.ts:15-19 | an entry preceded by none with its name decides the lookup |
| CookieJar.ValueTruncatedAtSecondEquals | frontend/src/stores/cookieJar.ts:16 | the cookie "mestring_token=a=b" reads back as "a" |
| CookieJar.FirstOfAEqualsB | frontend/src/stores/cookieJar.ts:16 | "a=b" split at "=" starts with "a" |
| CookieJar.NameWithoutValue | frontend/src/stores/cookieJar.ts:16-18 | an entry holding only the prefixed name matches and getCookie returns undefined, not null |
| CookieJar.SetCookieFields | frontend/src/stores/cookieJar.ts:5-10 | the assigned string is three ";"-separated fields: the prefixed name with the value, the expiry 90 days after now, and "path=/" |
| CookieJar.CookieLookup | frontend/src/stores/cookieJar.ts:13-22 | defines getCookie as a function of document.cookie; GetCookie computes it, and NotFoundIff, FirstMatchIsFirst and ReadBack state its properties |

## Left out

- Database access, HTTP and the Feide network calls are not executed: a query is a set comprehension over rows, and an API call is one element of a response sequence. The clock (`now`) and the background loop's `run_indefinitely` sleep are parameters or left out. The alerts' `setInterval` sweep is `AlertStore.Flush(now)`.
- Logging, the OAuth login flow and the legacy or superseded importers are not part of this model.
- Case mapping and whitespace are ASCII only (`Text.LowerChar`, `Text.IsSpace`). Python's Unicode `lower()` and `strip()` are not modelled.
- Text.IsSpace: the six ASCII whitespace characters that Python's `strip()` and JavaScript's `trim()` both remove. Python's `strip()` also removes the separators U+001C to U+001F. Both also remove non-ASCII spaces such as U+00A0 and U+2028. Neither difference is modelled, so a value with these characters at either end strips differently here.
- The policies' `get_target_id` is defined neither in `backend/mastery/access_policies/base.py` nor in the other files of this model. The model takes it to return the id in the request path, and `None` for a path without one.
- Policy conditions that call `view.get_object()` read the target through the viewset's `get_queryset()` for a single-object request. That is the scope, then the deleted filter, and for groups the validity filter. The 404 it raises outside that queryset is the condition being false. `GoalPolicy.IsUserCreator`, `GoalPolicy.IsUserOwner` and `SubjectPolicy.IsAdminAtSchoolWhichOwnsSubject` query the scope alone, as the source does, so they hold for a soft-deleted target. The retrieve view's own 404 for that target comes after the policy and is not modelled.
- Listings: every listing is a set, so the viewsets' `order_by` (sort order, display name, observed time) is not modelled.
- BackgroundTasks.Oldest: of several due tasks with the same `created_at`, the first row is chosen. PostgreSQL's `order_by('created_at')` leaves their order unspecified, so this tie-break is the model's choice.
- BackgroundTasks: one reading `later` stands for every `timezone.now()` taken after the claim: each heartbeat, `finished_at`, `failed_at` and the base of the retry back-off. Their differences are not modelled.
- BackgroundTasks: `claim_next_task`'s `select_for_update(skip_locked=True)` guards concurrent runners. There is one runner here, so the locking is not modelled.
- CleanerBot: the retention periods are parameters, not the settings' constants. The database cascades (UserSchool and Status rows removed with a user, `created_by`/`updated_by`/`situation` set to null) are summarised as "no row refers to a deleted user" and not modelled row by row.
- FeideMemberships: the members endpoint is a function from group id to response, so it answers the same for the same group within one run. A request that raises and a 200 answer whose `.json()` raises are modelled as such, but without their exception text, since the generator ends there.
- FetchMembershipsFromFeide: `get_feide_access_token` and reading `groups.json` are not modelled. A groups file that exists is given as its basis and teaching lists.
- FeideGroups and FeideMemberships: a JSON `null` is the same as an absent key. In the source, `dict.get(key, default)` returns `None` for a present `null`, so for example a group whose "displayName" is `null` appears as "None" in a message, not "unknown".
- FeideGroups.FeideGroup: every group has a "type". In the source, a group without one raises `KeyError` in `_fetch_groups`, which the paging loop catches like a failed request. That case is not modelled.
- ImportUsers.EnsureMembership: memberships are keyed by (user, group), so there is at most one per pair. The database's uniqueness is on (user, group, role), and the source updates the `.first()` of several rows for the pair. Several memberships of one user in one group are not modelled.
- ImportUsers.EnsureMembership: database errors are not modelled, so `memberships_failed` is never incremented.
- The fixture test that imports five users and six memberships calls `import_memberships`, which `import_users.py` does not define. Its user counts (all created, none maintained, into a database without users) are stated for `import_memberships_from_file` by `ImportUsers.FreshImportCreatesEveryUser`. Its membership counts are not modelled.
- ExcelImport.ObjectsFromSheet: the records are field lists, and the key order of the resulting dicts is not modelled.
- FeideGroups.FetchGroupsFromFeide: a run that needs more responses than the sequence holds ends as `OutOfResponses`. The source keeps requesting until the API stops paging.
- The `try`/`except` around the policies' `scope_queryset` catches database errors, which are not modelled. Nor are anonymous requesters (`if not requester`).
- Mastery.School.EnsureShortName: the 10-character `max_length` of `short_name` is enforced by the database, not here.
- MasteryHelpers: floats are reals, `isNumber` is a boolean parameter, and NaN and Infinity are not modelled.
- UrlString.UrlStringFrom: the entries arrive in `Object.keys` order. JavaScript's rule that integer-like keys come first is not modelled.
- CookieJar: the browser's merge of `document.cookie` assignments is a map update by name, and `Date.toUTCString` is a parameter.
- The access policies' statement evaluation follows rest_access_policy (any matching deny wins, otherwise any matching allow). The library itself is not part of this model.
- The admin and inspector expectations in the policy tests, and the thin scopes of the school, role, mastery-schema, status, feide-import and user-school policies, are not modelled.
- Mastery.GetMembers / policies: Django's join semantics for chained filters on multi-valued relations (`get_members`, teacher groups) are modelled as one condition per related row.

## Findings

| source | as written | input that shows it | evidently intended | confidence | as-written member | corrected member |
|---|---|---|---|---|---|---|
| backend/mastery/api/views.py:740-743 | the task list filters on `statuts`, a field the task model does not have | a list request with `status=running` | filter on `status` | not executed | TaskListing.StatusFilterFails | TaskListing.ListTasks |
| backend/mastery/data_import/feide_api.py:93-104 | after a failed request the loop still extends the results with the previous page's `result`, and a failure on the first request raises because `result` is unbound | page one returns a teaching group and a next link, the next request fails, the retry returns the last page with no groups | a failed request adds no groups | not executed | FeideGroups.StaleResultRepeatsPage | FeideGroups.FetchGroupsFromFeide |
| backend/mastery/access_policies/subject.py:17-23 | the retrieve and update statements allow `role:admin`, but the principals of a user are the role names of their group memberships only (base.py:7-20), so a school admin's UserSchool role never matches | a user who is admin of school 5 in UserSchool, holds no group role, and asks for subject 20 owned by school 5 | a school admin may retrieve and change the subjects their school owns, as the scope already lists them | not executed | SubjectPolicy.SchoolAdminShutOutAsWritten | SubjectPolicy.SchoolAdminMayAccessOwnedSubject |
