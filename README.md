# Scheduling core of python-gantt, in Dafny

The project models the scheduling engine of `gantt/gantt.py`. That engine has three parts.

- **The working-day calendar.** A module-wide list of weekly days off (`NOT_WORKED_DAYS`) and a list of vacation days (`VACATIONS`).
- **Tasks.** A `Task` is anchored by two of start, stop and duration, or by a duration and its dependencies. Its `start_date()` and `end_date()` resolve these anchors over working days and memoise the results in `cache_start_date` and `cache_end_date`.
- **Projects.** A `Project` is an ordered list of tasks and sub-projects. It derives its start, end, element count, task list and resource list from its members.

The tasks and projects of a program form an object graph. Here they live together in one class, `Scheduling.Schedule`:

- The tasks are a sequence addressed by handles, with a sequence of start caches and a sequence of end caches beside them.
- The projects are a sequence of nodes, with a sequence of memoised counts beside them.
- The model admits a dependency only on a task created earlier, and a sub-project only with a lower handle than the project holding it. This rule of the model rules out cycles and makes every recursion terminate. The source has no such rule: see "## Left out".

Every method of `Schedule` runs the loops of its Python counterpart. Each query method is proved to return what a specification function of the state on entry says, and to change nothing but cache entries that were empty. Each method that builds or resets the graph states its whole new state. The specification functions are these:

- `EffStart` and `EffEnd` (module `Tasks`) specify a task's start and end dates.
- `ProjStart` and `ProjEnd` (`Projects`) specify a project's dates.
- `EffConflicts` (`Conflicts`) specifies the resource conflicts of a task.
- `TaskList`, `ResourceList` and `CachedCount` (`Projects`) specify a project's task list, resource list and element count.

The specifications read the caches, just as the source does. A stale cache therefore gives the stale answer the source gives.

The caches change in two ways:

- `start_date`, `end_date` and `nb_elements` only fill empty entries. Each filled entry holds the value the corresponding call returns: the relation `Fills` for dates, `CountFills` for counts.
- Only `Task._reset_coord` and `Project._reset_coord` (`ResetTask`, `ResetProject`) and `add_task` (`AddTask`) empty entries.
- `Task()` and `Project()` (`NewTask`, `NewProject`) add an empty entry for the new object.

The query methods change nothing else. The lemmas `FillsKeepResults` and `FillsKeepProjectDates` show that filling caches changes no later answer. This is why it does no harm that the Python code calls `end_date()` and `start_date()` again and again inside its loops.

The behaviour the source promises is proved as lemmas about the specification functions, mainly in `task_facts.dfy`, `lists.dfy`, `projects.dfy` and `conflicts.dfy`.

Dates are proleptic Gregorian ordinals, as `date.toordinal()` gives them: 1 is 0001-01-01, and `weekday` is `(d + 6) % 7`. The failures of Python 3 become the `Exception` datatype:

- `TypeError`, for comparing a date with `None`, iterating or indexing a single Task, or `None > 1`;
- `AttributeError`, for `None.weekday()` or `.append` on a Task;
- `IndexError`, for `[][0]`;
- `ValueError`, for a task given with all three anchors.

The source depends on behaviours that look accidental. The model keeps them, and the lemmas state them:

- A task given by start and stop on the same working day, with no duration, raises `TypeError` in `end_date` (gantt.py:522-526: the comparison `None > 1`). See `SameDayStartStopRaises`.
- Without start and duration, `start_date` yields `None` or raises; it never yields a date. See `StartWithoutStartOrDuration`.
- `add_depends` with a single task on a task without dependencies stores the bare task. Every later `start_date` on a task whose start is not yet cached then raises `TypeError`. See `BareDependencyRaises`.
- `add_task` empties only the count memo of the project it changes. A project holding that project keeps returning its old count (`CachedCount`).
- `add_depends` empties no date cache, so dates computed before it stay in force.

## Model

| member | source | states |
|---|---|---|
| Workdays.Weekday | gantt/gantt.py:362 | the weekday of a date is in 0..6 |
| Workdays.DefineNotWorkedDays | gantt/gantt.py:98-107 | after replacing the days off, a day is worked exactly when its weekday is not in the new list and it is not a vacation day; vacations are unchanged |
| Workdays.AddVacations | gantt/gantt.py:176-202 | the old vacation list is a prefix of the new one, and days off are unchanged; a day is a vacation afterwards exactly when it was one before or lies in [start, end], or is start when no end is given; the appended days are new, in increasing order |
| Workdays.NextWorking | gantt/gantt.py:362-363 | the result is on or after the day, is a working day, and no earlier such day is a working day |
| Workdays.PrevWorking | gantt/gantt.py:519-520 | the result is on or before the day, is a working day, and no later such day up to the given day is a working day |
| Workdays.RollForward | gantt/gantt.py:362-363 | the roll-forward loop over days off and vacations ends on the next working day |
| Workdays.RollBackward | gantt/gantt.py:517-520 | the roll-back loop of end_date ends on the previous working day |
| Workdays.WorkingCount | gantt/gantt.py:526-533 | the number of working days in [a, b] is at most the number of days in it |
| Workdays.CountSplit | gantt/gantt.py:526-533 | the working days of a range are those of its two halves |
| Workdays.CountNone | gantt/gantt.py:526-533 | a range without working days counts none |
| Workdays.NthWorkingFrom | gantt/gantt.py:549-561 | for n >= 1 there is a working day x at or after s with exactly n working days in [s, x] |
| Workdays.NthWorkingBack | gantt/gantt.py:450-461 | for n >= 1 there is a working day x at or before e with exactly n working days in [x, e] |
| Workdays.ForwardUnique | gantt/gantt.py:549-561 | the n-th working day counted forward is unique |
| Workdays.BackUnique | gantt/gantt.py:450-461 | the n-th working day counted backward is unique |
| Workdays.SpanEnd | gantt/gantt.py:549-561 | the last day of a task starting on s is the working day that closes max(d, 1) working days counted from s |
| Workdays.SpanStart | gantt/gantt.py:450-461 | the first day of a task ending on stop is, for d >= 1, the working day that opens d working days counted back to stop; for d < 1 it is the day after stop |
| Workdays.CountForward | gantt/gantt.py:549-561 | the forward counting loop of end_date returns the last day of a span of max(d, 1) working days from s |
| Workdays.CountBackward | gantt/gantt.py:450-461 | the backward counting loop of start_date returns the first day of a span of d working days ending on stop |
| Tasks.AnchorError | gantt/gantt.py:295-305 | the constructor logs an error unless exactly one of start, stop and duration is missing, or both a duration and depends_of are given |
| Tasks.NormaliseDeps | gantt/gantt.py:307-312 | depends_of is stored as None when not given, as the list when a list is given, and as a one-element list otherwise; it is never stored bare |
| Tasks.AddDeps | gantt/gantt.py:325-345 | with no dependencies, the argument is stored as given, so a single task is stored bare; with a list, the new dependencies are appended in order; with a bare task, AttributeError is raised unless an empty list is added |
| Tasks.Step | gantt/gantt.py:378-384 | one iteration of a dependency loop never lowers the bound: it keeps it or moves it to the offset of the dependency's end; StepIsMax says which |
| Tasks.Offset | gantt/gantt.py:379-384 | defines the bound a dependency ending on e sets: with a start given the day after a Task's end and a Milestone's own end (gantt.py:379-384); without a start a Task's end and the day before a Milestone's end (gantt.py:401-406, 430-435); from a stop the end itself (gantt.py:476-481); used by StepIsMax and FoldIsLatest |
| Tasks.FoldDeps | gantt/gantt.py:378-384 | the result of a dependency loop, when no end_date raises, is never below its initial bound; FoldIsLatest and FoldFails characterise it fully |
| Tasks.FromFirstDep | gantt/gantt.py:428-435 | defines `prev_task_end = self.depends_of[0].end_date()` followed by the dependency loop; a raise of the first end_date is the result; characterised through FoldIsLatest in StartFromDependencies and StartFromStopAndDependencies |
| Tasks.ComputeStart | gantt/gantt.py:354-502 | start_date below its cache test: it yields a date only with a start or a duration, and a given start is never moved back and lands on a working day; the lemmas of TaskFacts give each branch |
| Tasks.EffStart | gantt/gantt.py:345-502 | defines what start_date returns: the cached value when there is one, stale or not, otherwise ComputeStart; related to the method by Scheduling.Schedule.StartDate and kept by FillsKeepResults |
| Tasks.ComputeEnd | gantt/gantt.py:516-565 | end_date below its cache test: a returned end is always a working day; EndNotBeforeStart and the other lemmas of TaskFacts give each branch |
| Tasks.EffEnd | gantt/gantt.py:505-565 | defines what end_date returns: the cached value when there is one, stale or not, otherwise ComputeEnd; related to the method by Scheduling.Schedule.EndDate and kept by FillsKeepResults |
| Tasks.StepIsMax | gantt/gantt.py:378-384 | one iteration of a dependency loop moves the bound to the larger of itself and the offset the dependency's end sets for its kind |
| Tasks.FoldStable | gantt/gantt.py:378-384 | a dependency loop depends only on the end dates of the tasks below its owner |
| Tasks.ComputeStartStable | gantt/gantt.py:356-502 | a start resolved from scratch depends only on the end dates of the tasks below |
| Tasks.FillsKeepResults | gantt/gantt.py:352-353 | filling empty cache entries with the values the calls return changes no start_date or end_date result |
| Tasks.FillsTrans | gantt/gantt.py:352-353 | two successive fillings are one filling |
| Tasks.FillsKeepFold | gantt/gantt.py:399-406 | filling caches between the first end_date call and the dependency loop changes the loop's result in no way |
| Tasks.CoherentResults | gantt/gantt.py:511-512 | when every cached date is the one resolved from scratch, calls return the from-scratch results |
| Tasks.ClearingKeepsCoherent | gantt/gantt.py:723-733 | emptying cache entries keeps a coherent store coherent |
| TaskFacts.FoldIsLatest | gantt/gantt.py:377-384 | when a dependency loop returns, its result is at least the initial bound and at least the offset of each dependency, and equals one of them |
| TaskFacts.FoldFails | gantt/gantt.py:378-384 | a dependency loop raises exactly when the end_date of one of its dependencies raises |
| TaskFacts.StartOnFirstWorkingDay | gantt/gantt.py:356-369 | a task given a start and no dependency starts on the first working day on or after that start |
| TaskFacts.StartAfterDependencies | gantt/gantt.py:370-393 | with a start and dependencies, the start date is the first working day on or after both the rolled start and every dependency's offset end; it raises exactly when a dependency's end raises |
| TaskFacts.StartFromDependencies | gantt/gantt.py:427-446 | with a duration and dependencies but no start or stop, the start date is the first working day after the latest dependency bound; an empty list raises IndexError |
| TaskFacts.StartCountedBackFromStop | gantt/gantt.py:448-461 | with a stop and duration and no dependency, the start is the first day of the span of `duration` working days that ends on stop |
| TaskFacts.StartFromStopAndDependencies | gantt/gantt.py:462-497 | with a stop, a duration and dependencies, the start is a working day on or after the counted-back start which is also past every dependency's end bound |
| TaskFacts.StartWithoutStartOrDuration | gantt/gantt.py:395-425 | without start and duration, start_date never yields a date: None with no dependency, IndexError with an empty list |
| TaskFacts.EndCountsDuration | gantt/gantt.py:548-562 | with a duration and no stop, [start, end] holds exactly `duration` working days and the end is a working day |
| TaskFacts.OneDayTaskEndsOnItsStart | gantt/gantt.py:548-562 | a one-day task starting on a working day ends on that day |
| TaskFacts.StopAndDurationSpan | gantt/gantt.py:516-546 | a task given stop and duration resolves both dates; it ends no later than stop, and its span holds `duration` working days |
| TaskFacts.EndWithStopAndDependencies | gantt/gantt.py:516-546 | with stop, duration and dependencies, the end is the stop rolled back to a working day while the start lies before it; when the dependencies push the start to or past that day, the end is the duration counted from the pushed start, so past the stop |
| TaskFacts.EndNotBeforeStart | gantt/gantt.py:516-562 | whenever end_date returns a computed end, start_date has resolved to a date, the end is not before it, and the end is a working day |
| TaskFacts.EndFromStartAndStop | gantt/gantt.py:516-546 | with start and stop, the end is the stop rolled back to a working day when that lies after the start; otherwise end_date raises TypeError |
| TaskFacts.SameDayStartStopRaises | gantt/gantt.py:522-526 | a task given start == stop on a working day, without duration, raises TypeError in end_date |
| TaskFacts.AllAnchorsRaise | gantt/gantt.py:564 | a task given start, stop and duration raises ValueError in end_date |
| TaskFacts.AcceptedAnchorsResolveStart | gantt/gantt.py:295-305 | a task that passes the constructor's check and has no dependency always gets a start date |
| TaskFacts.BareDependencyRaises | gantt/gantt.py:340-343 | a task whose dependency was stored bare by add_depends, and whose start is not cached, raises TypeError in start_date, whatever its anchors |
| Lists.Leaves | gantt/gantt.py:1040-1042 | a list of values as a list item keeps its length and its values in order |
| Lists.Size | gantt/gantt.py:245-252 | every item has a positive size |
| Lists.SizeAll | gantt/gantt.py:245-252 | a list's size is at least its length |
| Lists.Flatten | gantt/gantt.py:237-254 | defines the left-to-right values of one nested item; FlattenList proves _flatten's loop returns them |
| Lists.FlattenAll | gantt/gantt.py:237-254 | defines the left-to-right values of a nested list; characterised by FlattenAllAppend, FlattenLeaves and FlattenAllOfValues |
| Lists.FlattenAllAppend | gantt/gantt.py:237-254 | flattening distributes over concatenation |
| Lists.FlattenAllAround | gantt/gantt.py:249-252 | splicing the items of one nested list in its place keeps the flattening |
| Lists.FlattenLeaves | gantt/gantt.py:237-254 | a flat list flattens to itself |
| Lists.FlattenAllOfValues | gantt/gantt.py:254 | a list of values only is its values |
| Lists.FlattenList | gantt/gantt.py:237-254 | the in-place splicing loop of _flatten returns the left-to-right values of the nested list |
| Lists.FirstIndex | gantt/gantt.py:1064-1067 | the first occurrence: x is at that index and nowhere before |
| Lists.DedupFrom | gantt/gantt.py:1064-1067 | defines the `if r not in flist: flist.append(r)` loop from a given flist; characterised by DedupFromFacts and DedupFromAppend |
| Lists.Dedup | gantt/gantt.py:1064-1067 | defines the same loop from an empty flist; DedupFacts shows it keeps each element once, in order of first occurrence |
| Lists.DedupLoop | gantt/gantt.py:1064-1067 | the `if r not in flist: flist.append(r)` loop keeps the first occurrence of each element |
| Lists.DedupFromAppend | gantt/gantt.py:1064-1067 | the loop over a concatenation is the loop over the second list, continued from the first |
| Lists.DedupFromFacts | gantt/gantt.py:1064-1067 | the loop keeps what it started with as a prefix, adds exactly the new elements, and adds no double |
| Lists.DedupSnoc | gantt/gantt.py:1065-1066 | one more element is appended exactly when it has not been seen |
| Lists.DedupFromDedup | gantt/gantt.py:1064-1067 | removing doubles first changes nothing |
| Lists.DedupFacts | gantt/gantt.py:1064-1067 | the result holds each element of the input exactly once, in the order of first occurrence |
| Lists.FirstIndexExtend | gantt/gantt.py:1064-1067 | appending does not move a first occurrence |
| Projects.SubProjectsUpToBelow | gantt/gantt.py:1011-1018 | the projects the reset of members [0, k) reaches are below the project |
| Projects.SubProjectsBelow | gantt/gantt.py:1011-1018 | resetting a project reaches only projects below it, never itself or a project holding it |
| Projects.IsInProject | gantt/gantt.py:1020-1030 | defines Project.is_in_project over its members; IsInProjectReach shows it holds exactly for the reachable tasks |
| Projects.InMembersReach | gantt/gantt.py:1020-1030 | some member among the first k reports x exactly when x is a task leaf reached from them |
| Projects.IsInProjectReach | gantt/gantt.py:1020-1030 | is_in_project holds exactly for the tasks reachable through nested projects; Task.is_in_project (gantt.py:736-747) is identity, so a project is never in a project |
| Projects.FlattenAllSnoc | gantt/gantt.py:1052-1061 | appending one item appends its flattening |
| Projects.TaskList | gantt/gantt.py:1051-1068 | defines what get_tasks returns: _flatten of the members' task lists, first occurrence kept; TaskListFacts characterises it |
| Projects.TaskGroupsAgree | gantt/gantt.py:1052-1067 | the list get_tasks builds, flattened and deduplicated, is the deduplicated list of reachable task leaves |
| Projects.TaskListIsDedupReach | gantt/gantt.py:1051-1068 | get_tasks is the reachable task leaves, first occurrence kept |
| Projects.TaskListFacts | gantt/gantt.py:1051-1068 | get_tasks returns each task that is_in_project reports exactly once, in the order in which the tasks are first reached |
| Projects.ResourceGroupsAgree | gantt/gantt.py:1037-1047 | the list get_resources builds, flattened and deduplicated, is the deduplicated list of the resources of the reachable tasks |
| Projects.ResourceList | gantt/gantt.py:1033-1048 | defines what get_resources returns: _flatten of the members' resource lists, first occurrence kept; ResourceListFacts and ResourceListOfReach characterise it |
| Projects.ResourceListIsDedupReach | gantt/gantt.py:1033-1048 | get_resources is the resources of the reachable tasks, first occurrence kept |
| Projects.ResourceListFacts | gantt/gantt.py:1033-1048 | get_resources returns every resource of every reachable task, each once, in order of first occurrence |
| Projects.ResourcesUpToOfReach | gantt/gantt.py:1037-1041 | the resources of members [0, k) are those of the tasks they reach |
| Projects.ReachSplit | gantt/gantt.py:1037-1041 | a resource of the tasks of a + b is one of a task of a or of b |
| Projects.ResourceListOfReach | gantt/gantt.py:1033-1048 | get_resources lists exactly the resources of the tasks reachable from the project through nested projects |
| Projects.LeafCountUpToIsReach | gantt/gantt.py:1004-1005 | the true count of members [0, k) is the number of task leaves they reach |
| Projects.LeafCountIsReach | gantt/gantt.py:997-1009 | the true element count is the number of task leaves reached, repeats counted, and is at least the length of get_tasks; Task.nb_elements (gantt.py:715-721) is 1 |
| Projects.DedupCount | gantt/gantt.py:1064-1067 | deduplication never lengthens a list |
| Projects.StrictlyIncreasingBound | gantt/gantt.py:1064-1067 | a strictly increasing sequence of indices below n is at most n long |
| Projects.CachedCount | gantt/gantt.py:997-1009 | defines what nb_elements returns: a memoised count as it is, stale or not, otherwise the members' counts summed; CoherentCount and CountFillsKeep relate it to the true count |
| Projects.CoherentCountUpTo | gantt/gantt.py:1004-1005 | with coherent memos, the count over members [0, k) is the true count |
| Projects.CoherentCount | gantt/gantt.py:997-1009 | with coherent memos, nb_elements is the number of task leaves |
| Projects.CountFillsKeepUpTo | gantt/gantt.py:1004-1007 | memoising counts changes no partial count |
| Projects.CountFillsKeep | gantt/gantt.py:1001-1007 | memoising a count changes no later nb_elements result |
| Projects.CountFillsTrans | gantt/gantt.py:1001-1007 | two successive memoisations are one |
| Projects.CountFillsKeepCoherent | gantt/gantt.py:1007 | memoising keeps coherent memos coherent |
| Projects.MinFrom | gantt/gantt.py:916-919 | defines the running minimum of the start loop; MinFromFacts characterises it |
| Projects.StartOfMembers | gantt/gantt.py:907-919 | defines Project.start_date from its members' start results; StartOfMembersFacts characterises it |
| Projects.MaxFrom | gantt/gantt.py:931-934 | defines the running maximum of the end loop; MaxFromFacts characterises it |
| Projects.EndOfMembers | gantt/gantt.py:922-934 | defines Project.end_date from its members' end results; EndOfMembersFacts characterises it |
| Projects.MinFromFacts | gantt/gantt.py:916-919 | from index k, the start loop raises exactly when a member raises or has no start; otherwise its result is the least of the bound and the members' starts, and equals one of them |
| Projects.StartOfMembersFacts | gantt/gantt.py:907-919 | a project's start is 9999-01-01 when it is empty; otherwise it raises exactly when a member raises or has no start, and is the least start of its members and one of them |
| Projects.MaxFromFacts | gantt/gantt.py:931-934 | from index k, the end loop raises exactly when a member raises; otherwise its result is the greatest of the bound and the members' ends, and equals one of them |
| Projects.EndOfMembersFacts | gantt/gantt.py:922-934 | a project's end is 1970-01-01 when it is empty; otherwise it raises exactly when a member raises, and is the latest end of its members and one of them |
| Projects.MemberStarts | gantt/gantt.py:916-918 | one start result per member |
| Projects.MemberEnds | gantt/gantt.py:931-933 | one end result per member |
| Projects.ProjStart | gantt/gantt.py:907-919 | defines what Project.start_date returns in a store: StartOfMembers of the members' starts; related to the method by Scheduling.Schedule.ProjectStart and kept by FillsKeepProjectDates |
| Projects.ProjEnd | gantt/gantt.py:922-934 | defines what Project.end_date returns in a store: EndOfMembers of the members' ends; related to the method by Scheduling.Schedule.ProjectEnd and kept by FillsKeepProjectDates |
| Projects.FillsKeepProjectDates | gantt/gantt.py:907-934 | filling task caches changes no member's dates and no project's start or end |
| Conflicts.IsConflict | gantt/gantt.py:771 | defines a conflict day: not a weekly day off, and the resource is unavailable |
| Conflicts.DayConflicts | gantt/gantt.py:770-774 | defines the records of one resource over a range of days; DayConflictsFacts characterises them |
| Conflicts.ConflictsFrom | gantt/gantt.py:768-774 | defines the records of the resources from index k on; ConflictsFromFacts and ConflictsFromOnce characterise them |
| Conflicts.EffConflicts | gantt/gantt.py:758-775 | defines what the conflict check returns in a store; related to the method by Scheduling.Schedule.CheckConflicts and characterised by ConflictCheckFacts |
| Conflicts.DayConflictsFacts | gantt/gantt.py:770-774 | the records for one resource are exactly its conflict days between the two days, in increasing order |
| Conflicts.ConflictsFromFacts | gantt/gantt.py:768-774 | a record is present exactly when its day lies in the range and is a conflict day of one of the resources |
| Conflicts.ConflictsFromOnce | gantt/gantt.py:768-774 | with distinct resource names, no record appears twice |
| Conflicts.NotFromEarlier | gantt/gantt.py:768-774 | with distinct resource names, a record of the resources from index k on names no resource before k |
| Conflicts.ConflictsFromOrdered | gantt/gantt.py:768-774 | with distinct resource names, the records come resource by resource, in the order of the task's resource list, and by increasing day within a resource |
| Conflicts.ConflictCheckFacts | gantt/gantt.py:758-775 | a task without resources has no conflicts; a check that returns has resolved both dates, and its records are exactly the conflict days of the task's resources between them; with distinct resource names each is recorded once, ordered by resource and then by day |
| Scheduling.Schedule.constructor | gantt/gantt.py:95 | a schedule starts with no tasks and no projects, over a calendar with a working weekday |
| Scheduling.Schedule.NewTask | gantt/gantt.py:261-323 | appends the task with empty caches, fullname defaulting to name, and depends_of normalised; reports whether the anchor check logs; changes nothing else |
| Scheduling.Schedule.AddDepends | gantt/gantt.py:325-345 | the dependencies become those of AddDeps, appended in order; a bare dependency raises AttributeError and changes nothing; no cache is emptied |
| Scheduling.Schedule.ResolveDeps | gantt/gantt.py:378-384 | the dependency loop, which calls end_date twice when the bound moves, returns the specified fold and only fills caches |
| Scheduling.Schedule.ResolveFromFirst | gantt/gantt.py:428-435 | the end of the first dependency followed by the loop returns the specified result and only fills caches |
| Scheduling.Schedule.StartDate | gantt/gantt.py:347-502 | returns what start_date specifies for the state on entry; only fills empty caches with their specified values; a returned date is left in the task's cache |
| Scheduling.Schedule.EndDate | gantt/gantt.py:505-565 | returns what end_date specifies for the state on entry; only fills empty caches; a returned date is left in the task's cache |
| Scheduling.Schedule.CacheStart | gantt/gantt.py:368 | stores the date start_date is about to return in the task's start cache, and so keeps the caches a filling of the entry state |
| Scheduling.Schedule.CacheEnd | gantt/gantt.py:540 | stores the date end_date is about to return in the task's end cache, and so keeps the caches a filling of the entry state |
| Scheduling.Schedule.ResetTask | gantt/gantt.py:723-733 | empties both date caches of the task and nothing else |
| Scheduling.Schedule.WalkDays | gantt/gantt.py:770-774 | the day loop, calling end_date on every test, records exactly the conflict days of the resource from the start to the end |
| Scheduling.Schedule.EndAgain | gantt/gantt.py:770 | the end_date call repeated on every test of the day loop returns the end already known and only fills caches |
| Scheduling.Schedule.CheckConflicts | gantt/gantt.py:758-775 | returns the specified conflicts of the task; its start_date and end_date calls only fill caches |
| Scheduling.Schedule.NewProject | gantt/gantt.py:807-823 | appends an empty project with no memoised count |
| Scheduling.Schedule.AddTask | gantt/gantt.py:826-835 | appends the member to the project and empties that project's memoised count only |
| Scheduling.Schedule.MemberStartDate | gantt/gantt.py:916-918 | a member's start: the task's start_date or the sub-project's start |
| Scheduling.Schedule.ProjectStart | gantt/gantt.py:907-919 | returns the specified project start (the least member start) and only fills task caches |
| Scheduling.Schedule.MemberEndDate | gantt/gantt.py:931-933 | a member's end: the task's end_date or the sub-project's end |
| Scheduling.Schedule.ProjectEnd | gantt/gantt.py:922-934 | returns the specified project end (the latest member end) and only fills task caches |
| Scheduling.Schedule.NbElements | gantt/gantt.py:997-1009 | returns the count the memos give, stale ones included, memoises it, and only fills empty memos with their specified values |
| Scheduling.Schedule.ResetProject | gantt/gantt.py:1011-1018 | empties the date caches of exactly the reachable tasks, and the count memos of exactly the project and the projects below it |
| Scheduling.Schedule.GetTasks | gantt/gantt.py:1051-1068 | returns the specified task list |
| Scheduling.Schedule.GetResources | gantt/gantt.py:1033-1048 | returns the specified resource list |

## Left out

- SVG drawing, CSV output, fonts, logging, version printing and `example.py` are left out. The constructor's logged error is returned as a flag.
- The presentation fields of tasks and projects are not modelled: colour, percent_done, display, state and the drawn coordinates.
- `Resource` (`is_available` and its own vacations) is not part of this model. A resource is an id and a name, and its availability is a parameter of the conflict check.
- `NOT_WORKED_DAYS` and `VACATIONS` are module globals. Here they are a calendar fixed for a schedule. `DefineNotWorkedDays` and `AddVacations` compute a new calendar value instead of changing the globals under live caches.
- A calendar must have at least one working weekday. Otherwise the roll loops of the source never end.
- The schedule admits a dependency or a sub-project only with a lower handle. The source accepts any object, including cycles, on which it then recurses without end.
- Scheduling.Schedule.AddDepends: requires every new dependency to be a task created before the task it is added to. An edge to a task created later, such as `t1.add_depends([t2])` with t2 created after t1, is excluded even when the graph stays acyclic, although the source resolves it.
- Scheduling.Schedule.AddTask: requires an added sub-project to have been created before the project it is added to. `root.add_task(sub)` with root created first is excluded even when the projects stay acyclic, although the source handles it.
- `Milestone` is not defined in `gantt.py`, so as written `isinstance(t, Milestone)` raises NameError in every dependency loop. The model gives each dependency a kind that takes the Milestone branch or the Task branch. Other kinds of objects are not modelled as dependencies.
- Python lists are shared by reference. A list passed as `depends_of`, whether to the constructor or to `add_depends`, is aliased by the task. Later changes to it by the caller are not modelled.
- Python dates run from 0001-01-01 to 9999-12-31. Rolling or counting past either bound raises OverflowError in `timedelta` arithmetic. The model's dates are unbounded in both directions, so a day before 1 or after 3652059 is a date here.
- The several `start_date()` calls inside one evaluation of end_date are made once. The cached value makes every further call return the same date.
- Scheduling.Schedule.StartDate: says which caches may change (only empty ones, only to their specified values), not which ones do get filled.
- Scheduling.Schedule.EndDate: says which caches may change (only empty ones, only to their specified values), not which ones do get filled.
- `Task.nb_elements`, `Task.is_in_project` and `Task.get_resources` have no members of their own:
  - a task member counts 1 in `CachedCountUpTo`;
  - it is identity in `InMembers`;
  - it contributes its resources in `TaskResources`.
- Project.is_in_project is the pure function `Projects.IsInProject`, since it changes nothing.
