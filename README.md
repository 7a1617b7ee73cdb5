# Planner constraint engine and store, in Dafny

This project models the two core files of a small scheduling planner.

- `lib/constraints.ts`, `checkConstraints`: the engine that turns the task list into advisory warnings.
- `lib/store.ts`: the store that keeps tasks, milestones, warnings and the selected view, and recomputes the warnings after every task action.

The engine's output is first defined as a specification function, `ConstraintEngine.Warnings`:

- the warnings of the three weekly rules, bucket after bucket, in first-seen bucket order;
- then the physical-BD warnings, in input order.

`ConstraintEngine.CheckConstraints` is the engine written the way the source runs it. It does one `reduce` pass to fill a dictionary of week buckets, then a loop over the buckets, then a loop over the physical-BD tasks, pushing onto one list. Its postcondition is `warnings == Warnings(tasks)`. Everything in `ConstraintProperties` and `Scenarios` is proved about `Warnings`, so it holds for the method too.

The store is the class `Planner.PlannerStore`. Its fields are `tasks`, `milestones`, `warnings` and `view`, and each action is a method.

- Each method states the whole new state.
- Task actions recompute the warnings with `CheckConstraints`.
- Milestone and view actions leave the warnings alone.
- `DismissWarning` filters the current list.
- The invariant `Valid()` says the warnings on show are a subsequence of the engine's output for the current tasks.
- `DismissalIsForgotten` shows that a dismissed warning whose condition still holds comes back after the next task action.

Modules:

- `Seqs` (`seqs.dfy`): `filter`, `map` with a condition, first-seen deduplication, subsequences.
- `Calendar` (`calendar.dfy`): day numbers, `getDay()`, and the `yyyy-ww` week key.
- `Types` (`types.dfy`): tasks, milestones, warnings.
- `ConstraintEngine` (`engine.dfy`): the rules, the specification functions and the methods.
- `ConstraintProperties` (`engine_properties.dfy`): the properties of the output.
- `Scenarios` (`scenarios.dfy`): concrete cases and the calendar quirks of the week key.
- `Planner` (`store.dfy`): the store.

## Modelling choices

**Dates.** A task date is a valid proleptic Gregorian date with a four-digit year from 1 to 9999 (type `Calendar.Date`). It is what `parseISO` reads from the stored `yyyy-MM-dd` text. Within those years `yyyy` prints the calendar year itself. `getDay()` is computed from a day count, with 0 for Sunday.

**The week key.** The bucket key is `format(date, 'yyyy-ww')` under date-fns's default en-US rules:

- weeks start on Sunday;
- week 1 is the week that contains January 1;
- `yyyy` is the calendar year, not the week-numbering year.

An ISO-8601 week (starting on Monday, week 1 holding the first Thursday) would give other buckets; the code uses the en-US form, and the model follows the code. Two consequences are proved in `Scenarios`:

- Tuesday 2024-12-31 and Wednesday 2025-01-01 fall in one Sunday-to-Saturday week but in two buckets.
- 2024-12-30 gets the key `2024-01`, the same key as 2024-01-02, almost a year earlier. Tasks of those two weeks are counted together by the weekly rules.

**Times.** A time is reduced to the two `parseInt` results of its `HH:MM` text. `None` stands for NaN: a NaN hour satisfies no threshold, and a NaN anywhere makes Jannes's weekly total NaN.

**Durations.** Durations are counted in whole minutes, as `end - start`, and are not clamped at zero. "More than 15 hours" is "more than 900 minutes".

**Duplicates.** Counting statements use multiset multiplicities, so a task value that occurs twice in the input is accounted for twice.

## Model

| member | source | states |
|---|---|---|
| Calendar.Weekday | lib/constraints.ts:59-60 | `getDay()` of a date is a weekday number from 0 to 6 |
| Calendar.NextDayNumber | lib/constraints.ts:82-83 | the day after a date has the next day number, and its weekday is the next one, Saturday wrapping to Sunday |
| Calendar.YearStartStep | lib/constraints.ts:9 | January 1 of the next year comes 365 or 366 days later, by the leap-year rule |
| Calendar.DayNumberInYear | lib/constraints.ts:9 | a date lies between January 1 of its year and January 1 of the next |
| Calendar.WeekStart | lib/constraints.ts:9 | the start of a date's week is a Sunday at most six days earlier |
| Calendar.WeekStartMonotone | lib/constraints.ts:9 | later days never have earlier week starts |
| Calendar.WeekStartsApart | lib/constraints.ts:9 | two week starts are a whole number of weeks apart |
| Calendar.WeekKeyOf | lib/constraints.ts:9 | the `yyyy-ww` key of a date carries the date's calendar year and a week number from 1 to 53 |
| Calendar.KeyForDay | lib/constraints.ts:9 | a day of calendar year `y` gets a key with year `y` and a week number from 1 to 53 |
| Calendar.SameWeekSameKey | lib/constraints.ts:8-15 | two dates of one calendar year in the same Sunday-to-Saturday week get the same bucket |
| Calendar.SameWeekSameKeyForDays | lib/constraints.ts:9 | the same, stated on day numbers of one calendar year |
| Calendar.SameKeySameWeek | lib/constraints.ts:8-15 | conversely, two dates of one calendar year that both come before the first week of the next year share a bucket only when they share a Sunday-to-Saturday week |
| Calendar.SameKeySameWeekForDays | lib/constraints.ts:9 | the converse stated on day numbers |
| Seqs.Filter | lib/constraints.ts:20-23 | `filter` keeps only elements of the input that pass the test, and is never longer than the input |
| Seqs.FilterCount | lib/constraints.ts:77-79 | `filter` keeps every occurrence of a passing element and drops every occurrence of the others |
| Seqs.FilterIsSubsequence | lib/store.ts:63 | `filter` keeps the input's order |
| Seqs.MapWhere | lib/store.ts:51-53 | the conditional `map` keeps length and positions and rewrites exactly the elements that pass the test |
| Seqs.DedupDistinct | lib/constraints.ts:18 | the bucket keys in insertion order are pairwise distinct |
| Seqs.DedupMember | lib/constraints.ts:18 | the deduplicated keys are exactly the keys that occur |
| Seqs.DedupFirstSeen | lib/constraints.ts:18 | a key listed earlier first occurs before every occurrence of a key listed later |
| ConstraintEngine.NatToString | lib/constraints.ts:50 | a number prints as a non-empty string of decimal digits, without a leading zero, whose value is the number |
| ConstraintEngine.IsVincentLate | lib/constraints.ts:20-23 | rule 1's test: a Vincent task whose end hour parses to 19 or more; characterised by `VincentSubjects` |
| ConstraintEngine.IsJannesLateEvening | lib/constraints.ts:58-65 | rule 3's test: a Jannes task on Monday to Friday whose end hour parses to 21 or more; characterised by `JannesLateSubjects` |
| ConstraintEngine.HasPhysicalBd | lib/constraints.ts:77-79 | rule 4's filter: the task carries the `Physical BD` tag |
| ConstraintEngine.IsOffBdDay | lib/constraints.ts:82-85 | rule 4's test: the task's weekday is neither Wednesday nor Friday; characterised by `CheckBdDay` and `PhysicalBdExactly` |
| ConstraintEngine.Duration | lib/constraints.ts:38-43 | one task's length in minutes, end minus start, NaN when any of the four parts does not parse |
| ConstraintEngine.TotalMinutes | lib/constraints.ts:37-45 | the `reduce` sum of the durations from 0, NaN once any duration is; characterised by `TotalMinutesNaN` |
| ConstraintEngine.OverJannesLimit | lib/constraints.ts:47 | the total is a number above 900 minutes, so a NaN total never triggers the rule |
| ConstraintEngine.HoursText | lib/constraints.ts:50 | the total in hours with one decimal; `SixteenHoursText` gives its value at 960 minutes |
| ConstraintEngine.JannesHoursMessage | lib/constraints.ts:50 | the rule-2 message around the hour text; `SixteenHoursMessage` gives it in full at 960 minutes |
| ConstraintEngine.AtLeast | lib/constraints.ts:22 | `parseInt(...) >= bound`: a parsed hour at or above the bound, never true of NaN |
| ConstraintEngine.IsJannes | lib/constraints.ts:36 | rule 2's filter: the task is assigned to Jannes; characterised by `JannesHoursSubjects` |
| ConstraintEngine.IsMisplacedBd | lib/constraints.ts:77-85 | the tasks rule 4 objects to: tagged `Physical BD` and off Wednesday and Friday; `PhysicalBdExactly` equates the rule-4 subjects with exactly these |
| ConstraintEngine.KeyOf | lib/constraints.ts:9 | a task's bucket key, the week key of its date; `SameWeekSameKey` and `SameKeySameWeek` say which tasks share it |
| ConstraintEngine.WeekKeys | lib/constraints.ts:8-18 | the bucket keys in the order `Object.values` visits them, first-seen; `WeekKeysDistinct`, `WeekKeysOccupied`, `EveryTaskBucketed` and `WeekKeysFirstSeen` characterise it |
| ConstraintEngine.InWeek | lib/constraints.ts:8-15 | the bucket of a key: the tasks with that key in input order; `GroupByWeek`, `InWeekCount` and `BucketKeepsOrder` characterise it |
| ConstraintEngine.WeekOf | lib/constraints.ts:8-15 | the bucket a task falls into; `WarningsCount` reduces a task's weekly warnings to it |
| ConstraintEngine.Warn | lib/constraints.ts:26-32 | one `forEach` push of a kind and message over tasks, as at lines 26-32, 48-54, 67-72 and 86-90; `PushEach`, `WarnAt`, `SubjectsWarn` and `WarnMember` characterise it |
| ConstraintEngine.VincentWarnings | lib/constraints.ts:20-33 | rule 1 on one bucket; `CheckVincentEvenings` computes it and `VincentSubjects` characterises it |
| ConstraintEngine.JannesHoursWarnings | lib/constraints.ts:36-55 | rule 2 on one bucket; `CheckJannesHours` computes it and `JannesHoursSubjects` characterises it |
| ConstraintEngine.JannesLateWarnings | lib/constraints.ts:58-73 | rule 3 on one bucket; `CheckJannesLateEvenings` computes it and `JannesLateSubjects` characterises it |
| ConstraintEngine.WeekWarnings | lib/constraints.ts:19-73 | rules 1, 2 and 3 on one bucket, in that order; `CheckWeek` computes it, `WeekMember` and `WeekKindsOrdered` characterise it |
| ConstraintEngine.WeeklyWarnings | lib/constraints.ts:18-74 | the weekly rules over buckets in key order; `WeeklyStep` ties the loop to it, `WeeklyCount` and `WeeklyJustified` characterise it |
| ConstraintEngine.PhysicalBdWarnings | lib/constraints.ts:77-92 | rule 4 over the whole input in its order; `CheckPhysicalBd` computes it and `PhysicalBdExactly` characterises it |
| ConstraintEngine.Warnings | lib/constraints.ts:4-95 | what `checkConstraints` returns; `CheckConstraints` computes it, and the `ConstraintProperties` lemmas characterise it rule by rule |
| ConstraintEngine.InWeekAppend | lib/constraints.ts:10-13 | appending a task extends the bucket of its key by that task and leaves every other bucket as it was |
| ConstraintEngine.WeekKeysCover | lib/constraints.ts:8-15 | the key of every input task is one of the bucket keys |
| ConstraintEngine.WarnAppend | lib/constraints.ts:26-32 | one more task in a `forEach` push adds its warning at the end |
| ConstraintEngine.WarnFilterStep | lib/constraints.ts:81-92 | one more task adds its warning at the end if it passes the test, and nothing otherwise |
| ConstraintEngine.AddToBucket | lib/constraints.ts:9-14 | the `reduce` callback appends the task to the bucket of its key, creating the bucket and recording the key only when it is new |
| ConstraintEngine.GroupStep | lib/constraints.ts:9-14 | one step of the `reduce` keeps the dictionary equal to the buckets of the longer prefix, with keys in first-seen order |
| ConstraintEngine.GroupStepAt | lib/constraints.ts:8-15 | the same step at position `i` of the input |
| ConstraintEngine.GroupByWeek | lib/constraints.ts:8-15 | after the `reduce`, the dictionary has exactly the keys of the input's tasks, in first-seen order, and each bucket holds the tasks of its key in input order |
| ConstraintEngine.PushEach | lib/constraints.ts:26-32 | the `forEach` pushes one warning per task, in order, with the rule's kind and message |
| ConstraintEngine.CheckVincentEvenings | lib/constraints.ts:19-33 | rule 1 appends the bucket's Vincent warnings and nothing else |
| ConstraintEngine.CheckJannesHours | lib/constraints.ts:35-55 | rule 2 appends the bucket's Jannes-hours warnings and nothing else |
| ConstraintEngine.CheckJannesLateEvenings | lib/constraints.ts:57-73 | rule 3 appends the bucket's late-evening warnings and nothing else |
| ConstraintEngine.CheckWeek | lib/constraints.ts:18-74 | one bucket's turn appends the warnings of rules 1, 2 and 3 on that bucket, in that order |
| ConstraintEngine.CheckBdDay | lib/constraints.ts:81-92 | a physical-BD task gets a warning exactly when it is neither on a Wednesday nor on a Friday |
| ConstraintEngine.PhysicalBdStep | lib/constraints.ts:81-92 | each turn of the rule-4 loop keeps the pushed list equal to the warnings for the tasks seen so far |
| ConstraintEngine.CheckPhysicalBd | lib/constraints.ts:76-92 | rule 4 appends one warning per physical-BD task off Wednesday and Friday, in input order |
| ConstraintEngine.WeeklyStep | lib/constraints.ts:18-74 | each turn of the bucket loop keeps the list equal to the weekly warnings of the buckets visited so far |
| ConstraintEngine.CheckConstraints | lib/constraints.ts:4-95 | the method returns exactly `Warnings(tasks)`: the weekly rules bucket by bucket in first-seen order, then rule 4 |
| ConstraintProperties.SubjectsConcat | lib/constraints.ts:5 | the tasks warned about in two lists pushed one after the other are the tasks of the first, then those of the second |
| ConstraintProperties.SubjectsMember | lib/constraints.ts:5 | a task is among a kind's subjects exactly when some warning of that kind refers to it |
| ConstraintProperties.SubjectsWarn | lib/constraints.ts:26-32 | a `forEach` push of one kind warns about exactly its tasks, in order, and about nothing under any other kind |
| ConstraintProperties.WarnMember | lib/constraints.ts:26-32 | every pushed warning refers to one of the pushed tasks and has the push's kind and message |
| ConstraintProperties.VincentSubjects | lib/constraints.ts:20-33 | in one bucket, `vincent-evenings` warns about its late Vincent tasks when they are more than five, and about none otherwise |
| ConstraintProperties.JannesHoursSubjects | lib/constraints.ts:36-55 | in one bucket, `jannes-hours` warns about all its Jannes tasks when their total exceeds 15 hours, and about none otherwise |
| ConstraintProperties.JannesLateSubjects | lib/constraints.ts:58-73 | in one bucket, `jannes-late-evenings` warns about exactly its Jannes weekday tasks ending at 21:00 or later |
| ConstraintProperties.PhysicalBdNotWeekly | lib/constraints.ts:18-74 | no bucket emits a `physical-bd-days` warning |
| ConstraintProperties.WeekMember | lib/constraints.ts:18-74 | every warning of a bucket refers to a task of the bucket that breaks the rule of the warning's kind, and carries that rule's message |
| ConstraintProperties.InWeekCount | lib/constraints.ts:8-15 | a task occurs in the bucket of its own key as often as in the input, and in no other bucket |
| ConstraintProperties.WeekKeysDistinct | lib/constraints.ts:8-18 | no bucket is visited twice |
| ConstraintProperties.WeekKeysOccupied | lib/constraints.ts:10-13 | every bucket key is the key of some input task |
| ConstraintProperties.EveryTaskBucketed | lib/constraints.ts:8-15 | every input task lands in a visited bucket |
| ConstraintProperties.BucketsNonEmpty | lib/constraints.ts:10-13 | no bucket is empty |
| ConstraintProperties.BucketKeepsOrder | lib/constraints.ts:13 | a bucket keeps its tasks in input order |
| ConstraintProperties.WeekKeysFirstSeen | lib/constraints.ts:18 | `Object.values` visits the buckets in first-seen order: some task of an earlier bucket precedes every task of a later one |
| ConstraintProperties.WeeklyCountStep | lib/constraints.ts:18-74 | the weekly warnings about a task add up bucket by bucket |
| ConstraintProperties.WeeklyCount | lib/constraints.ts:18-74 | over distinct keys, the weekly warnings about a task are those of its own bucket, if that bucket is visited |
| ConstraintProperties.WeeklyNoPhysicalBd | lib/constraints.ts:18-74 | the weekly part of the output has no `physical-bd-days` warning |
| ConstraintProperties.WarningsCount | lib/constraints.ts:4-95 | for a weekly rule, the warnings about a task in the whole output are exactly those its own bucket produces |
| ConstraintProperties.VincentEveningsExactly | lib/constraints.ts:20-33 | a task gets one `vincent-evenings` warning per occurrence when it is a late Vincent task whose week holds more than five of them, and none otherwise |
| ConstraintProperties.JannesHoursExactly | lib/constraints.ts:36-55 | a task gets one `jannes-hours` warning per occurrence when it is Jannes's and its week's Jannes total exceeds 15 hours, and none otherwise |
| ConstraintProperties.JannesLateExactly | lib/constraints.ts:58-73 | a task gets one `jannes-late-evenings` warning per occurrence when it is a Jannes task on Monday to Friday ending at 21:00 or later, and none otherwise |
| ConstraintProperties.PhysicalBdExactly | lib/constraints.ts:77-92 | the `physical-bd-days` warnings refer, in input order, to exactly the physical-BD tasks off Wednesday and Friday, whoever they belong to |
| ConstraintProperties.AtMostOncePerKind | lib/constraints.ts:4-95 | a task gets no more warnings of one kind than it has occurrences in the input |
| ConstraintProperties.WeeklyMember | lib/constraints.ts:18-74 | a weekly warning comes from one of the visited buckets |
| ConstraintProperties.WeeklyJustified | lib/constraints.ts:18-74 | every weekly warning is justified by the week of its task |
| ConstraintProperties.WarningJustified | lib/constraints.ts:4-95 | every warning refers to an input task that breaks the rule the warning's kind names, and carries that rule's message |
| ConstraintProperties.OthersOnlyPhysicalBd | lib/constraints.ts:20-92 | Joy and Partners tasks only ever get `physical-bd-days` warnings |
| ConstraintProperties.JannesHoursOneMessage | lib/constraints.ts:47-54 | all `jannes-hours` warnings of one week carry the same message |
| ConstraintProperties.EmptyInput | lib/constraints.ts:4-95 | no tasks give no warnings |
| ConstraintProperties.WarnAt | lib/constraints.ts:26-32 | a push of one kind has one warning per task, and its `i`-th warning is the one for the `i`-th task |
| ConstraintProperties.WarnLength | lib/constraints.ts:26-32 | a push of one kind has one warning per task |
| ConstraintProperties.WarnKindAt | lib/constraints.ts:26-32 | every warning of a push has the push's kind |
| ConstraintProperties.WeekPartKinds | lib/constraints.ts:18-74 | the warnings of each of the three weekly rules all have that rule's kind |
| ConstraintProperties.WeekKindsOrdered | lib/constraints.ts:18-74 | within a bucket, all `vincent-evenings` warnings come first, then `jannes-hours`, then `jannes-late-evenings` |
| ConstraintProperties.WeeklyKind | lib/constraints.ts:18-74 | no weekly warning has kind `physical-bd-days` |
| ConstraintProperties.PhysicalBdOnlyAfter | lib/constraints.ts:76-94 | a warning is `physical-bd-days` exactly when it lies after the whole weekly part |
| ConstraintProperties.PhysicalBdLast | lib/constraints.ts:76-94 | once a `physical-bd-days` warning appears, every later warning is one too |
| ConstraintProperties.TotalMinutesNaN | lib/constraints.ts:37-45 | Jannes's total is NaN exactly when some task has an unparsable time |
| Scenarios.LateDecemberJoinsJanuary | lib/constraints.ts:9 | 2024-12-30 and 2024-01-02 get the same key `2024-01`, although they lie in different weeks |
| Scenarios.NewYearWeekSplit | lib/constraints.ts:9 | 2024-12-31 and 2025-01-01 lie in one week but get different keys |
| Scenarios.FirstWeekdays | lib/constraints.ts:60 | 2024-01-01 is a Monday; January 2, 3 and 6 are Tuesday, Wednesday and Saturday |
| Scenarios.AllVincentLate | lib/constraints.ts:20-33 | more than five late Vincent tasks in one week are each warned about once |
| Scenarios.ScenarioSixVincentEvenings | lib/constraints.ts:20-33 | six late Vincent tasks in one week give six `vincent-evenings` warnings, one per task |
| Scenarios.ScenarioFiveVincentEvenings | lib/constraints.ts:25 | five tasks never trigger `vincent-evenings` |
| Scenarios.SixteenHoursTotal | lib/constraints.ts:37-45 | tasks from 09:00 to 17:00, 09:00 to 13:00 and 14:00 to 18:00 total 960 minutes |
| Scenarios.SixteenHoursText | lib/constraints.ts:50 | 960 minutes print as `16.0` hours |
| Scenarios.SixteenHoursMessage | lib/constraints.ts:50 | the Jannes-hours message for 960 minutes is the full 16.0-hours sentence |
| Scenarios.AllJannesOverLimit | lib/constraints.ts:36-55 | Jannes tasks of one week over 15 hours are each warned about once |
| Scenarios.ScenarioJannesSixteenHours | lib/constraints.ts:36-55 | Jannes's 16-hour week warns about each of the three tasks |
| Scenarios.ScenarioJannesSixteenHoursMessage | lib/constraints.ts:50 | each of those warnings reports 16.0 hours |
| Scenarios.ScenarioPhysicalBdMonday | lib/constraints.ts:81-92 | a physical-BD task on Monday 2024-01-01 is warned about, and on Wednesday 2024-01-03 it is not |
| Scenarios.ScenarioJannesLateTuesday | lib/constraints.ts:58-73 | a Jannes task ending at 21:30 is warned about on Tuesday 2024-01-02 and not on Saturday 2024-01-06 |
| Types.KindName | lib/types.ts:25 | the `type` string of each warning kind, which `dismissWarning` compares at lib/store.ts:112 |
| Types.KindNameInjective | lib/types.ts:25 | distinct kinds have distinct `type` strings, so comparing the strings compares kinds |
| Planner.MergeTask | lib/store.ts:52 | `{ ...task, ...updates }`: every field the update gives wins, the others are kept; `UpdateNothing` and `UpdateTasksIdempotent` are about it |
| Planner.MergeMilestone | lib/store.ts:81 | `{ ...milestone, ...updates }`, field by field |
| Planner.DeleteTasks | lib/store.ts:63 | `deleteTask`'s new list; characterised by `DeleteTasksExactly` |
| Planner.DeleteMilestones | lib/store.ts:88 | `deleteMilestone`'s new list; characterised by `DeleteMilestonesExactly` |
| Planner.KeepsWarning | lib/store.ts:111-113 | `dismissWarning`'s `filter` callback: false exactly for a warning with that task id and `type` string |
| Planner.Dismiss | lib/store.ts:111-113 | `dismissWarning`'s new list; characterised by `DismissExactly` |
| Planner.PlannerStore.Valid | lib/store.ts:38-115 | the warnings on show are a subsequence of `checkConstraints` of the current tasks: task actions reset them to it, other actions keep them or filter them |
| Planner.UpdateTasks | lib/store.ts:51-53 | `updateTask`'s new list has the same length and order, with the update merged into exactly the tasks with that id |
| Planner.UpdateMilestones | lib/store.ts:80-82 | `updateMilestone`'s new list has the same length and order, with the update merged into exactly the milestones with that id |
| Planner.UpdateNothing | lib/store.ts:51-53 | an update with no fields changes no task |
| Planner.UpdateTasksIdempotent | lib/store.ts:51-53 | applying the same task update twice is applying it once, even when it rewrites the id |
| Planner.UpdateMissingId | lib/store.ts:51-53 | an update for an id no task has changes nothing |
| Planner.DeleteTasksExactly | lib/store.ts:63 | `deleteTask` removes every occurrence of the tasks with that id, keeps every occurrence of the others, and keeps their order |
| Planner.DeleteUndoesAdd | lib/store.ts:38-69 | deleting a freshly added task by its fresh id restores the previous list |
| Planner.UpdateMilestonesIdempotent | lib/store.ts:80-82 | applying the same milestone update twice is applying it once |
| Planner.DeleteMilestonesExactly | lib/store.ts:88 | `deleteMilestone` removes exactly the milestones with that id and keeps the others in order |
| Planner.DismissExactly | lib/store.ts:111-113 | `dismissWarning` removes exactly the warnings with that task id and `type`, and keeps the others in order |
| Planner.DismissIdempotent | lib/store.ts:109-115 | dismissing twice is dismissing once |
| Planner.DismissKeepsSubsequence | lib/store.ts:109-115 | dismissing from some of a list's warnings leaves some of them, in order |
| Planner.PlannerStore.constructor | lib/store.ts:33-36 | the store starts with no tasks, milestones or warnings, in week view |
| Planner.PlannerStore.ReplaceTasks | lib/store.ts:40-45 | the new task list replaces the old one and the warnings are recomputed from it; milestones and view are kept |
| Planner.PlannerStore.AddTask | lib/store.ts:38-47 | the task with the fresh id goes at the end, and the warnings are those of the new list |
| Planner.PlannerStore.UpdateTask | lib/store.ts:49-59 | the tasks become `UpdateTasks` of the old ones, and the warnings are recomputed |
| Planner.PlannerStore.DeleteTask | lib/store.ts:61-69 | the tasks with that id are removed, and the warnings are recomputed |
| Planner.PlannerStore.AddMilestone | lib/store.ts:71-76 | the milestone with the fresh id goes at the end; tasks, warnings and view are unchanged |
| Planner.PlannerStore.UpdateMilestone | lib/store.ts:78-84 | only the milestone list changes, by `UpdateMilestones` |
| Planner.PlannerStore.DeleteMilestone | lib/store.ts:86-90 | only the milestone list changes, losing the milestones with that id |
| Planner.PlannerStore.SetView | lib/store.ts:92-94 | only the view changes |
| Planner.PlannerStore.ImportData | lib/store.ts:96-102 | both lists are replaced wholesale, and the warnings are those of the imported tasks |
| Planner.PlannerStore.ExportData | lib/store.ts:104-107 | returns the current tasks and milestones |
| Planner.PlannerStore.DismissWarning | lib/store.ts:109-115 | the warnings become the old ones without that (task id, `type`) pair; the rest of the store is unchanged, and the shown warnings stay a subsequence of the engine's output |
| Planner.DismissalIsForgotten | lib/store.ts:49-115 | a warning dismissed while its condition still holds is back after the next task action |

## Left out

- Persistence is not modelled: the `zustand` `persist` middleware, its storage name and its `partialize`, which saves tasks, milestones and view but not warnings.
- `uuidv4()` is not modelled. The fresh id is a parameter of `AddTask` and `AddMilestone`, and nothing is assumed about its uniqueness.
- `Partial<Task>` updates are records of `Option` fields; `None` is an absent field. For the seven required fields an explicit `undefined` cannot be given, although in the source it would make the field `undefined`. For `notes` and `rrule`, `Some(None)` stands for an explicit `undefined` and clears the field, as the spread does.
- `Omit<Task, 'id'>` is not modelled. The task data passed to `addTask` is a whole `Task` whose id is overwritten.
- Invalid date text is not modelled. Only valid calendar dates are representable, so what `parseISO` and `format` do with malformed text is not captured.
- Years outside 1 to 9999 are not representable. For them the stored text is not four-digit `yyyy-MM-dd`, date-fns prints `yyyy` as an era year (1 - y for y <= 0), and JavaScript's `Date` range ends; none of that is captured.
- Time zones and daylight-saving shifts are not modelled. Dates are the local calendar dates that `parseISO` produces.
- `ConstraintEngine.HoursText`: `toFixed(1)` on the floating-point hour total is modelled as rounding whole minutes to tenths of an hour, half up. Binary rounding of totals such as `x.x5` hours is not captured.
- `ConstraintEngine.OverJannesLimit`: the comparison is on exact minutes. A floating-point total that lands a rounding error away from exactly 15 hours is not captured.
- `Planner.PlannerStore.Valid`: the store invariant only says that the shown warnings are a subsequence of the engine's output. It does not record which pairs were dismissed. `DismissExactly` states exactly what one dismissal removes.
- `rrule` is carried as an opaque optional string. The recurrence expansion is not part of these files.
- `lib/types.ts` is modelled only as the records in `Types`.
- `lib/export.ts`, `lib/utils.ts`, the pages and the UI components are not part of this model.
