# Sprint Planner: a verified model of its task logic

Sprint Planner is a React single-page app for planning work in sprints.
Every page keeps its own list of tasks in component state. Each page filters,
sorts, groups and counts that list, and changes it when the user drags a
task, clicks a status button or fills in a form. This project models that
task logic in Dafny and proves what the pages promise about it.

The model covers these parts:

- **Home** (`home.dfy`). Filtering and sorting of the pending tasks, the sort
  toggles and the filter checkboxes. Also dragging a task into a sprint bucket
  (today, tomorrow, this week, next week), which sets its due date. Also
  removing a task from a sprint, saving changes and adding a task from the form.
- **Backlog** (`backlog.dfy`). The same filter and sort, but the search looks
  at titles only. Also the sort-field cycle button, and the page's status
  handler for a card, which does not touch `updatedAt` (the card never calls it).
- **Next Week** (`nextweek.dfy`). The tasks planned for next week and the
  committed estimate kept against a capacity of 24 points. Also the first three
  suggestions from the backlog and the "Add All Suggestions" loop.
- **Today** (`today.dfy`). Which tasks belong to today and their urgent, then
  high, then rest arrangement. Also the day's statistics, the status buttons of
  a card and the quick note.
- **Reports** (`reports.dfy`). The counts, the velocity and the estimate per
  assignee. Also the task list behind a clicked status or priority, and the five
  most recently completed tasks.
- **Timeline** (`timeline.dfy`). The Monday-to-Sunday week around the
  selected date and the searched tasks bucketed by due day. Also the workload
  colour, the month-grid padding of the date picker, week navigation and
  rescheduling by drop.
- **CapacityBar** (`capacity.dfy`). The percentage, the colour band and the
  message under the bar.
- **AddTask** (`addtask.dfy`). The form state, the subtask handlers (defined
  but not wired to the form) and the blank-title guard on submit.

Shared modules:

- `tasks.dfy`: the `Task` record, days and weekdays, overdue, sums and counts.
- `store.dfy`: the one shape of every update, `tasks.map(t => t.id === id ? {...t, ...} : t)`.
- `query.dfy`: the filter and sort shared by Home and Backlog.
- `text.dfy`: `trim`, `toLowerCase` and `includes`.
- `seqs.dfy`: filter, de-duplication and `slice`.

Modelling conventions:

- **Calendar.** Dates are whole day numbers; day 0 is 1 January 1970, a
  Thursday, so `Weekday(d) == (d + 4) % 7` with Sunday 0, as `getDay()` counts.
- **Timestamps.** Timestamps are milliseconds. `now` and `today` are
  parameters.
- **Ids.** New ids (`Date.now()`) are parameters too.
- **Empty strings.** An empty string stands for an absent optional value,
  matching JavaScript's truthiness tests on strings.
- **Page state.** Each page is a class whose fields are its `useState` cells.
  Each handler is a method that states the whole new state.
- **Derived values.** Values from `useMemo` are functions, with lemmas about them.
- **Loops.** Loops that update variables in the source (`eachDayOfInterval`,
  `getWeekDays`, the committed-estimate reduce, "Add All Suggestions") are
  methods with loop invariants.
- **Sorting.** `Array.prototype.sort` on the filtered list is an insertion
  sort in place on an array that uses the page's comparator.

## Model

| member | source | states |
|---|---|---|
| Tasks.WithStatus | src/pages/Reports.tsx:45-47 | the tasks with a given status, in order: every kept task has it and every task with it is kept |
| Tasks.WithPriority | src/pages/Reports.tsx:64-69 | the tasks with a given priority: exactly those, both directions |
| Tasks.Overdue | src/pages/Reports.tsx:48-50 | exactly the tasks with a due date before now that are not done |
| Tasks.DayOf | src/pages/Today.tsx:186-190 | the calendar day of a timestamp is the day whose start is at or before it and whose end is after it |
| Tasks.WeekdayShift | src/pages/Home.tsx:336-341 | moving k days moves the weekday by k modulo 7; a week later is the same weekday |
| Tasks.SumEstimatesAppend | src/pages/NextWeek.tsx:179 | the estimate sum of two lists joined is the sum of their sums |
| Tasks.SumEstimatesFilterLe | src/pages/Reports.tsx:59-62 | the estimate of any selection of tasks is at most the estimate of all of them |
| Tasks.StatusCountsPartition | src/pages/Reports.tsx:44-47 | the four status counts add up to the number of tasks |
| Tasks.PriorityCountsPartition | src/pages/Reports.tsx:64-69 | the four priority counts add up to the number of tasks |
| Text.TrimEmptyIffBlank | src/components/AddTask.tsx:44 | `trim()` is empty exactly when the string is all whitespace |
| Text.LowerStr | src/pages/Home.tsx:231-232 | lowering keeps the length and lowers each character |
| Text.ContainsEmpty | src/pages/Timeline.tsx:281-284 | every string includes the empty string |
| Text.ContainsSelf | src/pages/Home.tsx:231 | every string includes itself |
| Text.ContainsTransitive | src/pages/Home.tsx:231 | a string that includes one which includes a third includes the third |
| Text.LowerCapitalize | src/pages/Reports.tsx:371 | lowering a capitalised lower-case word gives the word back |
| Seqs.Filter | src/pages/Home.tsx:230 | `Array.filter`: no longer than the input; an element is kept exactly when it is in the input and passes |
| Seqs.Take | src/pages/NextWeek.tsx:215 | `slice(0, n)`: at most n elements, the first ones, all of them when there are fewer |
| Seqs.Dedup | src/pages/Home.tsx:389-390 | `[...new Set(xs)]`: no duplicates and the same elements as the input |
| Seqs.DedupFirstOccurrenceOrder | src/pages/Home.tsx:389-390 | the set keeps first occurrences in list order |
| Seqs.FilterAppend | src/pages/Today.tsx:196-201 | filtering a concatenation concatenates the filtered parts |
| Seqs.FilterPartitionMultiset | src/pages/Today.tsx:196-201 | three filters that split every element one way together hold the list's multiset |
| Store.DueDateFor | src/pages/Home.tsx:326-343 | a due date is set exactly for the four sprint buckets, and it lies within the next thirteen days |
| Store.DueDateForSaturdays | src/pages/Home.tsx:326-343 | the drop targets set due today, tomorrow, the coming Saturday and the Saturday a week after it |
| Store.ApplyTo | src/pages/Home.tsx:324-346 | an update changes only sprint, due date, status and `updatedAt`: id, title, estimate, tags and `createdAt` stay |
| Store.Apply | src/pages/Home.tsx:356-358 | the `map` by id: the same length and ids; tasks with another id unchanged; tasks with the id updated |
| Store.MutationEffects | src/pages/Home.tsx:320-361 | each kind of update sets exactly the fields its handler sets |
| Store.ApplyKeepsIds | src/pages/NextWeek.tsx:218-224 | an update keeps the list of ids |
| Store.ApplyKeepsInvariants | src/pages/Home.tsx:320-361 | an update keeps ids unique and `createdAt` at or before `updatedAt` |
| Store.ApplyIdempotent | src/pages/NextWeek.tsx:218-224 | applying the same update twice is applying it once |
| Query.Cleared | src/pages/Home.tsx:290-299 | the cleared filter admits every task |
| Query.SearchAdmits | src/pages/Home.tsx:231-233 | an empty search admits every task, and a hit in the lowered title admits it on either page |
| Query.ValueAdmits | src/pages/Home.tsx:236-242 | an empty status or priority list admits every task, and so does a list holding the task's value |
| Query.TagsAdmit | src/pages/Home.tsx:244-247 | an empty tag list admits every task; a non-empty one rejects a task without tags |
| Query.AssigneeAdmits | src/pages/Home.tsx:248-250 | an empty assignee list admits every task, and a task without an assignee is never rejected |
| Query.Matches | src/pages/Home.tsx:230-253 | the filter's guard chain admits a task exactly when search, status, priority, tags and assignee all admit it |
| Query.FilterTasks | src/pages/Home.tsx:230-253 | exactly the admitted tasks, both directions |
| Query.ClearedKeepsAll | src/pages/Home.tsx:290-299 | cleared filters keep every task in order |
| Query.DueDateRangeIgnored | src/pages/Home.tsx:230-253 | the due-date range never affects the filter |
| Query.NarrowingNeverAdmits | src/pages/Home.tsx:230-253 | a stricter filter admits only what the looser one admits |
| Query.ConstrainingEmptyDimensionNarrows | src/pages/Home.tsx:236-250 | checking the first box of an empty status, priority, tag or assignee dimension narrows the filter |
| Query.CheckingWidens | src/pages/Home.tsx:611-616 | checking another box of an already constrained status, priority, tag or assignee dimension never drops a task |
| Query.Rank | src/pages/Home.tsx:260 | priority ranks are 1 (low) to 4 (urgent) |
| Query.SortKey | src/pages/Home.tsx:258-278 | the key is `Infinity` exactly for a missing due date under the due-date sort; priority keys are 1 to 4 |
| Query.Compare | src/pages/Home.tsx:255-285 | the comparator returns 1 or -1, and 1 exactly when the pair is out of order for the field and direction |
| Query.CompareNeverTies | src/pages/Home.tsx:280-284 | equal keys give -1 both ways round: the comparator never returns 0 |
| Query.InOrderPreorder | src/pages/Home.tsx:255-285 | the sort order is total and transitive, undated tasks last ascending |
| Query.SwapStep | src/pages/Home.tsx:255 | one swap of the insertion keeps the sorted prefix around the moving element |
| Query.SortInPlace | src/pages/Home.tsx:255-285 | the array ends sorted by the field and direction and is a permutation of what it held |
| Query.View | src/pages/Home.tsx:229-288 | the view is a permutation of the filtered tasks, sorted |
| Query.ClearedViewIsPermutation | src/pages/Home.tsx:290-299 | with cleared filters the view is a permutation of all tasks |
| Query.UndatedSortLast | src/pages/Home.tsx:265-267 | ascending by due date, the tasks without one form a suffix |
| Query.InitialSort | src/pages/Home.tsx:220 | the initial sort puts a task before another exactly when its priority rank is at least the other's |
| Query.PriorityDescendingRanks | src/pages/Home.tsx:220 | in the initial sort priority ranks never rise |
| Query.ToggleSort | src/pages/Home.tsx:301-307 | the field becomes the clicked one; the same field flips direction, a new field starts descending |
| Query.ToggleTwice | src/pages/Home.tsx:301-307 | clicking the current field twice restores the sort |
| Query.FieldIndex | src/pages/Backlog.tsx:431-432 | `indexOf` finds the field in the cycle |
| Query.CycleSort | src/pages/Backlog.tsx:430-435 | the cycle button moves to another field, descending |
| Query.CycleFourTimes | src/pages/Backlog.tsx:430-435 | four clicks return to the same field, descending |
| Query.CheckboxUpdate | src/pages/Home.tsx:611-616 | checking appends the value; unchecking removes every copy and keeps the rest |
| Query.SetDimension | src/pages/Home.tsx:611-616 | a checkbox sets one dimension and keeps the others, the search and the range |
| Query.Assignees | src/pages/Home.tsx:389 | the assignees present: each is some task's, and every task's assignee is among them |
| Query.AllTags | src/pages/Home.tsx:390 | `flatMap` of the tags: each is some task's tag and every task's tags are among them |
| Query.UniqueAssignees | src/pages/Home.tsx:389 | the assignee options: no duplicates, never empty, and all assignees present |
| Query.UniqueTags | src/pages/Home.tsx:390 | the tag options: no duplicates, and exactly the tags present |
| Home.NewTask | src/pages/Home.tsx:369-383 | the new task is a to-do with estimate 0, the form's title and description, priority high or medium as chosen and low otherwise, the category as its only tag, no assignee and no sprint |
| Home.AddTaskKeepsInvariants | src/pages/Home.tsx:385 | adding a task with a fresh id keeps ids unique and timestamps ordered, and the task is among the store's unsprinted tasks |
| Home.InSprint | src/pages/Home.tsx:416 | exactly the tasks in the selected sprint |
| Home.Unsprinted | src/pages/Home.tsx:823 | exactly the tasks without a sprint |
| Home.DropMovesIntoBucket | src/pages/Home.tsx:320-353 | after a drop the task is listed in the target sprint and no longer among the unsprinted tasks |
| Home.RemoveReturnsToUnsprinted | src/pages/Home.tsx:355-361 | after a removal the task has no sprint and no due date and is among the store's unsprinted tasks |
| Home.UnsprintedShownIffAdmitted | src/pages/Home.tsx:823 | an unsprinted task of the store appears in the unsprinted part of the filtered, sorted view exactly when the filter admits it |
| Home.BucketsDisjointFromUnsprinted | src/pages/Home.tsx:416 | no task is both in a sprint bucket and unsprinted |
| Home.HomePage.constructor | src/pages/Home.tsx:211-227 | the initial state: the tasks, cleared filters, priority descending, nothing dragged or selected or pending |
| Home.HomePage.FilteredAndSortedTasks | src/pages/Home.tsx:229-288 | the list shown is a permutation of the filtered tasks, sorted |
| Home.HomePage.ClearFilters | src/pages/Home.tsx:290-299 | filters cleared, all else kept |
| Home.HomePage.ToggleSortField | src/pages/Home.tsx:301-307 | the sort toggled, all else kept |
| Home.HomePage.SetSearch | src/pages/Home.tsx:560 | the search text set, all else kept |
| Home.HomePage.ToggleCheckbox | src/pages/Home.tsx:611-616 | the one dimension updated by the checkbox, all else kept |
| Home.HomePage.SelectSprint | src/pages/Home.tsx:223 | the sprint selected, all else kept |
| Home.HomePage.HandleDragStart | src/pages/Home.tsx:309-313 | the dragged task remembered, all else kept |
| Home.HomePage.HandleDrop | src/pages/Home.tsx:320-353 | nothing changes without a dragged task; otherwise the task is moved into the target with its due date, changes are pending and nothing is dragged |
| Home.HomePage.HandleRemoveFromSprint | src/pages/Home.tsx:355-361 | the task loses sprint and due date; changes are pending |
| Home.HomePage.HandleSubmitChanges | src/pages/Home.tsx:363-367 | nothing pending, the tasks kept |
| Home.HomePage.HandleAddTask | src/pages/Home.tsx:369-387 | the new task appended at the end; changes are pending |
| Backlog.SearchIgnoresDescription | src/pages/Backlog.tsx:241-245 | the Backlog filter never looks at the description |
| Backlog.TitleOnlyNarrowerThanHome | src/pages/Backlog.tsx:241-245 | whatever the Backlog search admits, the Home search admits |
| Backlog.DescriptionOnlyMatch | src/pages/Backlog.tsx:241-245 | for any task and search text found in its lowered description but not its lowered title, Home's filter admits the task and Backlog's does not |
| Backlog.StatusChangeKeepsUpdatedAt | src/pages/Backlog.tsx:734 | the status handler replaces the status only, keeping `updatedAt` |
| Backlog.BacklogPage.constructor | src/pages/Backlog.tsx:228-237 | the initial state: the tasks, cleared filters, priority descending |
| Backlog.BacklogPage.FilteredAndSortedTasks | src/pages/Backlog.tsx:241-294 | a permutation of the title-searched filtered tasks, sorted |
| Backlog.BacklogPage.FilterOptions | src/pages/Backlog.tsx:316-317 | the assignee and tag options: no duplicates, no empty assignee, every assignee and tag present |
| Backlog.BacklogPage.ClearFilters | src/pages/Backlog.tsx:296-305 | filters cleared, all else kept |
| Backlog.BacklogPage.SetSearch | src/pages/Backlog.tsx:402 | the search text set, all else kept |
| Backlog.BacklogPage.ToggleSortField | src/pages/Backlog.tsx:307-313 | the sort toggled, all else kept |
| Backlog.BacklogPage.CycleSortField | src/pages/Backlog.tsx:430-435 | the next field of the cycle, modulo 4, descending |
| Backlog.BacklogPage.ToggleCheckbox | src/pages/Backlog.tsx:471-477 | one dimension updated by the checkbox, all else kept |
| Backlog.BacklogPage.ChangeStatus | src/pages/Backlog.tsx:733-735 | the status of the task with the id replaced, filters and sort kept |
| NextWeek.NextWeekTasks | src/pages/NextWeek.tsx:174-176 | exactly the tasks in the 'next-week' sprint |
| NextWeek.Suggested | src/pages/NextWeek.tsx:208-216 | the first three backlog to-do urgent or high tasks in store order, or all of them when there are fewer |
| NextWeek.SuggestedIgnoresLater | src/pages/NextWeek.tsx:215 | tasks after the first three suggestible ones never change the suggestions |
| NextWeek.MovedIsInNextWeek | src/pages/NextWeek.tsx:218-224 | a moved task is in next week and no longer suggestible |
| NextWeek.MoveLeavesSuggestions | src/pages/NextWeek.tsx:218-224 | after a move the task is no longer suggested and is among next week's tasks |
| NextWeek.CommittedCons | src/pages/NextWeek.tsx:179 | the committed estimate is the first task's, if planned, plus the rest's |
| NextWeek.MoveNeverLowersCommitted | src/pages/NextWeek.tsx:218-224 | moving a task into next week never lowers the committed estimate |
| NextWeek.MoveStep | src/pages/NextWeek.tsx:447 | moving the next suggested task extends the moved prefix by one |
| NextWeek.MovedStateStep | src/pages/NextWeek.tsx:447 | after one more move, exactly the tasks whose id is among the moved ones have sprint 'next-week' and the click's time; every other task is as it was |
| NextWeek.NextWeekPage.constructor | src/pages/NextWeek.tsx:167-172 | the initial state: committed is the estimate of next week's tasks, capacity 24 points |
| NextWeek.NextWeekPage.UpdateCapacity | src/pages/NextWeek.tsx:178-185 | committed becomes the estimate summed over next week's tasks; capacity and unit kept |
| NextWeek.NextWeekPage.HandleDrop | src/pages/NextWeek.tsx:196-206 | the dropped task is in next week, updated now; the committed estimate follows |
| NextWeek.NextWeekPage.MoveTaskToNextWeek | src/pages/NextWeek.tsx:218-224 | the same move; the committed estimate never drops |
| NextWeek.NextWeekPage.ChangeStatus | src/pages/NextWeek.tsx:326-331 | the status and update time of the task set; the committed estimate follows |
| NextWeek.NextWeekPage.AddAllSuggestions | src/pages/NextWeek.tsx:446-448 | the whole new store: each task suggested beforehand gets sprint 'next-week' and the click's time, every other task is unchanged; ids kept; the committed estimate follows |
| Today.TodaysTasks | src/pages/Today.tsx:185-194 | exactly the tasks due today, or in this week's sprint and in progress or updated today |
| Today.Group | src/pages/Today.tsx:196-201 | the group of a task is urgent, high or other |
| Today.ByPriority | src/pages/Today.tsx:196-202 | the arrangement is as long as today's tasks and a permutation of them |
| Today.ByPriorityGrouped | src/pages/Today.tsx:196-202 | groups never rise along the arrangement |
| Today.PartitionLength | src/pages/Today.tsx:197-199 | the three groups together are as long as the list |
| Today.ByPriorityKeepsGroupOrder | src/pages/Today.tsx:196-202 | within each group the original order is kept |
| Today.DoneAndOverdueFit | src/pages/Today.tsx:205-211 | done and overdue tasks together are at most all of them |
| Today.StatsOf | src/pages/Today.tsx:204-215 | the three status counts fit in today's tasks, and so do done plus overdue |
| Today.Actions | src/pages/Today.tsx:363-397 | the buttons offered: finish unless done; start exactly for to-do and blocked; pause exactly for in progress; never the current status |
| Today.TodayPage.constructor | src/pages/Today.tsx:182-183 | the tasks and an empty note |
| Today.TodayPage.UpdateTaskStatus | src/pages/Today.tsx:217-223 | the status and update time of the task set |
| Today.TodayPage.SetQuickNote | src/pages/Today.tsx:441 | the note text set |
| Today.TodayPage.CanSaveNote | src/pages/Today.tsx:447 | the save button is enabled exactly when the note is not blank |
| Today.TodayPage.AddQuickNote | src/pages/Today.tsx:225-230 | a blank note is kept; any other is cleared; tasks kept |
| Reports.AssigneeStats | src/pages/Reports.tsx:71-76 | the empty name has no entry, and every entry belongs to an assignee of some task |
| Reports.AssigneeStatsKeys | src/pages/Reports.tsx:71-76 | an assignee has an entry exactly when some task has them; the empty name never has one |
| Reports.AssignedToSnoc | src/pages/Reports.tsx:72-74 | one more task adds its estimate to its assignee's total only |
| Reports.AssigneeStatsSums | src/pages/Reports.tsx:71-76 | each assignee's entry is the summed estimate of their tasks |
| Reports.AnalyticsOf | src/pages/Reports.tsx:43-90 | status counts fit in the total, priority counts add up to it, velocity is at most the total estimate |
| Reports.StatusClick | src/pages/Reports.tsx:92-95 | the caption is selected as the status; the priority is kept |
| Reports.PriorityClick | src/pages/Reports.tsx:97-101 | the caption is selected as the priority and the status cleared |
| Reports.FilteredTasks | src/pages/Reports.tsx:103-120 | the listed tasks are tasks of the list, no more of them than there are; nothing is listed when nothing is selected |
| Reports.StatusLabels | src/pages/Reports.tsx:103-114 | the four captions list exactly the done, in-progress, blocked and overdue tasks |
| Reports.OtherStatusLabel | src/pages/Reports.tsx:105-113 | any other status caption lists nothing |
| Reports.PriorityNameLower | src/pages/Reports.tsx:117 | the priority names are lower-case words |
| Reports.PriorityClickSelects | src/pages/Reports.tsx:115-118 | clicking a priority row lists exactly the tasks of that priority |
| Reports.InsertNewest | src/pages/Reports.tsx:444 | inserting into a newest-first list keeps it newest-first and adds exactly that task |
| Reports.SortNewestFirst | src/pages/Reports.tsx:444 | newest first, a permutation of the input |
| Reports.SortedFromInput | src/pages/Reports.tsx:444 | sorting adds no task |
| Reports.RecentActivity | src/pages/Reports.tsx:442-445 | at most five tasks, newest first |
| Reports.RecentActivityDone | src/pages/Reports.tsx:443 | every listed task is a done task of the input |
| Reports.RecentActivityIsNewest | src/pages/Reports.tsx:442-445 | five tasks are listed or all done ones; no done task left out is newer than the last one shown |
| Timeline.EachDayOfInterval | src/pages/Timeline.tsx:40-48 | the days from start to end inclusive, consecutive; none when start is after end |
| Timeline.WeekStart | src/pages/Timeline.tsx:268-270 | the week start is a Monday at most six days before the date |
| Timeline.WeekStartShift | src/pages/Timeline.tsx:298-302 | a week later the week starts seven days later |
| Timeline.GetWeekDays | src/pages/Timeline.tsx:265-278 | seven consecutive days from a Monday, containing the selected date |
| Timeline.SearchFilter | src/pages/Timeline.tsx:280-285 | exactly the tasks whose lowered title or description includes the lowered term |
| Timeline.EmptySearchKeepsAll | src/pages/Timeline.tsx:280-285 | the empty term keeps every task |
| Timeline.DueOn | src/pages/Timeline.tsx:289-293 | exactly the tasks due on the day; undated tasks never |
| Timeline.TasksForWeek | src/pages/Timeline.tsx:287-296 | one bucket per day, each the searched tasks due that day |
| Timeline.BucketsExact | src/pages/Timeline.tsx:287-296 | a task is in a day's bucket exactly when it matches and is due that day; no task is in two buckets |
| Timeline.EachEstimateAtMostSum | src/pages/Timeline.tsx:330-332 | each task's estimate is at most the summed estimate of its list |
| Timeline.TotalEstimate | src/pages/Timeline.tsx:330-332 | the summed estimate of the day's tasks: zero for none and at least each task's estimate |
| Timeline.WorkloadColor | src/pages/Timeline.tsx:334-339 | empty for 0, green up to 5, yellow up to 10, red above |
| Timeline.WorkloadMonotone | src/pages/Timeline.tsx:334-339 | more work never shows a lighter colour |
| Timeline.PaddingDays | src/pages/Timeline.tsx:218 | 0 to 6 cells, 6 exactly for a Sunday, the weekday counted from Monday |
| Timeline.PaddingIsOffsetFromMonday | src/pages/Timeline.tsx:218 | the padding is the distance from the week's Monday |
| Timeline.Navigate | src/pages/Timeline.tsx:298-302 | seven days on or back |
| Timeline.NavigateRoundTrip | src/pages/Timeline.tsx:298-302 | next then previous comes back, and the week moves by seven days |
| Timeline.TimelinePage.constructor | src/pages/Timeline.tsx:260-263 | the tasks, the date, an empty search, the picker closed |
| Timeline.TimelinePage.NavigateWeek | src/pages/Timeline.tsx:298-302 | the selected date moves a week, all else kept |
| Timeline.TimelinePage.HandleDateChange | src/pages/Timeline.tsx:309-312 | the date selected and the picker closed |
| Timeline.TimelinePage.ToggleDatePicker | src/pages/Timeline.tsx:409 | the picker opens when closed and closes when open; all else kept |
| Timeline.TimelinePage.CloseDatePicker | src/pages/Timeline.tsx:505 | the picker closed; all else kept |
| Timeline.TimelinePage.SetSearchTerm | src/pages/Timeline.tsx:400 | the search term set |
| Timeline.TimelinePage.HandleDrop | src/pages/Timeline.tsx:318-328 | the task is due on the day dropped on, updated now |
| Timeline.TimelinePage.WeekBuckets | src/pages/Timeline.tsx:287-296 | seven buckets, from the week's Monday, each the searched tasks due that day |
| CapacityBar.Percentage | src/components/CapacityBar.tsx:11 | at most 100, 100 exactly when committed reaches capacity, otherwise the share rounded down |
| CapacityBar.PercentageThreshold | src/components/CapacityBar.tsx:16 | the rounded percentage reaches a whole threshold exactly when the exact share does |
| CapacityBar.ColorBand | src/components/CapacityBar.tsx:14-24 | red exactly when over capacity; orange exactly from 80 percent up to capacity; green below 80 percent |
| CapacityBar.BandMonotone | src/components/CapacityBar.tsx:14-24 | more committed work never gives a calmer colour |
| CapacityBar.BarWidth | src/components/CapacityBar.tsx:39 | the width is the percentage, at most 100 |
| CapacityBar.StatusMessage | src/components/CapacityBar.tsx:45-57 | "over by" exactly when over capacity, by a positive amount; "remaining" exactly in the orange band, at most 20 percent; otherwise "available" |
| CapacityBar.ThresholdsAtTwentyFour | src/components/CapacityBar.tsx:14-24 | at a capacity of 24 the bar turns orange exactly from 20 to 24 and red exactly from 25 |
| AddTask.SetField | src/components/AddTask.tsx:38-41 | the named field set; every other field and the subtasks kept |
| AddTask.SetFieldLastWins | src/components/AddTask.tsx:38-41 | of two edits of a field the last one wins |
| AddTask.SetFieldSameValue | src/components/AddTask.tsx:38-41 | writing a field's own value changes nothing |
| AddTask.RemoveSubtask | src/components/AddTask.tsx:55-60 | exactly the subtasks with another id are kept, in order, and nothing is added |
| AddTask.RemoveAbsentSubtask | src/components/AddTask.tsx:55-60 | removing an absent id changes nothing |
| AddTask.RemoveSubtaskIdempotent | src/components/AddTask.tsx:55-60 | removing twice is removing once |
| AddTask.RemoveSubtaskAppend | src/components/AddTask.tsx:55-60 | removal works piecewise over a concatenation |
| AddTask.AddTaskForm.constructor | src/components/AddTask.tsx:27-36 | the empty form with priority medium and no subtasks |
| AddTask.AddTaskForm.HandleInputChange | src/components/AddTask.tsx:38-41 | the field of the input set |
| AddTask.AddTaskForm.HandleAddSubtask | src/components/AddTask.tsx:43-53 | a blank text changes nothing; otherwise a new, not completed subtask with the text is appended and the text cleared |
| AddTask.AddTaskForm.HandleRemoveSubtask | src/components/AddTask.tsx:55-60 | the subtasks with the id removed |
| AddTask.AddTaskForm.HandleSubmit | src/components/AddTask.tsx:62-68 | the form is handed on exactly when the title is not blank |

## Left out

- Rendering, animation, drag-image and hover state, modals, the export dropdown, and `DataTransfer` are not modelled. A drop carries the dragged task's id directly.
- Dates are parsed from ISO strings (`new Date(...)`, `toISOString().split('T')[0]`, `toDateString()`) in local time or UTC; the model uses plain day numbers and does not model time zones.
- The clock (`new Date()`, `Date.now()`) and id generation are parameters (`now`, `today`, `freshId`).
- Home.NewTask: the form's due-date string is passed in already parsed as a day (`dueDay`), and its due time and subtasks, which the new task drops, are not carried over. The source reads the clock three times (`Date.now()` for the id, two `new Date()` calls for `createdAt` and `updatedAt`), which can differ by a millisecond; both stamps use one `now`, and the id is a separate parameter.
- Reports.AnalyticsOf: the completion rate and sprint progress are floating-point percentages and are not modelled; neither are the this-week counts they are computed from.
- CapacityBar.Percentage: the share is rounded down to a whole percent rather than kept as a float; comparisons with 80 and 100 are unaffected. A capacity of 0 is excluded: JavaScript's division gives `Infinity` or `NaN` there, which have no integer counterpart. No page in the source renders `CapacityBar`; Next Week draws its own progress bar.
- CapacityBar.StatusMessage: `toFixed(0)` rounds the remaining share to the nearest whole percent; the model shows 100 minus the rounded-down percentage.
- Reports' `timeframe` selector changes nothing in the analytics and is not modelled.
- `console.log` of a saved quick note and the timed "saved" message after submitting changes are not modelled.
- Query.SortInPlace: the browser's sort algorithm is not modelled. The comparator returns -1 in both orders for equal keys, so it is not consistent, and ECMAScript then leaves the whole result order to the implementation, not only the order of ties. The model assumes an engine that still returns a key-sorted permutation, as a merge or insertion sort does, and claims only that the result is sorted by key and is a permutation of the input.
- Reports.SortNewestFirst: the order among tasks updated at the same moment is not stated.
- Lower-casing is ASCII only; Unicode case mapping is not modelled.
- The object key order of `assigneeStats` (`Object.entries`) is not modelled; assignee totals are a map.
- Backlog.BacklogPage.ChangeStatus: Backlog's `TaskCard` takes `onStatusChange` but never calls it, so a Backlog task's status never changes on that page. This member and Backlog.StatusChangeKeepsUpdatedAt model the handler as written, which the page cannot reach.
- NextWeek.NextWeekPage.AddAllSuggestions: all moves use one `now`, as the calls happen in one click.
- AddTask.AddTaskForm.HandleAddSubtask: `handleAddSubtask` is defined but never called from the form, and no input writes `newSubtask`. HandleAddSubtask and HandleRemoveSubtask model the handlers as written, which the page cannot reach with a non-empty subtask list.
- NextWeek.NextWeekPage: the `useEffect` that recomputes the committed estimate is modelled as running right after every change of the tasks.
- The Timeline date picker's month navigation (`addMonths`, `subMonths`) and its calendar of days are not modelled beyond the padding.
- The demonstration data (`mockTasks`) of each page is not modelled; each page's constructor takes the initial tasks.
