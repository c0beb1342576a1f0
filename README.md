# Backlog board and stand-up planner: a Dafny model

The application is a small team-planning tool with two pages. The backlog page shows the
team's tasks on a Kanban board. It has an "Unassigned" column and one column per team
member. Cards can be dragged within a column or between columns, and dragging a card to
another column reassigns the task. Tasks can be replaced by uploading two Jira CSV exports:
a "new items" file (key, summary, story points) and a "status" file (key, status, assignee
name). The task list can be exported as CSV. A bar chart shows each member's open story
points. A balancing service can be asked to propose reassignments. It is sent a snapshot of
every member's load and capacity; its proposals can then be applied, which rebuilds the
board. The stand-up page holds one plan text and one capacity flag per member and calendar
day.

This project models the data engine behind those pages:

- `Types` holds the records of `src/types/index.ts`. A board is a task map, the insertion
  order of its keys, a column map and a column order.
- `MockData` holds the sample roster, tasks and stand-up entries, the option tables, and the
  capacity-flag to story-point table.
- `SeqUtil` models JavaScript `splice` for one element. It also models the key order of a
  `Map` or an object, which is first insertion, and an object filled by a `reduce`.
- `Board` models the board projection `initialBoardData`. It defines the consistency
  invariant, under which every task sits in exactly the column its assignee names, and
  proves that the projection establishes it.
- `Drag` models the drop reducer `onDragEnd` on board values, and proves what a drop keeps.
- `Balancing` models the balancer snapshot and the application of its suggestions.
- `BacklogHook` is the backlog page state as a class. Its methods model the handlers: the
  drop, the upload, the balancing request and the application of suggestions.
- `Decimal` models `Number(text)` on integer numerals and the decimal rendering of integers.
- `CsvMerge` models the two-pass keyed merge `processUploadedCsvs`. It has a specification
  and a loop-based method that is proved against it.
- `CsvExport` models the export rows, and proves that the import reads an export back.
- `KanbanRender` models how the board component resolves columns and tasks.
- `WorkloadChart` models the chart's bars.
- `Standup` models the stand-up planner state, its edits, the default entries and the load of a day's entries as written, with seed entries dated on the UTC day the sample data were loaded on.

## Model

| member | source | states |
|---|---|---|
| Types.StatusLabelsDeclaredAndDistinct | src/types/index.ts:17 | each of the five statuses has one of the five declared texts, and distinct statuses have distinct texts |
| Types.TotalStoryPointsAppend | src/components/backlog/workload-chart.tsx:22 | the story-point sum of a concatenation is the sum of the parts' sums |
| MockData.MockInitialDailyEntries | src/lib/mock-data.ts:22-32 | the seed entries are one per sample member, in roster order, each for that member and all dated the given day |
| MockData.GetCapacityInStoryPoints | src/lib/mock-data.ts:51-58 | the budget is always 8, 4 or 0; it is 8 exactly for "available" and 0 exactly for "at_limit" |
| MockData.CapacityMonotone | src/lib/mock-data.ts:52-57 | the budget never increases from available to partial to at_limit |
| MockData.CapacityOptionsComplete | src/lib/mock-data.ts:34-38 | the capacity options list each flag exactly once, and the first is "available" |
| MockData.TaskStatusOptionsComplete | src/lib/mock-data.ts:40 | the status options have five entries and list each status exactly once |
| MockData.MockDataWellFormed | src/lib/mock-data.ts:3-18 | sample member ids are distinct, non-empty and not "unassigned"; sample task ids are distinct; every sample assignee is null or a sample member id |
| SeqUtil.RemoveAt | src/hooks/use-backlog-data.ts:117 | removing at an index inside the list drops exactly that element and shifts the later ones down; an index past the end removes nothing |
| SeqUtil.InsertAt | src/hooks/use-backlog-data.ts:118 | inserting adds exactly the new element, at the index or at the end when the index is past the end, and keeps every old element in order around it |
| SeqUtil.FirstAppearanceSpec | src/lib/utils.ts:59-79 | a map's key order lists every inserted key exactly once and nothing else |
| SeqUtil.FirstAppearanceOfDistinct | src/hooks/use-backlog-data.ts:13-16 | when no key repeats, the key order is the insertion order |
| SeqUtil.FirstAppearanceSnoc | src/lib/utils.ts:61 | setting a new key appends it to the key order; re-setting a present key leaves the order alone |
| SeqUtil.FirstAppearanceAppend | src/lib/utils.ts:69-79 | keys first inserted by a later pass come after all keys of the earlier pass, which keep their order |
| SeqUtil.FirstAppearanceCovered | src/lib/utils.ts:69-79 | a later pass that only sets keys already present leaves the key order unchanged |
| SeqUtil.IndexByKeys | src/hooks/use-backlog-data.ts:13-16 | the keys of the object built by the reduce are exactly the keys of the listed elements |
| SeqUtil.IndexByLate | src/hooks/use-backlog-data.ts:13-16 | last write wins: the stored element for a key is one that comes no earlier than any given element with that key |
| SeqUtil.IndexByDistinct | src/hooks/use-backlog-data.ts:13-16 | with distinct keys, each element is stored under its own key |
| Board.MemberColumns | src/hooks/use-backlog-data.ts:24-28 | there is one member column per roster member |
| Board.TaskValues | src/hooks/use-backlog-data.ts:153 | `Object.values` gives one task per key, in key insertion order |
| Board.SelectedIdsMembership | src/hooks/use-backlog-data.ts:21-27 | a column lists an id exactly when some task with that id passes the column's filter (both directions) |
| Board.SelectedIdsCount | src/hooks/use-backlog-data.ts:21-27 | with distinct task ids, a column lists a task once if the task passes the filter and otherwise not at all |
| Board.SelectedIdsOrder | src/hooks/use-backlog-data.ts:21-27 | a column keeps input order: of two selected tasks, the earlier one is listed first |
| Board.TaskMapOfSpec | src/hooks/use-backlog-data.ts:13-16 | every task id is a key; every key is some task's id and stores a task with that id; with distinct ids each task is stored as given |
| Board.BuildColumnList | src/hooks/use-backlog-data.ts:30 | the column list has one more entry than the roster, and its ids are the column order in sequence |
| Board.BuildColumnKeys | src/hooks/use-backlog-data.ts:30-35 | the column map's keys are exactly the ids in the column order, and each column is stored under its own id |
| Board.BuildMemberColumn | src/hooks/use-backlog-data.ts:24-33 | each member's key holds exactly that member's task ids |
| Board.BuildUnassignedColumn | src/hooks/use-backlog-data.ts:18-33 | unless a member claims the id, the "unassigned" key holds exactly the tasks with a falsy assignee |
| Board.BuildColumns | src/hooks/use-backlog-data.ts:18-35 | the column map of a build as a whole: its keys, ids, member columns and unassigned column |
| Board.BuildShape | src/hooks/use-backlog-data.ts:18-35 | the column order is "unassigned" then the member ids in roster order, and every id in it has a column; a member column lists an id exactly when a task with that id is assigned to the member, and the unassigned column exactly when its assignee is falsy |
| Board.BuildTaskKeys | src/hooks/use-backlog-data.ts:13-16 | the task key order has no repeats, lists exactly the stored keys, and each task is stored under its own id |
| Board.ColumnOrderDistinct | src/hooks/use-backlog-data.ts:35 | a well-formed roster gives a column order without repeats |
| Board.InitialBoardData | src/hooks/use-backlog-data.ts:12-42 | the projection `initialBoardData`: the column order has one more entry than the roster, "unassigned" first and then each member id in roster order |
| Board.BuildWellKeyed | src/hooks/use-backlog-data.ts:12-42 | any task list and well-formed roster build a structurally well-formed board |
| Board.BuildColumnCount | src/hooks/use-backlog-data.ts:18-28 | with distinct ids and a known assignee, a column lists a task once when it is the task's column, and not at all otherwise |
| Board.BuildColumnMembers | src/hooks/use-backlog-data.ts:18-28 | columns list only ids of input tasks |
| Board.BuildConsistent | src/hooks/use-backlog-data.ts:13-28 | with unique ids, a well-formed roster and only null or roster assignees, each task id sits in exactly one column, the one named by `assigneeId ?? "unassigned"`, and columns list only known tasks |
| Board.BuildColumnOmits | src/hooks/use-backlog-data.ts:21-27 | no column lists a task whose assignee is a non-empty id outside the roster |
| Board.BuildOrphansUnknownAssignee | src/hooks/use-backlog-data.ts:13-28 | a task whose assignee is not a roster id stays in the task map but appears in no column |
| Board.BuildAssigneesKnown | src/hooks/use-backlog-data.ts:13-16 | a build from tasks with roster assignees stores only such tasks |
| Board.RebuildIdempotent | src/hooks/use-backlog-data.ts:12-16 | with distinct ids, `Object.values` of a build's task map gives back the input list |
| Board.TaskValuesIds | src/hooks/use-backlog-data.ts:153 | the values of a well-keyed board carry the key order as their ids, so those ids are distinct |
| Board.TaskMapOfValues | src/hooks/use-backlog-data.ts:203 | indexing a well-keyed board's values by id gives back its task map |
| Board.RebuildKeepsTasks | src/hooks/use-backlog-data.ts:203 | rebuilding from `Object.values` keeps the task map and its key order |
| Board.RebuildConsistent | src/hooks/use-backlog-data.ts:203 | rebuilding a well-keyed board with roster assignees gives a consistent board with the same tasks and the roster's column order |
| Board.ConsistentBoardsAgree | src/hooks/use-backlog-data.ts:115-153 | two consistent boards with the same tasks and column keys agree on every column's entries up to order |
| Board.RebuildAgrees | src/hooks/use-backlog-data.ts:12-42 | rebuilding a consistent board with the roster's column order keeps its tasks, its column order and what each column holds, up to order within a column |
| Drag.IsNoOp | src/hooks/use-backlog-data.ts:104-110 | the three early returns: a drop that goes on has a destination, both columns exist, and it does not put the card back where it was |
| Drag.DragEnd | src/hooks/use-backlog-data.ts:101-154 | the reducer `onDragEnd` on board values: an early return leaves the board as it was, and no drop changes the column order, the task key order or the task keys |
| Drag.AssigneeForColumn | src/hooks/use-backlog-data.ts:138 | a drop into "unassigned" gives a null assignee; a drop into any other column gives that column's id |
| Drag.DragNoOp | src/hooks/use-backlog-data.ts:104-110 | no destination, the same place, or a missing column leaves the board unchanged |
| Drag.DragKeepsKeys | src/hooks/use-backlog-data.ts:112-150 | a drop never changes the column order, the task key order or the task keys, and keeps a board well keyed |
| Drag.SameColumnMove | src/hooks/use-backlog-data.ts:115-124 | a reorder changes only that column's ids, to "remove at source, insert at destination"; tasks, other columns and the column order are unchanged |
| Drag.CrossColumnMove | src/hooks/use-backlog-data.ts:125-150 | a move between columns removes the source entry from the start column and inserts the id into the finish column, both keeping their id and title; the task gets the finish column's assignee; all other columns and tasks and the column order are unchanged |
| Drag.TotalEntriesUpdate | src/hooks/use-backlog-data.ts:142-149 | replacing one column changes the total entry count by the difference in its length |
| Drag.TotalEntriesUnchanged | src/hooks/use-backlog-data.ts:142-149 | replacing a column outside the order leaves the total unchanged |
| Drag.MovePreservesTotal | src/hooks/use-backlog-data.ts:115-150 | when the source position holds the dragged card, a drop keeps the total number of column entries |
| Drag.DraggedTaskInStart | src/hooks/use-backlog-data.ts:107-110 | on a consistent board, the card at the source position is a known task whose column is the source column |
| Drag.SameColumnKeepsEntries | src/hooks/use-backlog-data.ts:116-118 | a reorder keeps the column's entries as a multiset |
| Drag.SameColumnPreservesConsistency | src/hooks/use-backlog-data.ts:115-124 | a reorder keeps the board consistent |
| Drag.CrossColumnEntries | src/hooks/use-backlog-data.ts:127-139 | the start column loses exactly the dragged id, the finish column gains it, and the task's column moves from start to finish |
| Drag.CrossColumnCount | src/hooks/use-backlog-data.ts:125-150 | after a move between columns, every task is listed once in its column and nowhere else |
| Drag.CrossColumnNoDangling | src/hooks/use-backlog-data.ts:125-150 | after a move between columns, columns list only known tasks |
| Drag.CrossColumnPreservesConsistency | src/hooks/use-backlog-data.ts:125-150 | a move between columns keeps the board consistent |
| Drag.MovePreservesConsistency | src/hooks/use-backlog-data.ts:115-150 | any drop whose source position holds the dragged card keeps the one-column-per-task invariant |
| Drag.MoveKeepsAssigneesKnown | src/hooks/use-backlog-data.ts:136-139 | on a board over the roster's columns, a drop keeps every assignee null or a roster id |
| Drag.MoveAgreesWithRebuild | src/hooks/use-backlog-data.ts:115-153 | the incremental move and a rebuild from the moved tasks have the same tasks, the same column order and the same column membership; only the order inside a column may differ |
| Balancing.LastSuggestionFor | src/hooks/use-backlog-data.ts:198-202 | the assignee the forEach leaves on a task; there is none when no suggestion names the task |
| Balancing.ApplySuggestions | src/hooks/use-backlog-data.ts:197-202 | the forEach over the suggestions on a copy of the task map; it keeps the task keys |
| Balancing.LastSuggestionForSpec | src/hooks/use-backlog-data.ts:198-202 | the last suggestion for a task is one that names the task with no later one naming it; there is none exactly when no suggestion names the task |
| Balancing.ApplySuggestionsSpec | src/hooks/use-backlog-data.ts:197-202 | applying suggestions keeps the task keys and all fields but the assignee; a task gets the last suggested assignee, and a task with no suggestion is unchanged |
| Balancing.AppliedBoard | src/hooks/use-backlog-data.ts:194-206 | `applyAiSuggestions` on board values: without suggestions the board is unchanged; with them the board is rebuilt with "unassigned" and one column per member |
| Balancing.AppliedBoardConsistent | src/hooks/use-backlog-data.ts:194-206 | when suggested assignees are roster ids, the applied board is consistent and holds the applied task map |
| Balancing.BalanceSnapshot | src/hooks/use-backlog-data.ts:160-180 | the snapshot has one member per roster member and one task per board task |
| Balancing.CapacityFlagFor | src/hooks/use-backlog-data.ts:161-162 | a member without an entry is balanced as "available"; any other flag is that of one of the member's own entries |
| Balancing.FirstEntryForSpec | src/hooks/use-backlog-data.ts:161-162 | a member's entry is their earliest one; there is none exactly when no entry has their id |
| Balancing.LoadTasks | src/hooks/use-backlog-data.ts:164-165 | the filter keeps at most every task, and only tasks assigned to the member that are not "Done" |
| Balancing.CurrentLoad | src/hooks/use-backlog-data.ts:164-166 | the sum of the member's open tasks' points; never negative when no estimate is |
| Balancing.LoadNonNegative | src/hooks/use-backlog-data.ts:164-166 | with no negative estimate, the summed load is not negative |
| Balancing.LoadTasksMembership | src/hooks/use-backlog-data.ts:164-166 | a task counts toward a member's load exactly when it is assigned to them and not "Done" |
| Balancing.LoadTasksAppend | src/hooks/use-backlog-data.ts:164-166 | the load tasks of a concatenation are those of each part, in order |
| Balancing.CurrentLoadAppend | src/hooks/use-backlog-data.ts:164-166 | loads add up over a concatenation |
| Balancing.MemberWithLoad | src/hooks/use-backlog-data.ts:160-168 | the member with their load and a capacity of 8, 4 or 0 story points, and no separate story-point capacity |
| Balancing.InputCapacity | src/hooks/use-backlog-data.ts:178 | the capacity sent to the balancer: the story-point capacity when present and non-zero, otherwise the capacity, so an absent one gives the capacity itself |
| Balancing.SnapshotSpec | src/hooks/use-backlog-data.ts:160-180 | each member has their id and name, capacity = budget of their first entry's flag ("available" if none), and load = points of their open tasks; each task has its id, summary, points and assignee |
| BacklogHook.InitialBoardSound | src/hooks/use-backlog-data.ts:46-48 | the sample board is well keyed and consistent, and has only roster assignees |
| BacklogHook.DragStep | src/hooks/use-backlog-data.ts:101-154 | a drop keeps the keys and column order, and keeps soundness when the source position holds the card |
| BacklogHook.AssignSuggested | src/hooks/use-backlog-data.ts:197-202 | the loop over the suggestions yields the task map of the specification function |
| BacklogHook.AppliedTasks | src/hooks/use-backlog-data.ts:197-203 | after the suggestions, the task map is still well keyed, its values have distinct ids, and its assignees are roster ids when the inputs' are |
| BacklogHook.ApplyStep | src/hooks/use-backlog-data.ts:203 | the rebuild from the applied task values is the applied board, and its values are those values again |
| BacklogHook.BacklogBoard.constructor | src/hooks/use-backlog-data.ts:46-52 | the task list is given, the board is built from it, there are no suggestions, and the board is sound when ids are unique and assignees known |
| BacklogHook.BacklogBoard.UpdateTasksAndBoard | src/hooks/use-backlog-data.ts:74-77 | the list is replaced and the board rebuilt from it; the result is sound for unique ids and roster assignees |
| BacklogHook.BacklogBoard.OnDragEnd | src/hooks/use-backlog-data.ts:101-154 | the new board is the drop reducer's result; the task list follows the board except after an early return; soundness is kept for a drop from the card's position |
| BacklogHook.BacklogBoard.MoveWithinColumn | src/hooks/use-backlog-data.ts:115-124 | the in-place reorder gives the reducer's board |
| BacklogHook.BacklogBoard.MoveAcrossColumns | src/hooks/use-backlog-data.ts:125-150 | the in-place move and reassignment give the reducer's board |
| BacklogHook.BacklogBoard.TriggerAiBalancing | src/hooks/use-backlog-data.ts:156-180 | clears the pending suggestions and returns the snapshot of the roster, entries and board tasks |
| BacklogHook.BacklogBoard.ReceiveAiSuggestions | src/hooks/use-backlog-data.ts:182-191 | a successful answer becomes pending; a failure changes nothing |
| BacklogHook.BacklogBoard.ApplyAiSuggestions | src/hooks/use-backlog-data.ts:194-206 | nothing happens without suggestions; otherwise the board is the applied board, the list is its values, the suggestions are cleared, and the board is sound when suggested assignees are roster ids |
| BacklogHook.BacklogBoard.ApplyPending | src/hooks/use-backlog-data.ts:197-204 | applies pending suggestions: the applied board, its values as the list, suggestions cleared |
| BacklogHook.BacklogBoard.HandleCsvUpload | src/hooks/use-backlog-data.ts:79-99 | a failed read or parse changes nothing; otherwise the merged tasks replace the list, the board is rebuilt from them, and it is always sound |
| CsvMerge.ToLower | src/lib/utils.ts:55 | lower-casing keeps the length |
| CsvMerge.FindByLowerName | src/lib/utils.ts:55 | a member found is on the roster and has the name sought, lower-cased |
| CsvMerge.FindByLowerNameSpec | src/lib/utils.ts:55 | the find returns the first member whose lower-cased name matches, and nothing exactly when no name matches |
| CsvMerge.MemberIdByName | src/lib/utils.ts:53-57 | `getMemberIdByName`: null for a missing or empty name; an id found belongs to a roster member whose name matches ignoring case |
| CsvMerge.MemberIdByNameSpec | src/lib/utils.ts:53-57 | null for a missing or empty name; otherwise the id of the first member whose name equals it ignoring case, and null exactly when none does |
| CsvMerge.MemberIdByNameKnown | src/lib/utils.ts:53-57 | a looked-up id is always a roster id |
| CsvMerge.FinishTask | src/lib/utils.ts:86-94 | the task pushed for a map entry has the numbered id, the key and the day; its summary and status are never empty; missing points become 0 and a missing assignee null |
| CsvMerge.MergeSpec | src/lib/utils.ts:45-98 | the merge gives one task per merged key |
| CsvMerge.NewItemKeysSpec | src/lib/utils.ts:59-67 | a key is among the truthy new-item keys exactly when some row has it, and then its last row has it |
| CsvMerge.LastNewItemIsLast | src/lib/utils.ts:59-67 | the row a key's record comes from is the last new-items row carrying the key: no later row carries it |
| CsvMerge.StatusKeysSpec | src/lib/utils.ts:69-79 | a key is among the truthy status keys exactly when some row has it, and then its last row has it |
| CsvMerge.LastStatusIsLast | src/lib/utils.ts:69-79 | the status row a key's record takes its status and assignee from is the last status row carrying the key: no later row carries it |
| CsvMerge.NewItemPartial | src/lib/utils.ts:61-65 | a new-items row records a summary that is never empty ("No summary" by default) and story points, but no status or assignee |
| CsvMerge.StatusOverlay | src/lib/utils.ts:71-77 | a status row keeps the summary and points already recorded, and sets a status that is never empty ("To Do" by default) and an assignee that is null or a roster member's id |
| CsvMerge.PartialFor | src/lib/utils.ts:59-79 | the map entry for a key after both passes: present exactly when some row of either file has the key; it holds a summary or a status; a status row always leaves a status and an assignee |
| CsvMerge.PartialForDefined | src/lib/utils.ts:59-79 | a key has a record exactly when some row of either file has it |
| CsvMerge.PartialForStatusStep | src/lib/utils.ts:69-79 | one more status row overlays its key's record and leaves other keys alone |
| CsvMerge.PartialForNewItemStep | src/lib/utils.ts:59-67 | one more new-items row replaces its key's record and leaves other keys alone |
| CsvMerge.NewItemOrderStep | src/lib/utils.ts:60-61 | after one more new-items row, the map's key order is the first-appearance order of the keys so far |
| CsvMerge.NewItemRecordsStep | src/lib/utils.ts:61-65 | after one more new-items row, the map's records match the specification |
| CsvMerge.NewItemStep | src/lib/utils.ts:59-67 | one more new-items row keeps the map in step with the rows read |
| CsvMerge.StatusOrderStep | src/lib/utils.ts:70-72 | after one more status row, the map's key order is the first-appearance order of all keys so far |
| CsvMerge.StatusRecordsStep | src/lib/utils.ts:71-77 | after one more status row, the map's records match the specification |
| CsvMerge.StatusStep | src/lib/utils.ts:69-79 | one more status row keeps the map in step with the rows read |
| CsvMerge.LoadNewItems | src/lib/utils.ts:59-67 | the first pass leaves the key order and records of the new-items file |
| CsvMerge.LoadStatusRows | src/lib/utils.ts:69-79 | the second pass leaves the key order and records of both files |
| CsvMerge.NumberTasks | src/lib/utils.ts:81-95 | one task per key in key order, the p-th numbered p+1 from the counter |
| CsvMerge.ProcessUploadedCsvs | src/lib/utils.ts:45-98 | the imperative merge returns exactly the specified task list |
| CsvMerge.NewItemKeysMembership | src/lib/utils.ts:60 | rows without a truthy issue key contribute no key |
| CsvMerge.StatusKeysMembership | src/lib/utils.ts:70 | status rows without a truthy issue key contribute no key |
| CsvMerge.MergeKeysSpec | src/lib/utils.ts:59-95 | the output keys are distinct and are exactly the truthy keys of either file; new-items keys come first, in first-appearance order, then status-only keys |
| CsvMerge.TaskIdInjective | src/lib/utils.ts:87 | different counters give different ids |
| CsvMerge.MergeTaskSpec | src/lib/utils.ts:59-95 | the i-th task has id task-(i+1) and its key. Its summary and points come from the key's last new-items row, defaulting to "No summary" or "No summary provided" and 0. Its status and looked-up assignee come from its last status row, defaulting to "To Do" and null. Its day is the upload day |
| CsvMerge.MergeIdsDistinct | src/lib/utils.ts:81-95 | merged task ids are distinct |
| CsvMerge.MergeAssigneesKnown | src/lib/utils.ts:76 | every merged assignee is null or a roster id |
| CsvMerge.UploadBoardConsistent | src/lib/utils.ts:45-98 | the board built from an upload satisfies the one-column-per-task invariant |
| CsvMerge.LookupAlice | src/lib/utils.ts:53-57 | any spelling that lower-cases to "alice wonderland" finds member-1 |
| CsvMerge.LookupIgnoresCase | src/lib/utils.ts:55 | on the sample roster, "Alice Wonderland", "alice wonderland" and "ALICE WONDERLAND" all find member-1, and "Zed" finds nobody |
| CsvMerge.LookupUnknown | src/lib/utils.ts:56 | the name "Zed" finds nobody on the sample roster (the general case is `CsvMerge.MemberIdByNameSpec`) |
| CsvMerge.UploadScenario | src/lib/utils.ts:59-95 | `PROJ-1, Fix bug, 3` merged with `PROJ-1, In Progress, Alice Wonderland` gives one task, task-1, with summary "Fix bug", 3 points, "In Progress" and member-1 |
| Decimal.IntToString | src/lib/utils.ts:87 | `String(i)` is never empty and starts with a minus sign exactly for a negative number |
| Decimal.NatToStringRoundTrip | src/lib/utils.ts:87 | reading a rendered number's digits gives the number back |
| Decimal.NatToStringInjective | src/lib/utils.ts:87 | distinct numbers render differently |
| Decimal.Trim | src/lib/utils.ts:64 | the white space `Number` ignores is cut from both ends: the result is no longer, and starts and ends with no white space |
| Decimal.TrimSpec | src/lib/utils.ts:64 | the trim is a slice of the text, and everything cut before and after it is white space |
| Decimal.TrimStart | src/lib/utils.ts:64 | leading white space is dropped: the result is a suffix that does not start with a space, and everything before it is white space |
| Decimal.TrimEnd | src/lib/utils.ts:64 | trailing white space is dropped: the result is a prefix that does not end with a space, and everything after it is white space |
| Decimal.ParseNumeral | src/lib/utils.ts:64 | a trimmed run of digits reads as its value; any numeral that is read ends with a digit |
| Decimal.ParseDigits | src/lib/utils.ts:64 | a non-empty run of digits reads as its value |
| Decimal.NumberOf | src/lib/utils.ts:64 | `Number(undefined)` is NaN |
| Decimal.NumberOfUnsigned | src/lib/utils.ts:64 | an unsigned numeral reads as its value |
| Decimal.NumberOfNegative | src/lib/utils.ts:64 | a numeral with a minus sign reads as the negated value |
| Decimal.NumberOfIntToString | src/lib/utils.ts:64 | reading a rendered integer gives the integer back |
| Decimal.NumberOrZeroIntToString | src/lib/utils.ts:64 | `Number(String(i))`, or 0 when NaN, is i |
| CsvExport.FindById | src/lib/utils.ts:126 | a member found is on the roster and has the id sought |
| CsvExport.AssigneeName | src/lib/utils.ts:124-127 | `getAssigneeName`: "" for a missing assignee; any other name is that of a roster member with the assignee's id |
| CsvExport.ExportRowOf | src/lib/utils.ts:129-135 | an exported row carries the task's key ("" for a task without one), summary, points and status, and an assignee name that is "" or the name of the member the task is assigned to |
| CsvExport.ExportRows | src/lib/utils.ts:129-135 | the export has one row per task, in task order: row i carries task i's key ("" without one), summary, points and status, and the name `getAssigneeName` gives for its assignee |
| CsvExport.FindByIdSpec | src/lib/utils.ts:126 | on a well-formed roster, a member's id finds that member |
| CsvExport.FindByIdMissing | src/lib/utils.ts:126 | an id nobody has finds nobody |
| CsvExport.AssigneeNameSpec | src/lib/utils.ts:124-127 | the assignee name is "" for a missing or unknown assignee, and otherwise that member's name |
| CsvExport.AssigneeRoundTrip | src/lib/utils.ts:124-127 | looking an exported name up again gives back the assignee, when names are non-empty and distinct ignoring case |
| CsvExport.ReadBackKeys | src/lib/utils.ts:129-135 | the import of an export has the exported keys in order |
| CsvExport.ExportImportRoundTrip | src/lib/utils.ts:123-135 | exporting tasks with distinct non-empty keys, summaries and statuses, and importing the file as both inputs, gives the same tasks back, renumbered and stamped with the upload day |
| KanbanRender.ResolveTasks | src/components/backlog/kanban-board.tsx:26 | `taskIds.map(id => tasks[id]).filter(Boolean)`: no more tasks than ids |
| KanbanRender.RenderColumns | src/components/backlog/kanban-board.tsx:20-29 | `columnOrder.map(...)` with missing columns skipped: no more columns than ids in the order |
| KanbanRender.RenderBoard | src/components/backlog/kanban-board.tsx:13-15 | columns are drawn exactly when the column order, the columns and the tasks are all present |
| KanbanRender.ResolveTasksSpec | src/components/backlog/kanban-board.tsx:26 | a column draws at most as many tasks as it has ids, and exactly the tasks that some known id names (ResolveTasksOrder gives their order) |
| KanbanRender.ResolveTasksOrder | src/components/backlog/kanban-board.tsx:26 | tasks are drawn in id order: the tasks of a concatenation of id lists are the first list's followed by the second's, and one id draws its task when known and nothing otherwise |
| KanbanRender.RenderColumnsSpec | src/components/backlog/kanban-board.tsx:20-25 | the drawn columns are at most the ids of the order, and exactly those of the order that have a column (RenderColumnsOrder gives their order) |
| KanbanRender.RenderColumnsOrder | src/components/backlog/kanban-board.tsx:20-25 | columns are drawn in `columnOrder` order: the columns of a concatenation of orders are the first's followed by the second's, and one id draws its column when it exists and nothing otherwise |
| KanbanRender.ResolveTasksCount | src/components/backlog/kanban-board.tsx:26 | a task is drawn once for each listing of its id |
| KanbanRender.OccurrencesAreListings | src/components/backlog/kanban-board.tsx:20-29 | over the board, a task is drawn as often as its id is listed in the drawn columns |
| KanbanRender.RenderedExactlyOnce | src/components/backlog/kanban-board.tsx:20-29 | on a consistent board, every task is drawn exactly once, in its own column |
| Standup.UpdatedEntries | src/hooks/use-standup-data.ts:79-85 | an update keeps the number of entries |
| Standup.UpdatedEntriesSpec | src/hooks/use-standup-data.ts:81-83 | id, date and member never change; a matching entry gets exactly the new plan and flag; every other entry is unchanged |
| Standup.UpdateLastWins | src/hooks/use-standup-data.ts:78-86 | a second edit of the same member on the same day replaces the first |
| Standup.UpdatesCommute | src/hooks/use-standup-data.ts:78-86 | edits of two different members do not interfere |
| Standup.DefaultEntries | src/hooks/use-standup-data.ts:38-45 | there is one default entry per roster member |
| Standup.DefaultEntriesSpec | src/hooks/use-standup-data.ts:38-45 | entry i has id `date-memberId`, the day, member i, an empty plan and "available" |
| Standup.DefaultEntriesEditable | src/hooks/use-standup-data.ts:38-45 | default entry ids are distinct, and an edit of a member that day reaches exactly that member's entry |
| Standup.FetchDailyEntriesAsWritten | src/hooks/use-standup-data.ts:29-46 | `fetchDailyEntries` as written: the stored entries if any; else for today the seed entries, dated with the UTC day the sample data were loaded on; else one default entry per member, dated the selected day |
| Standup.FetchDailyEntries | src/hooks/use-standup-data.ts:29-46 | the corrected load: the stored entries if any; otherwise every entry is dated with the selected day's local key, one default entry per member on a day other than today |
| Standup.AsWrittenAgreesOnMatchingDays | src/lib/mock-data.ts:20-24 | the two loads differ only in the seed day: when the sample data were loaded on a UTC day equal to today's local day, they coincide |
| Standup.FetchedEntriesEditable | src/hooks/use-standup-data.ts:29-46 | with the seed entries dated by the local day, everything loaded for an unstored day is dated that day, one entry per member, so an edit reaches it |
| Standup.SeedEditLostAsWritten | src/hooks/use-standup-data.ts:35-36 | as written, at 01:00 on 16 October 2026 in UTC+2 an edit of today's seed entries changes nothing |
| Standup.SelectDate | src/hooks/use-standup-data.ts:88-92 | a missing date keeps the selection; a given date replaces it |
| Standup.StandupPlanner.constructor | src/hooks/use-standup-data.ts:12-15 | the sample roster, the given day, no entries, and the seed day fixed as the UTC day the sample data were loaded on (src/lib/mock-data.ts:20) |
| Standup.StandupPlanner.LoadEntries | src/hooks/use-standup-data.ts:23-49 | the entries become what `fetchDailyEntries` loads as written for the selected day, seed entries dated with the fixed UTC seed day; the selected day is unchanged |
| Standup.StandupPlanner.UpdateDailyEntry | src/hooks/use-standup-data.ts:78-86 | the entries become the update for the selected day's key; the day is unchanged |
| Standup.StandupPlanner.HandleDateChange | src/hooks/use-standup-data.ts:88-92 | the selection follows the given date, or stays without one; the entries are unchanged |
| WorkloadChart.WorkloadData | src/components/backlog/workload-chart.tsx:20-28 | there is one bar per member |
| WorkloadChart.FirstName | src/components/backlog/workload-chart.tsx:24 | `name.split(' ')[0]`: a prefix of the name without a space |
| WorkloadChart.ActiveTasks | src/components/backlog/workload-chart.tsx:18 | the filter keeps at most every task, and no "Done" task |
| WorkloadChart.MemberTasks | src/components/backlog/workload-chart.tsx:21 | the filter keeps at most every task, and only the member's tasks |
| WorkloadChart.FirstNameSpec | src/components/backlog/workload-chart.tsx:24 | the label is the longest space-free prefix of the name |
| WorkloadChart.ChartFilterIsLoadFilter | src/components/backlog/workload-chart.tsx:18-21 | the chart's two filters pick exactly the tasks the balancer counts as the member's load |
| WorkloadChart.WorkloadRowSpec | src/components/backlog/workload-chart.tsx:14-27 | bar i shows the member's first name, the same load the balancer is sent for them, and colour i mod 7 |
| WorkloadChart.WorkloadIgnoresOthers | src/components/backlog/workload-chart.tsx:18-22 | a done task, or a task assigned to someone else, adds nothing to a member's bar |

## Left out

- CSV text parsing and serialisation (papaparse, `src/lib/utils.ts:21-42` and `:137`) are not modelled: parsed rows are the model's input. The same goes for reading the uploaded files, the PNG export and the browser download.
- `localStorage`, the simulated latency and the autosave timer of the stand-up page (`src/hooks/use-standup-data.ts:23-27`, `:56-76`) are not modelled. What storage holds for a day is a parameter of `LoadEntries`.
- The backlog page's daily-entries effect (`src/hooks/use-backlog-data.ts:56-72`) is not modelled: the day's entries are a constructor parameter.
- The balancing service, toasts and loading flags are not modelled. The service's answer enters through `ReceiveAiSuggestions` as a `Result`.
- Asynchronous interleaving is not modelled: each handler is one atomic step.
- The clock is not modelled. The upload day, the current moment, the stand-up day and the moment the sample data were loaded are parameters. A moment is given as its two calendar days: `Standup.DateKey` is its local `yyyy-MM-dd` key (`src/hooks/use-standup-data.ts:20`) and `Standup.IsoDay` its UTC day (`src/lib/mock-data.ts:20`). Both only select a field, so they carry no contract of their own.
- BacklogHook.BacklogBoard.constructor: takes the roster, tasks and entries as parameters, where the source starts from the sample data; `InitialBoardSound` covers that sample case.
- BacklogHook.BacklogBoard.OnDragEnd: does not model aliasing. The source writes the new assignee into the task object, which the previous board and task list share (`src/hooks/use-backlog-data.ts:112`, `:136-139`). The model replaces the task in a new map instead.
- BacklogHook.BacklogBoard.ApplyPending: does not model aliasing either. The source overwrites assignees in task objects shared with the current board (`:197-200`); the model builds a new map.
- The hook's returned `tasks` (`src/hooks/use-backlog-data.ts:210`) is recomputed from the board, while the model keeps the separate `tasks` state as `taskList`.
- Decimal.NumberOf: reads only integer numerals with an optional sign and ASCII white space. Fractions, exponents, hex, `Infinity` and Unicode white space give NaN (None) here, though JavaScript reads them. Story points are integers in the model.
- CsvMerge.ToLower: ASCII case mapping only; Unicode case folding is not modelled.
- Object key ordering for integer-like keys (JavaScript lists those first) is not modelled. Task ids `task-n` and member ids are not integer-like.
- Negative splice indices are not modelled: drag positions are natural numbers.
- A merged task's `id` and `dayLoaded` are always generated (`src/lib/utils.ts:87`, `:93`), because the passes never set them. The model generates them unconditionally.
- The workload chart's "no team members" card is not modelled. It is rendering; the bar data is empty in that case anyway.
- The task status is kept as text. The import stores whatever the Status cell says (`src/lib/utils.ts:75`), so a task's status is a string; `Types.IsDeclaredStatus` names the five declared texts.

## Findings

| source | as written | input that shows it | evidently intended | confidence | as-written member | corrected member |
|---|---|---|---|---|---|---|
| src/lib/mock-data.ts:20-24 with src/hooks/use-standup-data.ts:35-36 and :81 | the seed entries shown for "today" are dated with the UTC calendar day, while the page decides "today" and matches edits with the local calendar day | at 01:00 local time on 16 October 2026 in UTC+2, the seeds are dated 2026-10-15, edits look for 2026-10-16, and no edit of today's entries takes effect | date the seed entries with the same local day key the page uses | not executed | Standup.SeedEditLostAsWritten | Standup.FetchedEntriesEditable |
