/** The backlog page state of src/hooks/use-backlog-data.ts: the task list,
    the board projected from it, the pending balancing suggestions and the
    day's stand-up entries, with the handlers that change them. Each handler
    is one atomic step; the awaited file reads, CSV parsing and the
    balancing service are outside the model and reach it as parameters. */
module BacklogHook {
  import opened Wrappers
  import opened Types
  import opened SeqUtil
  import opened MockData
  import opened Board
  import opened Drag
  import opened Balancing
  import opened CsvMerge

  /** The two parsed CSV files of an upload. */
  datatype ParsedUpload = ParsedUpload(newItems: seq<NewItemRow>, statusRows: seq<StatusRow>)

  /** The sample board is well keyed and sound. */
  lemma InitialBoardSound()
    ensures var b := InitialBoardData(MockInitialTasks, MockTeamMembers);
      && WellKeyed(b) && RosterWellFormed(MockTeamMembers) && b.columnOrder == ColumnOrderFor(MockTeamMembers)
      && Consistent(b) && BoardAssigneesKnown(b, MockTeamMembers)
  {
    MockDataWellFormed();
    BuildWellKeyed(MockInitialTasks, MockTeamMembers);
    BuildConsistent(MockInitialTasks, MockTeamMembers);
    BuildAssigneesKnown(MockInitialTasks, MockTeamMembers);
  }

  /** What one drop keeps: the keys and the column order always; soundness
      when the source position holds the dragged card. */
  lemma DragStep(b: KanbanBoardData, r: DropResult, members: seq<TeamMember>)
    requires WellKeyed(b) && b.columnOrder == ColumnOrderFor(members)
    ensures WellKeyed(DragEnd(b, r)) && DragEnd(b, r).columnOrder == b.columnOrder
    ensures Consistent(b) && BoardAssigneesKnown(b, members) && SourceHoldsCard(b, r) ==>
      Consistent(DragEnd(b, r)) && BoardAssigneesKnown(DragEnd(b, r), members)
  {
    DragKeepsKeys(b, r);
    if Consistent(b) && BoardAssigneesKnown(b, members) && SourceHoldsCard(b, r) {
      MovePreservesConsistency(b, r);
      MoveKeepsAssigneesKnown(b, r, members);
    }
  }

  /** Every suggested assignee is a roster id. */
  ghost predicate SuggestedAssigneesKnown(o: BalanceOutput, members: seq<TeamMember>) {
    forall i :: 0 <= i < |o.suggestions| ==> o.suggestions[i].assigneeId in MemberIds(members)
  }

  /** The `forEach` over the suggestions on a copy of the task map: a
      suggestion for a known task overwrites its assignee. */
  method AssignSuggested(tasks: map<string, Task>, suggestions: seq<Suggestion>) returns (newTasksState: map<string, Task>)
    ensures newTasksState == ApplySuggestions(tasks, suggestions)
  {
    newTasksState := tasks;
    var i := 0;
    while i < |suggestions|
      invariant 0 <= i <= |suggestions|
      invariant newTasksState == ApplySuggestions(tasks, suggestions[..i])
    {
      var suggestion := suggestions[i];
      if suggestion.taskId in newTasksState {
        newTasksState := newTasksState[suggestion.taskId := newTasksState[suggestion.taskId].(assigneeId := Some(suggestion.assigneeId))];
      }
      assert suggestions[..i + 1][..i] == suggestions[..i];
      i := i + 1;
    }
    assert suggestions[..i] == suggestions;
  }

  /** The task map after the suggestions is still well keyed, its values
      have distinct ids, and their assignees are roster ids when the board's
      and the suggestions' are. */
  lemma AppliedTasks(b: KanbanBoardData, o: BalanceOutput, members: seq<TeamMember>)
    requires WellKeyed(b)
    ensures var applied := b.(tasks := ApplySuggestions(b.tasks, o.suggestions));
      && WellKeyed(applied)
      && DistinctTaskIds(TaskValues(applied))
      && (BoardAssigneesKnown(b, members) && SuggestedAssigneesKnown(o, members) ==>
            AssigneesKnown(TaskValues(applied), members))
  {
    var applied := b.(tasks := ApplySuggestions(b.tasks, o.suggestions));
    forall k ensures ApplySuggestions(b.tasks, o.suggestions).Keys == b.tasks.Keys
      && (k in b.tasks ==>
            (applied.tasks[k].id == b.tasks[k].id
             && (BoardAssigneesKnown(b, members) && SuggestedAssigneesKnown(o, members) && applied.tasks[k].assigneeId.Some?
                 ==> applied.tasks[k].assigneeId.value in MemberIds(members))))
    {
      ApplySuggestionsSpec(b.tasks, o.suggestions, k);
      LastSuggestionForSpec(o.suggestions, k);
    }
    assert WellKeyed(applied);
    TaskValuesIds(applied);
    var values := TaskValues(applied);
    if BoardAssigneesKnown(b, members) && SuggestedAssigneesKnown(o, members) {
      forall i | 0 <= i < |values| && values[i].assigneeId.Some?
        ensures values[i].assigneeId.value in MemberIds(members)
      {
        assert values[i] == applied.tasks[applied.taskOrder[i]];
      }
    }
  }

  /** The list `applyAiSuggestions` hands to the rebuild is the task map's
      values after the suggestions; rebuilding from it is the applied board. */
  lemma ApplyStep(b: KanbanBoardData, o: BalanceOutput, members: seq<TeamMember>)
    requires WellKeyed(b)
    ensures var applied := b.(tasks := ApplySuggestions(b.tasks, o.suggestions));
      && (forall k :: k in applied.taskOrder ==> k in applied.tasks)
      && AppliedBoard(b, Some(o), members) == InitialBoardData(TaskValues(applied), members)
      && DistinctTaskIds(TaskValues(applied))
      && (var rebuilt := InitialBoardData(TaskValues(applied), members);
          (forall k :: k in rebuilt.taskOrder ==> k in rebuilt.tasks) && TaskValues(rebuilt) == TaskValues(applied))
      && (BoardAssigneesKnown(b, members) && SuggestedAssigneesKnown(o, members) ==>
            AssigneesKnown(TaskValues(applied), members))
  {
    var applied := b.(tasks := ApplySuggestions(b.tasks, o.suggestions));
    AppliedTasks(b, o, members);
    RebuildIdempotent(TaskValues(applied), members);
  }

  class BacklogBoard {
    const teamMembers: seq<TeamMember>
    /** The `tasks` state: the flat task list other components read. */
    var taskList: seq<Task>
    /** The `boardData` state: tasks by id (with their key order), columns by
        id and the column order. */
    var tasks: map<string, Task>
    var taskOrder: seq<string>
    var columns: map<string, KanbanColumn>
    var columnOrder: seq<string>
    var aiSuggestions: Option<BalanceOutput>
    var dailyEntries: seq<DailyEntry>

    /** The board as a value. */
    function Data(): KanbanBoardData
      reads this
    {
      KanbanBoardData(tasks, taskOrder, columns, columnOrder)
    }

    /** What every handler keeps: a well-keyed board over the roster's
        columns. */
    ghost predicate Valid()
      reads this
    {
      && WellKeyed(Data())
      && RosterWellFormed(teamMembers)
      && columnOrder == ColumnOrderFor(teamMembers)
    }

    /** The column invariant together with roster assignees: every task in
        exactly the column its assignee names. */
    ghost predicate Sound()
      reads this
    {
      Consistent(Data()) && BoardAssigneesKnown(Data(), teamMembers)
    }

    /** The initial state: the roster and task list (the sample ones in the
        source), the board built from them, no suggestions, and the day's
        stand-up entries. */
    constructor(members: seq<TeamMember>, initialTasks: seq<Task>, entries: seq<DailyEntry>)
      requires RosterWellFormed(members)
      ensures teamMembers == members && taskList == initialTasks
      ensures Data() == InitialBoardData(initialTasks, members)
      ensures aiSuggestions == None && dailyEntries == entries
      ensures Valid()
      ensures DistinctTaskIds(initialTasks) && AssigneesKnown(initialTasks, members) ==> Sound()
    {
      var b := InitialBoardData(initialTasks, members);
      BuildWellKeyed(initialTasks, members);
      if DistinctTaskIds(initialTasks) && AssigneesKnown(initialTasks, members) {
        BuildConsistent(initialTasks, members);
        BuildAssigneesKnown(initialTasks, members);
      }
      teamMembers := members;
      taskList := initialTasks;
      tasks, taskOrder, columns, columnOrder := b.tasks, b.taskOrder, b.columns, b.columnOrder;
      aiSuggestions := None;
      dailyEntries := entries;
      new;
      assert Data() == b;
    }

    /** `updateTasksAndBoard`: the new list, and the board rebuilt from it. */
    method UpdateTasksAndBoard(newTasks: seq<Task>)
      requires Valid()
      modifies this
      ensures Valid()
      ensures taskList == newTasks && Data() == InitialBoardData(newTasks, teamMembers)
      ensures aiSuggestions == old(aiSuggestions) && dailyEntries == old(dailyEntries)
      ensures DistinctTaskIds(newTasks) && AssigneesKnown(newTasks, teamMembers) ==> Sound()
    {
      var b := InitialBoardData(newTasks, teamMembers);
      BuildWellKeyed(newTasks, teamMembers);
      if DistinctTaskIds(newTasks) && AssigneesKnown(newTasks, teamMembers) {
        BuildConsistent(newTasks, teamMembers);
        BuildAssigneesKnown(newTasks, teamMembers);
      }
      taskList := newTasks;
      tasks, taskOrder, columns, columnOrder := b.tasks, b.taskOrder, b.columns, b.columnOrder;
      assert Data() == b;
    }

    /** `onDragEnd`: the early returns, then either a reorder of one column
        or a move between two columns that reassigns the task in place. The
        task list follows the board except after an early return. */
    method OnDragEnd(r: DropResult)
      requires Valid()
      modifies this
      ensures Valid()
      ensures Data() == DragEnd(old(Data()), r)
      ensures taskList == if IsNoOp(old(Data()), r) then old(taskList) else TaskValues(Data())
      ensures aiSuggestions == old(aiSuggestions) && dailyEntries == old(dailyEntries)
      ensures old(Sound()) && SourceHoldsCard(old(Data()), r) ==> Sound()
    {
      ghost var before := Data();
      DragStep(before, r, teamMembers);
      if r.destination.None? {
        return;
      }
      var destination := r.destination.value;
      if destination.droppableId == r.source.droppableId && destination.index == r.source.index {
        return;
      }
      if r.source.droppableId !in columns || destination.droppableId !in columns {
        return;
      }
      if columns[r.source.droppableId].id == columns[destination.droppableId].id {
        MoveWithinColumn(r);
      } else {
        MoveAcrossColumns(r);
      }
      taskList := TaskValues(Data());
    }

    /** The reorder of one column: the dragged id leaves the source position
        and enters the destination position of a copy of the column's ids. */
    method MoveWithinColumn(r: DropResult)
      requires !IsNoOp(Data(), r)
      requires columns[r.source.droppableId].id == columns[r.destination.value.droppableId].id
      modifies this
      ensures Data() == DragEnd(old(Data()), r)
      ensures taskList == old(taskList) && aiSuggestions == old(aiSuggestions) && dailyEntries == old(dailyEntries)
    {
      var startColumn := columns[r.source.droppableId];
      var newTaskIds := RemoveAt(startColumn.taskIds, r.source.index);
      newTaskIds := InsertAt(newTaskIds, r.destination.value.index, r.draggableId);
      columns := columns[startColumn.id := startColumn.(taskIds := newTaskIds)];
    }

    /** The move between columns: the id leaves the start column, enters the
        finish column, and the task, when there is one, is reassigned to the
        finish column in the shared task map. */
    method MoveAcrossColumns(r: DropResult)
      requires !IsNoOp(Data(), r)
      requires columns[r.source.droppableId].id != columns[r.destination.value.droppableId].id
      modifies this
      ensures Data() == DragEnd(old(Data()), r)
      ensures taskList == old(taskList) && aiSuggestions == old(aiSuggestions) && dailyEntries == old(dailyEntries)
    {
      var startColumn := columns[r.source.droppableId];
      var finishColumn := columns[r.destination.value.droppableId];
      var newStartColumn := startColumn.(taskIds := RemoveAt(startColumn.taskIds, r.source.index));
      var newFinishColumn := finishColumn.(taskIds := InsertAt(finishColumn.taskIds, r.destination.value.index, r.draggableId));
      if r.draggableId in tasks {
        var movedTask := tasks[r.draggableId];
        movedTask := movedTask.(assigneeId := AssigneeForColumn(finishColumn.id));
        tasks := tasks[r.draggableId := movedTask];
      }
      columns := columns[newStartColumn.id := newStartColumn][newFinishColumn.id := newFinishColumn];
    }

    /** `triggerAiBalancing` up to the service call: clears the pending
        suggestions and returns the snapshot sent to the balancer. */
    method TriggerAiBalancing() returns (input: BalanceInput)
      requires Valid()
      modifies this
      ensures Valid()
      ensures input == BalanceSnapshot(teamMembers, dailyEntries, TaskValues(Data()))
      ensures aiSuggestions == None
      ensures Data() == old(Data()) && taskList == old(taskList) && dailyEntries == old(dailyEntries)
    {
      aiSuggestions := None;
      input := BalanceSnapshot(teamMembers, dailyEntries, TaskValues(Data()));
    }

    /** The balancer's answer: suggestions are kept on success; a failure
        leaves them cleared. */
    method ReceiveAiSuggestions(result: Result<BalanceOutput>)
      requires Valid()
      modifies this
      ensures Valid()
      ensures aiSuggestions == if result.Ok? then Some(result.value) else old(aiSuggestions)
      ensures Data() == old(Data()) && taskList == old(taskList) && dailyEntries == old(dailyEntries)
    {
      if result.Ok? {
        aiSuggestions := Some(result.value);
      }
    }

    /** `applyAiSuggestions`: nothing without suggestions; otherwise every
        suggestion for a known task overwrites its assignee, in list order,
        the board is rebuilt from the task map's values and the suggestions
        are cleared. */
    method ApplyAiSuggestions()
      requires Valid()
      modifies this
      ensures Valid()
      ensures Data() == AppliedBoard(old(Data()), old(aiSuggestions), teamMembers)
      ensures old(aiSuggestions).Some? ==> taskList == TaskValues(Data())
      ensures old(aiSuggestions).None? ==> taskList == old(taskList)
      ensures aiSuggestions == None && dailyEntries == old(dailyEntries)
      ensures (old(aiSuggestions).Some? && old(BoardAssigneesKnown(Data(), teamMembers))
               && SuggestedAssigneesKnown(old(aiSuggestions).value, teamMembers)) ==> Sound()
    {
      if aiSuggestions.None? {
        return;
      }
      ApplyPending(aiSuggestions.value);
    }

    /** The branch of `applyAiSuggestions` with suggestions `o` pending. */
    method ApplyPending(o: BalanceOutput)
      requires Valid() && aiSuggestions == Some(o)
      modifies this
      ensures Valid()
      ensures Data() == AppliedBoard(old(Data()), Some(o), teamMembers)
      ensures taskList == TaskValues(Data())
      ensures aiSuggestions == None && dailyEntries == old(dailyEntries)
      ensures old(BoardAssigneesKnown(Data(), teamMembers)) && SuggestedAssigneesKnown(o, teamMembers) ==> Sound()
    {
      ghost var before := Data();
      var newTasksState := AssignSuggested(tasks, o.suggestions);
      ApplyStep(before, o, teamMembers);
      var newTasks := TaskValues(Data().(tasks := newTasksState));
      aiSuggestions := None;
      UpdateTasksAndBoard(newTasks);
    }

    /** `handleCsvUpload`: a failed read or parse changes nothing; otherwise
        the merged tasks replace the list and the board is rebuilt. `today`
        is the upload day. */
    method HandleCsvUpload(parsed: Result<ParsedUpload>, today: string)
      requires Valid()
      modifies this
      ensures Valid()
      ensures parsed.Failure? ==> Data() == old(Data()) && taskList == old(taskList)
      ensures parsed.Ok? ==>
        var merged := MergeSpec(parsed.value.newItems, parsed.value.statusRows, teamMembers, today);
        taskList == merged && Data() == InitialBoardData(merged, teamMembers) && Sound()
      ensures aiSuggestions == old(aiSuggestions) && dailyEntries == old(dailyEntries)
    {
      if parsed.Failure? {
        return;
      }
      var processed := ProcessUploadedCsvs(parsed.value.newItems, parsed.value.statusRows, teamMembers, today);
      MergeIdsDistinct(parsed.value.newItems, parsed.value.statusRows, teamMembers, today);
      MergeAssigneesKnown(parsed.value.newItems, parsed.value.statusRows, teamMembers, today);
      UpdateTasksAndBoard(processed);
    }
  }
}
