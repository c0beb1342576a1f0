/** The board projection of src/hooks/use-backlog-data.ts (`initialBoardData`):
    a flat task list and a roster become an "unassigned" column followed by
    one column per member, each listing the ids of its tasks in input order.
    Also the board's consistency invariant and the facts that the projection
    establishes it. */
module Board {
  import opened Wrappers
  import opened Types
  import opened SeqUtil

  /** Which tasks a column collects: those with a falsy assignee, or those
      assigned to one member id. */
  datatype Selector = SelectUnassigned | SelectMember(memberId: string)

  predicate Selects(sel: Selector, t: Task) {
    match sel
    case SelectUnassigned => Falsy(t.assigneeId)
    case SelectMember(id) => t.assigneeId == Some(id)
  }

  /** `tasks.filter(select).map(task => task.id)`. */
  function SelectedIds(tasks: seq<Task>, sel: Selector): seq<string> {
    if tasks == [] then []
    else (if Selects(sel, tasks[0]) then [tasks[0].id] else []) + SelectedIds(tasks[1..], sel)
  }

  function TaskIds(tasks: seq<Task>): (ids: seq<string>)
    ensures |ids| == |tasks| && forall i :: 0 <= i < |tasks| ==> ids[i] == tasks[i].id
  {
    seq(|tasks|, i requires 0 <= i < |tasks| => tasks[i].id)
  }

  function TaskMapOf(tasks: seq<Task>): map<string, Task> {
    IndexBy(tasks, (t: Task) => t.id)
  }

  function ColumnMapOf(columns: seq<KanbanColumn>): map<string, KanbanColumn> {
    IndexBy(columns, (c: KanbanColumn) => c.id)
  }

  function UnassignedColumn(tasks: seq<Task>): KanbanColumn {
    KanbanColumn(Unassigned, "Unassigned", SelectedIds(tasks, SelectUnassigned))
  }

  function MemberColumns(tasks: seq<Task>, members: seq<TeamMember>): (cols: seq<KanbanColumn>)
    ensures |cols| == |members|
  {
    seq(|members|, i requires 0 <= i < |members| =>
      KanbanColumn(members[i].id, members[i].name, SelectedIds(tasks, SelectMember(members[i].id))))
  }

  /** The column display order a roster yields. */
  function ColumnOrderFor(members: seq<TeamMember>): seq<string> {
    [Unassigned] + MemberIds(members)
  }

  /** `initialBoardData(tasks, teamMembers)`. */
  function InitialBoardData(tasks: seq<Task>, members: seq<TeamMember>): (b: KanbanBoardData)
    ensures |b.columnOrder| == |members| + 1 && b.columnOrder[0] == Unassigned
    ensures forall i :: 0 <= i < |members| ==> b.columnOrder[i + 1] == members[i].id
  {
    KanbanBoardData(
      TaskMapOf(tasks),
      FirstAppearance(TaskIds(tasks)),
      ColumnMapOf(BuildColumnList(tasks, members)),
      ColumnOrderFor(members))
  }

  /** `Object.values(board.tasks)`: the tasks in key insertion order. */
  function TaskValues(b: KanbanBoardData): (values: seq<Task>)
    requires forall k :: k in b.taskOrder ==> k in b.tasks
    ensures |values| == |b.taskOrder|
    ensures forall i :: 0 <= i < |values| ==> values[i] == b.tasks[b.taskOrder[i]]
  {
    seq(|b.taskOrder|, i requires 0 <= i < |b.taskOrder| => b.tasks[b.taskOrder[i]])
  }

  /** Structural well-formedness: the key orders list each key once, every
      task and column is stored under its own id, and the column order names
      exactly the stored columns. */
  ghost predicate WellKeyed(b: KanbanBoardData) {
    && Distinct(b.taskOrder)
    && (forall k :: k in b.taskOrder ==> k in b.tasks)
    && (forall k :: k in b.tasks ==> k in b.taskOrder)
    && (forall k :: k in b.tasks ==> b.tasks[k].id == k)
    && Distinct(b.columnOrder)
    && (forall c :: c in b.columnOrder ==> c in b.columns)
    && (forall c :: c in b.columns ==> c in b.columnOrder)
    && (forall c :: c in b.columns ==> b.columns[c].id == c)
  }

  /** The core consistency contract: each task id sits in exactly one column,
      the column named by `assigneeId ?? "unassigned"`, and columns list only
      known tasks. */
  ghost predicate ColumnInvariant(b: KanbanBoardData) {
    && (forall k :: k in b.tasks ==> ColumnKey(b.tasks[k]) in b.columns)
    && (forall k, c :: k in b.tasks && c in b.columns ==>
          multiset(b.columns[c].taskIds)[k] == if c == ColumnKey(b.tasks[k]) then 1 else 0)
    && (forall c, x :: c in b.columns && x in b.columns[c].taskIds ==> x in b.tasks)
  }

  ghost predicate Consistent(b: KanbanBoardData) {
    WellKeyed(b) && ColumnInvariant(b)
  }

  /** The referential invariant on a board's task map: every assignee is
      null or a roster id. */
  ghost predicate BoardAssigneesKnown(b: KanbanBoardData, members: seq<TeamMember>) {
    forall k :: k in b.tasks && b.tasks[k].assigneeId.Some? ==> b.tasks[k].assigneeId.value in MemberIds(members)
  }

  /** `updateTasksAndBoard(Object.values(board.tasks))`: the board rebuilt
      from its own task map. */
  function Rebuild(b: KanbanBoardData, members: seq<TeamMember>): KanbanBoardData
    requires forall k :: k in b.taskOrder ==> k in b.tasks
  {
    InitialBoardData(TaskValues(b), members)
  }

  // ---------------------------------------------------------------------
  // The filter behind every column

  /** A column lists the id of every selected task and nothing else. */
  lemma {:induction false} SelectedIdsMembership(tasks: seq<Task>, sel: Selector, x: string)
    ensures x in SelectedIds(tasks, sel) <==> exists i :: 0 <= i < |tasks| && tasks[i].id == x && Selects(sel, tasks[i])
  {
    if tasks != [] {
      SelectedIdsMembership(tasks[1..], sel, x);
      if x in SelectedIds(tasks[1..], sel) {
        var i :| 0 <= i < |tasks[1..]| && tasks[1..][i].id == x && Selects(sel, tasks[1..][i]);
        assert tasks[i + 1].id == x && Selects(sel, tasks[i + 1]);
      }
      if exists i :: 0 <= i < |tasks| && tasks[i].id == x && Selects(sel, tasks[i]) {
        var i :| 0 <= i < |tasks| && tasks[i].id == x && Selects(sel, tasks[i]);
        if i > 0 {
          assert tasks[1..][i - 1] == tasks[i];
        }
      }
    }
  }

  /** The rest of a list with distinct ids has distinct ids. */
  lemma DistinctTaskIdsTail(tasks: seq<Task>)
    requires DistinctTaskIds(tasks) && tasks != []
    ensures DistinctTaskIds(tasks[1..])
  {
    var rest := tasks[1..];
    forall a, b | 0 <= a < b < |rest| ensures rest[a].id != rest[b].id {
      assert rest[a] == tasks[a + 1] && rest[b] == tasks[b + 1];
    }
  }

  /** The first task's id occurs nowhere in the rest of a list with distinct
      ids. */
  lemma HeadIdNotInRest(tasks: seq<Task>, sel: Selector)
    requires DistinctTaskIds(tasks) && tasks != []
    ensures tasks[0].id !in SelectedIds(tasks[1..], sel)
  {
    var rest := tasks[1..];
    SelectedIdsMembership(rest, sel, tasks[0].id);
    forall j | 0 <= j < |rest| ensures rest[j].id != tasks[0].id {
      assert rest[j] == tasks[j + 1];
    }
  }

  /** With distinct task ids, a column lists a task once if it selects it and
      not at all otherwise. */
  lemma {:induction false} SelectedIdsCount(tasks: seq<Task>, sel: Selector, i: nat)
    requires DistinctTaskIds(tasks)
    requires i < |tasks|
    ensures multiset(SelectedIds(tasks, sel))[tasks[i].id] == if Selects(sel, tasks[i]) then 1 else 0
  {
    var rest := tasks[1..];
    var x := tasks[i].id;
    var head := if Selects(sel, tasks[0]) then [tasks[0].id] else [];
    assert SelectedIds(tasks, sel) == head + SelectedIds(rest, sel);
    var inRest := multiset(SelectedIds(rest, sel))[x];
    assert multiset(SelectedIds(tasks, sel))[x] == multiset(head)[x] + inRest;
    if i == 0 {
      HeadIdNotInRest(tasks, sel);
      assert inRest == 0;
    } else {
      DistinctTaskIdsTail(tasks);
      assert rest[i - 1] == tasks[i];
      SelectedIdsCount(rest, sel, i - 1);
      assert multiset(head)[x] == 0;
    }
  }

  /** A column keeps the input order of its tasks: of two selected tasks, the
      earlier one is listed earlier. */
  lemma {:induction false} SelectedIdsOrder(tasks: seq<Task>, sel: Selector, i: nat, j: nat)
    requires i < j < |tasks|
    requires Selects(sel, tasks[i]) && Selects(sel, tasks[j])
    ensures exists p, q :: (0 <= p < q < |SelectedIds(tasks, sel)|
      && SelectedIds(tasks, sel)[p] == tasks[i].id && SelectedIds(tasks, sel)[q] == tasks[j].id)
  {
    var rest := tasks[1..];
    var r := SelectedIds(tasks, sel);
    if i == 0 {
      assert rest[j - 1] == tasks[j];
      SelectedIdsMembership(rest, sel, tasks[j].id);
      var q :| 0 <= q < |SelectedIds(rest, sel)| && SelectedIds(rest, sel)[q] == tasks[j].id;
      assert r == [tasks[0].id] + SelectedIds(rest, sel);
      assert r[0] == tasks[i].id && r[q + 1] == tasks[j].id;
    } else {
      assert rest[i - 1] == tasks[i] && rest[j - 1] == tasks[j];
      SelectedIdsOrder(rest, sel, i - 1, j - 1);
      var p, q :| 0 <= p < q < |SelectedIds(rest, sel)|
        && SelectedIds(rest, sel)[p] == tasks[i].id && SelectedIds(rest, sel)[q] == tasks[j].id;
      var head := if Selects(sel, tasks[0]) then [tasks[0].id] else [];
      assert r == head + SelectedIds(rest, sel);
      assert r[p + |head|] == tasks[i].id && r[q + |head|] == tasks[j].id;
    }
  }

  // ---------------------------------------------------------------------
  // What the projection builds

  /** The stored tasks: every input task's id is a key, every key is an input
      id, and with distinct ids each task is stored as given. */
  lemma TaskMapOfSpec(tasks: seq<Task>)
    ensures forall i :: 0 <= i < |tasks| ==> tasks[i].id in TaskMapOf(tasks)
    ensures forall k :: k in TaskMapOf(tasks) ==> k in TaskIds(tasks) && TaskMapOf(tasks)[k].id == k
    ensures DistinctTaskIds(tasks) ==> forall i :: 0 <= i < |tasks| ==> TaskMapOf(tasks)[tasks[i].id] == tasks[i]
  {
    var key := (t: Task) => t.id;
    IndexByKeys(tasks, key);
    forall k | k in TaskMapOf(tasks) ensures k in TaskIds(tasks) && TaskMapOf(tasks)[k].id == k {
      var j :| 0 <= j < |tasks| && key(tasks[j]) == k;
      IndexByLate(tasks, key, 0, k);
      assert TaskIds(tasks)[j] == k;
    }
    if DistinctTaskIds(tasks) {
      forall i | 0 <= i < |tasks| ensures TaskMapOf(tasks)[tasks[i].id] == tasks[i] {
        IndexByDistinct(tasks, key, i);
      }
    }
  }

  /** The column list a build indexes: "unassigned" first, then one column
      per member in roster order. */
  function BuildColumnList(tasks: seq<Task>, members: seq<TeamMember>): (cols: seq<KanbanColumn>)
    ensures |cols| == |members| + 1
    ensures forall i :: 0 <= i < |cols| ==> cols[i].id == ColumnOrderFor(members)[i]
  {
    [UnassignedColumn(tasks)] + MemberColumns(tasks, members)
  }

  /** The keys of the column map are the ids of the column order, and each
      column is stored under its own id. */
  lemma BuildColumnKeys(tasks: seq<Task>, members: seq<TeamMember>)
    ensures var m := ColumnMapOf(BuildColumnList(tasks, members));
      && (forall c :: c in m <==> c in ColumnOrderFor(members))
      && (forall c :: c in m ==> m[c].id == c)
  {
    var cols := BuildColumnList(tasks, members);
    var m := ColumnMapOf(cols);
    var key := (c: KanbanColumn) => c.id;
    IndexByKeys(cols, key);
    forall c | c in m ensures c in ColumnOrderFor(members) && m[c].id == c {
      var j :| 0 <= j < |cols| && key(cols[j]) == c;
      IndexByLate(cols, key, 0, c);
    }
    forall c | c in ColumnOrderFor(members) ensures c in m {
      var j :| 0 <= j < |cols| && ColumnOrderFor(members)[j] == c;
      assert key(cols[j]) == c;
    }
  }

  /** A member's key holds that member's tasks: no later column has its id. */
  lemma BuildMemberColumn(tasks: seq<Task>, members: seq<TeamMember>, i: nat)
    requires i < |members|
    ensures var m := ColumnMapOf(BuildColumnList(tasks, members));
      members[i].id in m && m[members[i].id].taskIds == SelectedIds(tasks, SelectMember(members[i].id))
  {
    var cols := BuildColumnList(tasks, members);
    var key := (c: KanbanColumn) => c.id;
    var id := members[i].id;
    assert key(cols[i + 1]) == id;
    IndexByLate(cols, key, 1, id);
    var j :| 1 <= j < |cols| && key(cols[j]) == id && cols[j] == ColumnMapOf(cols)[id];
    assert cols[j] == MemberColumns(tasks, members)[j - 1];
  }

  /** The "unassigned" key holds the falsy-assignee tasks unless a member
      claims that id. */
  lemma BuildUnassignedColumn(tasks: seq<Task>, members: seq<TeamMember>)
    requires Unassigned !in MemberIds(members)
    ensures var m := ColumnMapOf(BuildColumnList(tasks, members));
      Unassigned in m && m[Unassigned].taskIds == SelectedIds(tasks, SelectUnassigned)
  {
    var cols := BuildColumnList(tasks, members);
    var key := (c: KanbanColumn) => c.id;
    assert key(cols[0]) == Unassigned;
    IndexByLate(cols, key, 0, Unassigned);
    var j :| 0 <= j < |cols| && key(cols[j]) == Unassigned && cols[j] == ColumnMapOf(cols)[Unassigned];
    assert j == 0;
  }

  /** The column map of a build: exactly the ids of the column order, each
      column stored under its id, every member's key holding that member's
      tasks, and the "unassigned" key holding the tasks with a falsy assignee
      unless a member claims that id. */
  lemma BuildColumns(tasks: seq<Task>, members: seq<TeamMember>)
    ensures var b := InitialBoardData(tasks, members);
      && (forall c :: c in b.columns <==> c in b.columnOrder)
      && (forall c :: c in b.columns ==> b.columns[c].id == c)
      && (forall i :: 0 <= i < |members| ==>
            (members[i].id in b.columns &&
             b.columns[members[i].id].taskIds == SelectedIds(tasks, SelectMember(members[i].id))))
      && (Unassigned !in MemberIds(members) ==>
            (Unassigned in b.columns && b.columns[Unassigned].taskIds == SelectedIds(tasks, SelectUnassigned)))
  {
    BuildColumnKeys(tasks, members);
    forall i | 0 <= i < |members| {
      BuildMemberColumn(tasks, members, i);
    }
    if Unassigned !in MemberIds(members) {
      BuildUnassignedColumn(tasks, members);
    }
  }

  /** The shape of a build (src/hooks/use-backlog-data.ts:18-35): the column
      order is "unassigned" then the member ids in roster order, every id in
      it has a column, and the columns list the ids of their tasks. */
  lemma BuildShape(tasks: seq<Task>, members: seq<TeamMember>, x: string)
    ensures var b := InitialBoardData(tasks, members);
      && b.columnOrder == [Unassigned] + MemberIds(members)
      && (forall c :: c in b.columnOrder ==> c in b.columns)
      && (forall i :: 0 <= i < |members| ==>
            (x in b.columns[members[i].id].taskIds <==>
              exists j :: 0 <= j < |tasks| && tasks[j].id == x && tasks[j].assigneeId == Some(members[i].id)))
      && (Unassigned !in MemberIds(members) ==>
            (x in b.columns[Unassigned].taskIds <==>
              exists j :: 0 <= j < |tasks| && tasks[j].id == x && Falsy(tasks[j].assigneeId)))
  {
    BuildColumns(tasks, members);
    forall i | 0 <= i < |members| {
      SelectedIdsMembership(tasks, SelectMember(members[i].id), x);
    }
    SelectedIdsMembership(tasks, SelectUnassigned, x);
  }

  /** The task half of a build: the key order lists each stored id once and
      nothing else, and every task is stored under its own id. */
  lemma BuildTaskKeys(tasks: seq<Task>)
    ensures var m := TaskMapOf(tasks); var order := FirstAppearance(TaskIds(tasks));
      && Distinct(order)
      && (forall k :: k in order <==> k in m)
      && (forall k :: k in m ==> m[k].id == k)
  {
    TaskMapOfSpec(tasks);
    FirstAppearanceSpec(TaskIds(tasks));
  }

  /** A well-formed roster yields a column order without repeats. */
  lemma ColumnOrderDistinct(members: seq<TeamMember>)
    requires RosterWellFormed(members)
    ensures Distinct(ColumnOrderFor(members))
  {
    var order := ColumnOrderFor(members);
    forall p, q | 0 <= p < q < |order| ensures order[p] != order[q] {
      if p > 0 {
        assert order[p] == members[p - 1].id;
      }
    }
  }

  /** The build is structurally well-formed for any task list. */
  lemma BuildWellKeyed(tasks: seq<Task>, members: seq<TeamMember>)
    requires RosterWellFormed(members)
    ensures WellKeyed(InitialBoardData(tasks, members))
  {
    BuildTaskKeys(tasks);
    BuildColumnKeys(tasks, members);
    ColumnOrderDistinct(members);
  }

  /** With distinct ids, a column of a build lists a task once when the task
      belongs there and not at all otherwise. */
  lemma BuildColumnCount(tasks: seq<Task>, members: seq<TeamMember>, i: nat, c: string)
    requires RosterWellFormed(members)
    requires DistinctTaskIds(tasks)
    requires i < |tasks|
    requires tasks[i].assigneeId.Some? ==> tasks[i].assigneeId.value in MemberIds(members)
    requires c in ColumnOrderFor(members)
    ensures var m := ColumnMapOf(BuildColumnList(tasks, members));
      c in m && multiset(m[c].taskIds)[tasks[i].id] == if c == ColumnKey(tasks[i]) then 1 else 0
  {
    assert Unassigned !in MemberIds(members);
    BuildColumnKeys(tasks, members);
    if c == Unassigned {
      BuildUnassignedColumn(tasks, members);
      SelectedIdsCount(tasks, SelectUnassigned, i);
    } else {
      var j :| 0 <= j < |members| && MemberIds(members)[j] == c;
      BuildMemberColumn(tasks, members, j);
      SelectedIdsCount(tasks, SelectMember(c), i);
    }
  }

  /** A column of a build lists only ids of input tasks. */
  lemma BuildColumnMembers(tasks: seq<Task>, members: seq<TeamMember>, c: string, x: string)
    requires RosterWellFormed(members)
    requires c in ColumnOrderFor(members)
    ensures var m := ColumnMapOf(BuildColumnList(tasks, members));
      c in m && (x in m[c].taskIds ==> x in TaskIds(tasks))
  {
    assert Unassigned !in MemberIds(members);
    BuildColumnKeys(tasks, members);
    var sel := SelectUnassigned;
    if c == Unassigned {
      BuildUnassignedColumn(tasks, members);
    } else {
      var j :| 0 <= j < |members| && MemberIds(members)[j] == c;
      BuildMemberColumn(tasks, members, j);
      sel := SelectMember(c);
    }
    SelectedIdsMembership(tasks, sel, x);
    if x in ColumnMapOf(BuildColumnList(tasks, members))[c].taskIds {
      var j :| 0 <= j < |tasks| && tasks[j].id == x && Selects(sel, tasks[j]);
      assert TaskIds(tasks)[j] == x;
    }
  }

  /** The build establishes the consistency contract when ids are unique,
      the roster is well formed and every assignee is null or a roster id
      (src/hooks/use-backlog-data.ts:13-28). */
  lemma BuildConsistent(tasks: seq<Task>, members: seq<TeamMember>)
    requires RosterWellFormed(members)
    requires DistinctTaskIds(tasks)
    requires AssigneesKnown(tasks, members)
    ensures Consistent(InitialBoardData(tasks, members))
  {
    var b := InitialBoardData(tasks, members);
    BuildWellKeyed(tasks, members);
    BuildColumnKeys(tasks, members);
    TaskMapOfSpec(tasks);
    forall k, c | k in b.tasks && c in b.columns
      ensures ColumnKey(b.tasks[k]) in b.columns
      ensures multiset(b.columns[c].taskIds)[k] == if c == ColumnKey(b.tasks[k]) then 1 else 0
    {
      var i :| 0 <= i < |tasks| && TaskIds(tasks)[i] == k;
      assert b.tasks[k] == tasks[i];
      BuildColumnCount(tasks, members, i, c);
      BuildColumnCount(tasks, members, i, ColumnKey(tasks[i]));
    }
    forall c, x | c in b.columns && x in b.columns[c].taskIds ensures x in b.tasks {
      BuildColumnMembers(tasks, members, c, x);
      var j :| 0 <= j < |tasks| && TaskIds(tasks)[j] == x;
    }
  }

  /** No column of a build lists a task whose assignee is a non-empty id
      outside the roster. */
  lemma BuildColumnOmits(tasks: seq<Task>, members: seq<TeamMember>, i: nat, c: string)
    requires RosterWellFormed(members)
    requires DistinctTaskIds(tasks)
    requires i < |tasks|
    requires tasks[i].assigneeId.Some? && tasks[i].assigneeId.value != ""
    requires tasks[i].assigneeId.value !in MemberIds(members)
    requires c in ColumnOrderFor(members)
    ensures var m := ColumnMapOf(BuildColumnList(tasks, members));
      c in m && tasks[i].id !in m[c].taskIds
  {
    assert Unassigned !in MemberIds(members);
    BuildColumnKeys(tasks, members);
    if c == Unassigned {
      BuildUnassignedColumn(tasks, members);
      SelectedIdsCount(tasks, SelectUnassigned, i);
    } else {
      var j :| 0 <= j < |members| && MemberIds(members)[j] == c;
      BuildMemberColumn(tasks, members, j);
      SelectedIdsCount(tasks, SelectMember(c), i);
    }
  }

  /** A task whose assignee is a non-empty id outside the roster stays in the
      task map but is listed in no column: it drops off the board. */
  lemma BuildOrphansUnknownAssignee(tasks: seq<Task>, members: seq<TeamMember>, i: nat)
    requires RosterWellFormed(members)
    requires DistinctTaskIds(tasks)
    requires i < |tasks|
    requires tasks[i].assigneeId.Some? && tasks[i].assigneeId.value != ""
    requires tasks[i].assigneeId.value !in MemberIds(members)
    ensures var b := InitialBoardData(tasks, members);
      tasks[i].id in b.tasks && forall c :: c in b.columns ==> tasks[i].id !in b.columns[c].taskIds
  {
    var b := InitialBoardData(tasks, members);
    TaskMapOfSpec(tasks);
    BuildColumnKeys(tasks, members);
    forall c | c in b.columns ensures tasks[i].id !in b.columns[c].taskIds {
      BuildColumnOmits(tasks, members, i, c);
    }
  }

  /** A build from tasks whose assignees are roster ids stores only such
      tasks. */
  lemma BuildAssigneesKnown(tasks: seq<Task>, members: seq<TeamMember>)
    requires DistinctTaskIds(tasks)
    requires AssigneesKnown(tasks, members)
    ensures BoardAssigneesKnown(InitialBoardData(tasks, members), members)
  {
    var m := TaskMapOf(tasks);
    TaskMapOfSpec(tasks);
    forall k | k in m && m[k].assigneeId.Some? ensures m[k].assigneeId.value in MemberIds(members) {
      var i :| 0 <= i < |tasks| && TaskIds(tasks)[i] == k;
      assert m[k] == tasks[i];
    }
  }

  /** Rebuilding from the task list a build exposes gives back that list, so
      the projection is idempotent (with distinct ids). */
  lemma RebuildIdempotent(tasks: seq<Task>, members: seq<TeamMember>)
    requires DistinctTaskIds(tasks)
    ensures var b := InitialBoardData(tasks, members);
      (forall k :: k in b.taskOrder ==> k in b.tasks) && TaskValues(b) == tasks
  {
    var b := InitialBoardData(tasks, members);
    TaskMapOfSpec(tasks);
    FirstAppearanceOfDistinct(TaskIds(tasks));
  }

  /** The values of a well-keyed board carry its key order as their ids. */
  lemma TaskValuesIds(b: KanbanBoardData)
    requires WellKeyed(b)
    ensures TaskIds(TaskValues(b)) == b.taskOrder
    ensures DistinctTaskIds(TaskValues(b))
  {
    var values := TaskValues(b);
    assert TaskIds(values) == b.taskOrder;
    forall p, q | 0 <= p < q < |values| ensures values[p].id != values[q].id {
      assert values[p].id == b.taskOrder[p] && values[q].id == b.taskOrder[q];
    }
  }

  /** Indexing the values of a well-keyed board by id gives back its task
      map. */
  lemma TaskMapOfValues(b: KanbanBoardData)
    requires WellKeyed(b)
    ensures TaskMapOf(TaskValues(b)) == b.tasks
  {
    var values := TaskValues(b);
    var m := TaskMapOf(values);
    TaskValuesIds(b);
    TaskMapOfSpec(values);
    forall k | k in b.tasks ensures k in m && m[k] == b.tasks[k] {
      var i :| 0 <= i < |b.taskOrder| && b.taskOrder[i] == k;
      assert values[i].id == k;
    }
    forall k | k in m ensures k in b.tasks {
      assert k in TaskIds(values);
    }
  }

  /** Rebuilding from `Object.values` of a well-keyed board keeps its task
      map and task order. */
  lemma RebuildKeepsTasks(b: KanbanBoardData, members: seq<TeamMember>)
    requires WellKeyed(b)
    ensures var r := InitialBoardData(TaskValues(b), members);
      r.tasks == b.tasks && r.taskOrder == b.taskOrder
  {
    TaskMapOfValues(b);
    TaskValuesIds(b);
    FirstAppearanceOfDistinct(b.taskOrder);
  }

  /** Rebuilding a well-keyed board whose assignees are roster ids gives a
      consistent board with the same tasks. */
  lemma RebuildConsistent(b: KanbanBoardData, members: seq<TeamMember>)
    requires WellKeyed(b)
    requires RosterWellFormed(members)
    requires BoardAssigneesKnown(b, members)
    ensures Consistent(Rebuild(b, members))
    ensures Rebuild(b, members).tasks == b.tasks && Rebuild(b, members).taskOrder == b.taskOrder
    ensures Rebuild(b, members).columnOrder == ColumnOrderFor(members)
  {
    var values := TaskValues(b);
    TaskValuesIds(b);
    RebuildKeepsTasks(b, members);
    assert AssigneesKnown(values, members) by {
      forall i | 0 <= i < |values| && values[i].assigneeId.Some?
        ensures values[i].assigneeId.value in MemberIds(members)
      {
        assert values[i] == b.tasks[b.taskOrder[i]];
      }
    }
    BuildConsistent(values, members);
  }

  /** Two consistent boards over the same tasks and the same column keys
      have the same entries in every column, up to order: the invariant fixes
      column membership. */
  lemma ConsistentBoardsAgree(b1: KanbanBoardData, b2: KanbanBoardData, c: string)
    requires Consistent(b1) && Consistent(b2)
    requires b1.tasks == b2.tasks && b1.columns.Keys == b2.columns.Keys
    requires c in b1.columns
    ensures multiset(b1.columns[c].taskIds) == multiset(b2.columns[c].taskIds)
  {
    forall x ensures multiset(b1.columns[c].taskIds)[x] == multiset(b2.columns[c].taskIds)[x] {
      if x !in b1.tasks {
        assert x !in b1.columns[c].taskIds;
        assert x !in b2.columns[c].taskIds;
      }
    }
  }
  /** Rebuilding a consistent board keeps its tasks and what every column
      holds, up to the order inside a column. */
  lemma RebuildAgrees(b: KanbanBoardData, members: seq<TeamMember>, c: string)
    requires Consistent(b)
    requires RosterWellFormed(members)
    requires b.columnOrder == ColumnOrderFor(members)
    requires BoardAssigneesKnown(b, members)
    requires c in b.columns
    ensures forall k :: k in b.taskOrder ==> k in b.tasks
    ensures var rebuilt := Rebuild(b, members);
      && rebuilt.tasks == b.tasks
      && rebuilt.columnOrder == b.columnOrder
      && c in rebuilt.columns
      && multiset(rebuilt.columns[c].taskIds) == multiset(b.columns[c].taskIds)
  {
    RebuildConsistent(b, members);
    var rebuilt := Rebuild(b, members);
    assert rebuilt.columns.Keys == b.columns.Keys;
    ConsistentBoardsAgree(rebuilt, b, c);
  }

}
