/** The records shared by the backlog, the stand-up planner and the CSV
    import/export (src/types/index.ts). */
module Types {
  import opened Wrappers

  /** The five statuses a task is declared to have. */
  datatype TaskStatus = ToDo | InProgress | Review | Done | Blocked

  /** The text the application stores and compares for each status. */
  function StatusLabel(s: TaskStatus): string {
    match s
    case ToDo => "To Do"
    case InProgress => "In Progress"
    case Review => "Review"
    case Done => "Done"
    case Blocked => "Blocked"
  }

  /** A status text is one of the declared five. Task records hold the text,
      because the CSV import writes whatever the Status column says. */
  predicate IsDeclaredStatus(text: string) {
    text == "To Do" || text == "In Progress" || text == "Review" || text == "Done" || text == "Blocked"
  }

  lemma StatusLabelsDeclaredAndDistinct(s: TaskStatus, t: TaskStatus)
    ensures IsDeclaredStatus(StatusLabel(s))
    ensures StatusLabel(s) == StatusLabel(t) ==> s == t
  {
  }

  /** The daily availability signal of a team member. */
  datatype CapacityFlag = Available | Partial | AtLimit

  datatype TeamMember = TeamMember(id: string, name: string, avatarUrl: Option<string>)

  /** One member's plan for one calendar day; `date` is a yyyy-MM-dd key. */
  datatype DailyEntry = DailyEntry(id: string, date: string, memberId: string, planText: string, capacityFlag: CapacityFlag)

  /** A backlog item. `status` holds the status text (see IsDeclaredStatus);
      `assigneeId` None is JavaScript's null, Some("") an empty id. */
  datatype Task = Task(
    id: string,
    jiraKey: Option<string>,
    summary: string,
    storyPoints: int,
    status: string,
    assigneeId: Option<string>,
    dayLoaded: Option<string>)

  /** The id of the column that collects tasks nobody is assigned to. */
  const Unassigned: string := "unassigned"

  datatype KanbanColumn = KanbanColumn(id: string, title: string, taskIds: seq<string>)

  /** The board: the tasks by id, the insertion order of those ids (the order
      `Object.values` enumerates them in), the columns by id and the display
      order of the columns. */
  datatype KanbanBoardData = KanbanBoardData(
    tasks: map<string, Task>,
    taskOrder: seq<string>,
    columns: map<string, KanbanColumn>,
    columnOrder: seq<string>)

  /** A team member extended with the load figures sent to the balancer. */
  datatype TeamMemberWithLoad = TeamMemberWithLoad(
    member: TeamMember,
    currentLoad: int,
    capacitySP: Option<int>,
    capacity: int)

  /** The column a task belongs in: its assignee, or "unassigned" when null. */
  function ColumnKey(t: Task): string {
    if t.assigneeId.Some? then t.assigneeId.value else Unassigned
  }

  /** JavaScript falsiness of an optional string: null, undefined or "". */
  predicate Falsy(s: Option<string>) {
    s.None? || s.value == ""
  }

  /** The ids of a roster, in roster order. */
  function MemberIds(members: seq<TeamMember>): (ids: seq<string>)
    ensures |ids| == |members|
    ensures forall i :: 0 <= i < |members| ==> ids[i] == members[i].id
  {
    seq(|members|, i requires 0 <= i < |members| => members[i].id)
  }

  /** A roster the board can be built from without column clashes: ids are
      distinct, non-empty and none is the reserved "unassigned". */
  ghost predicate RosterWellFormed(members: seq<TeamMember>) {
    && (forall i, j :: 0 <= i < j < |members| ==> members[i].id != members[j].id)
    && (forall i :: 0 <= i < |members| ==> members[i].id != "" && members[i].id != Unassigned)
  }

  /** The referential invariant of a task list: every assignee is null or a
      roster id. */
  ghost predicate AssigneesKnown(tasks: seq<Task>, members: seq<TeamMember>) {
    forall i :: 0 <= i < |tasks| && tasks[i].assigneeId.Some? ==> tasks[i].assigneeId.value in MemberIds(members)
  }

  /** Task ids in a list are pairwise distinct. */
  ghost predicate DistinctTaskIds(tasks: seq<Task>) {
    forall i, j :: 0 <= i < j < |tasks| ==> tasks[i].id != tasks[j].id
  }

  /** `tasks.reduce((sum, task) => sum + task.storyPoints, 0)`. */
  function TotalStoryPoints(tasks: seq<Task>): int {
    if tasks == [] then 0 else tasks[0].storyPoints + TotalStoryPoints(tasks[1..])
  }

  /** Totals add up over a concatenation. */
  lemma {:induction false} TotalStoryPointsAppend(a: seq<Task>, b: seq<Task>)
    ensures TotalStoryPoints(a + b) == TotalStoryPoints(a) + TotalStoryPoints(b)
    decreases |a|
  {
    if a == [] {
      assert a + b == b;
    } else {
      assert (a + b)[1..] == a[1..] + b;
      TotalStoryPointsAppend(a[1..], b);
    }
  }
}
