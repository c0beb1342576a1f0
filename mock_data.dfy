/** The fixed roster and seed data the application starts from, the option
    tables of the forms, and the capacity-flag to story-point table
    (src/lib/mock-data.ts). */
module MockData {
  import opened Wrappers
  import opened Types

  function Member(id: string, name: string, avatar: string): TeamMember {
    TeamMember(id, name, Some(avatar))
  }

  const MockTeamMembers: seq<TeamMember> := [
    Member("member-1", "Alice Wonderland", "https://picsum.photos/seed/alice/40/40"),
    Member("member-2", "Bob The Builder", "https://picsum.photos/seed/bob/40/40"),
    Member("member-3", "Charlie Chaplin", "https://picsum.photos/seed/charlie/40/40"),
    Member("member-4", "Diana Prince", "https://picsum.photos/seed/diana/40/40")
  ]

  function SeedTask(id: string, key: string, summary: string, points: int, status: string, assignee: Option<string>): Task {
    Task(id, Some(key), summary, points, status, assignee, None)
  }

  const MockInitialTasks: seq<Task> := [
    SeedTask("task-1", "PROJ-101", "Setup project repository", 2, "To Do", None),
    SeedTask("task-2", "PROJ-102", "Design user interface mockups", 5, "In Progress", Some("member-1")),
    SeedTask("task-3", "PROJ-103", "Develop login functionality", 8, "To Do", Some("member-2")),
    SeedTask("task-4", "PROJ-104", "Write API documentation", 3, "Review", Some("member-1")),
    SeedTask("task-5", "PROJ-105", "Implement payment gateway", 13, "To Do", None),
    SeedTask("task-6", "PROJ-106", "Test user registration flow", 5, "Done", Some("member-3")),
    SeedTask("task-7", "PROJ-107", "Fix responsive layout bugs", 3, "In Progress", Some("member-4"))
  ]

  /** The seed plan text of a roster member. */
  function MockPlanText(memberId: string): string {
    if memberId == "member-1" then "Working on PROJ-102, then PROJ-104 review."
    else if memberId == "member-2" then "Starting PROJ-103 development."
    else if memberId == "member-3" then "Finalizing PROJ-106 tests, then available."
    else "Continuing PROJ-107 bug fixes."
  }

  /** The seed capacity flag of a roster member. */
  function MockCapacity(memberId: string): CapacityFlag {
    if memberId == "member-3" then Available
    else if memberId == "member-4" then Partial
    else AtLimit
  }

  /** The seed stand-up entries, one per roster member, all dated `day`. The
      source dates them with the UTC calendar day at the moment the module is
      loaded; `day` stands for that value. */
  function MockInitialDailyEntries(day: string): (entries: seq<DailyEntry>)
    ensures |entries| == |MockTeamMembers|
    ensures forall i :: 0 <= i < |entries| ==>
      entries[i].memberId == MockTeamMembers[i].id && entries[i].date == day
  {
    seq(|MockTeamMembers|, i requires 0 <= i < |MockTeamMembers| =>
      var id := MockTeamMembers[i].id;
      DailyEntry(day + "-" + id, day, id, MockPlanText(id), MockCapacity(id)))
  }

  datatype CapacityOption = CapacityOption(value: CapacityFlag, labelText: string, color: string, iconColor: string)

  const CapacityOptions: seq<CapacityOption> := [
    CapacityOption(Available, "Available", "bg-green-500", "text-green-700"),
    CapacityOption(Partial, "Partial", "bg-yellow-500", "text-yellow-700"),
    CapacityOption(AtLimit, "At Limit", "bg-red-500", "text-red-700")
  ]

  const TaskStatusOptions: seq<TaskStatus> := [ToDo, InProgress, Review, Blocked, Done]

  /** The story-point budget of a capacity flag. */
  function GetCapacityInStoryPoints(flag: CapacityFlag): (points: int)
    ensures points == 8 || points == 4 || points == 0
    ensures points == 8 <==> flag == Available
    ensures points == 0 <==> flag == AtLimit
  {
    match flag
    case Available => 8
    case Partial => 4
    case AtLimit => 0
  }

  /** Less availability never means more budget. */
  lemma CapacityMonotone()
    ensures GetCapacityInStoryPoints(Available) >= GetCapacityInStoryPoints(Partial) >= GetCapacityInStoryPoints(AtLimit)
  {
  }

  /** The capacity option list offers each flag exactly once and starts with
      "available", the flag new stand-up entries get. */
  lemma CapacityOptionsComplete(flag: CapacityFlag)
    ensures CapacityOptions[0].value == Available
    ensures |CapacityOptions| == 3
    ensures exists i :: 0 <= i < 3 && CapacityOptions[i].value == flag
    ensures forall i, j :: 0 <= i < j < 3 ==> CapacityOptions[i].value != CapacityOptions[j].value
  {
    match flag
    case Available => assert CapacityOptions[0].value == flag;
    case Partial => assert CapacityOptions[1].value == flag;
    case AtLimit => assert CapacityOptions[2].value == flag;
  }

  /** The status option list names each of the five statuses exactly once. */
  lemma TaskStatusOptionsComplete(s: TaskStatus)
    ensures |TaskStatusOptions| == 5
    ensures multiset(TaskStatusOptions)[s] == 1
  {
  }

  /** The seed data satisfies the board's preconditions: a well-formed roster,
      distinct task ids and only known assignees. */
  lemma MockDataWellFormed()
    ensures RosterWellFormed(MockTeamMembers)
    ensures DistinctTaskIds(MockInitialTasks)
    ensures AssigneesKnown(MockInitialTasks, MockTeamMembers)
  {
    var ids := MemberIds(MockTeamMembers);
    assert ids == ["member-1", "member-2", "member-3", "member-4"];
  }
}
