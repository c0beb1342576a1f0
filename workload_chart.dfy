/** The data behind the team workload bar chart
    (src/components/backlog/workload-chart.tsx): one bar per member, holding
    the story points of their tasks that are not done. */
module WorkloadChart {
  import opened Wrappers
  import opened Types
  import opened Balancing

  const MemberColors: seq<string> := ["#8884d8", "#82ca9d", "#ffc658", "#ff8042", "#0088FE", "#00C49F", "#FFBB28"]

  /** One bar: the member's first name, their open points, the bar colour. */
  datatype WorkloadRow = WorkloadRow(name: string, storyPoints: int, fill: string)

  /** `name.split(' ')[0]`: the name up to its first space. */
  function FirstName(name: string): (first: string)
    ensures first <= name && ' ' !in first
  {
    if name == [] || name[0] == ' ' then [] else [name[0]] + FirstName(name[1..])
  }

  /** `tasks.filter(task => task.status !== 'Done')`. */
  function ActiveTasks(tasks: seq<Task>): (active: seq<Task>)
    ensures |active| <= |tasks|
    ensures forall t :: t in active ==> t.status != "Done"
  {
    if tasks == [] then []
    else (if tasks[0].status != "Done" then [tasks[0]] else []) + ActiveTasks(tasks[1..])
  }

  /** `activeTasks.filter(task => task.assigneeId === member.id)`. */
  function MemberTasks(tasks: seq<Task>, memberId: string): (own: seq<Task>)
    ensures |own| <= |tasks|
    ensures forall t :: t in own ==> t.assigneeId == Some(memberId)
  {
    if tasks == [] then []
    else (if tasks[0].assigneeId == Some(memberId) then [tasks[0]] else []) + MemberTasks(tasks[1..], memberId)
  }

  /** `workloadData`: one row per member, in roster order. */
  function WorkloadData(tasks: seq<Task>, members: seq<TeamMember>): (rows: seq<WorkloadRow>)
    ensures |rows| == |members|
  {
    var active := ActiveTasks(tasks);
    seq(|members|, i requires 0 <= i < |members| =>
      WorkloadRow(FirstName(members[i].name), TotalStoryPoints(MemberTasks(active, members[i].id)),
        MemberColors[i % |MemberColors|]))
  }

  /** The first name is the longest space-free prefix of the name. */
  lemma {:induction false} FirstNameSpec(name: string)
    ensures |FirstName(name)| <= |name| && FirstName(name) == name[..|FirstName(name)|]
    ensures ' ' !in FirstName(name)
    ensures |FirstName(name)| < |name| ==> name[|FirstName(name)|] == ' '
  {
    if name != [] && name[0] != ' ' {
      FirstNameSpec(name[1..]);
    }
  }

  /** Filtering done tasks and then a member's tasks picks the tasks the
      balancer counts as that member's load. */
  lemma {:induction false} ChartFilterIsLoadFilter(tasks: seq<Task>, memberId: string)
    ensures MemberTasks(ActiveTasks(tasks), memberId) == LoadTasks(tasks, memberId)
  {
    if tasks != [] {
      ChartFilterIsLoadFilter(tasks[1..], memberId);
      var head := if tasks[0].status != "Done" then [tasks[0]] else [];
      var rest := ActiveTasks(tasks[1..]);
      assert ActiveTasks(tasks) == head + rest;
      if head == [] {
        assert head + rest == rest;
      } else {
        assert (head + rest)[0] == tasks[0] && (head + rest)[1..] == rest;
        assert MemberTasks(head + rest, memberId)
          == (if tasks[0].assigneeId == Some(memberId) then [tasks[0]] else []) + MemberTasks(rest, memberId);
      }
    }
  }

  /** A bar shows the member's first name, the same load the balancer is
      sent for them, and the colour at their position modulo seven
      (src/components/backlog/workload-chart.tsx:14-27). */
  lemma WorkloadRowSpec(tasks: seq<Task>, members: seq<TeamMember>, i: nat)
    requires i < |members|
    ensures var row := WorkloadData(tasks, members)[i];
      && row.storyPoints == CurrentLoad(tasks, members[i].id)
      && row.name == FirstName(members[i].name)
      && row.fill == MemberColors[i % 7]
  {
    ChartFilterIsLoadFilter(tasks, members[i].id);
  }

  /** A task that is done, or not assigned to a member, adds nothing to that
      member's bar. */
  lemma WorkloadIgnoresOthers(tasks: seq<Task>, t: Task, members: seq<TeamMember>, i: nat)
    requires i < |members|
    requires t.status == "Done" || t.assigneeId != Some(members[i].id)
    ensures WorkloadData(tasks + [t], members)[i] == WorkloadData(tasks, members)[i]
  {
    var id := members[i].id;
    ChartFilterIsLoadFilter(tasks, id);
    ChartFilterIsLoadFilter(tasks + [t], id);
    CurrentLoadAppend(tasks, [t], id);
    assert LoadTasks([t], id) == [];
  }
}
