/** The data side of AI backlog balancing in src/hooks/use-backlog-data.ts:
    the load and capacity snapshot sent to the balancer
    (`triggerAiBalancing`) and the application of the suggestions it returns
    (`applyAiSuggestions`). The balancer itself is not part of this model;
    its answer is an input. */
module Balancing {
  import opened Wrappers
  import opened Types
  import opened SeqUtil
  import opened MockData
  import opened Board

  /** One reassignment proposed by the balancer. */
  datatype Suggestion = Suggestion(taskId: string, assigneeId: string, reason: string)

  /** The balancer's answer: the suggestions in order and a summary text. */
  datatype BalanceOutput = BalanceOutput(suggestions: seq<Suggestion>, summary: string)

  /** A member as sent to the balancer. */
  datatype MemberSnapshot = MemberSnapshot(id: string, name: string, capacity: int, currentLoad: int)

  /** A task as sent to the balancer. */
  datatype TaskSnapshot = TaskSnapshot(id: string, name: string, storyPoints: int, assigneeId: Option<string>)

  datatype BalanceInput = BalanceInput(teamMembers: seq<MemberSnapshot>, tasks: seq<TaskSnapshot>)

  // ---------------------------------------------------------------------
  // Applying suggestions

  /** One step of the `forEach`: overwrite the assignee of a known task. */
  function ApplySuggestion(tasks: map<string, Task>, s: Suggestion): map<string, Task> {
    if s.taskId in tasks then tasks[s.taskId := tasks[s.taskId].(assigneeId := Some(s.assigneeId))] else tasks
  }

  /** All suggestions, in list order. */
  function ApplySuggestions(tasks: map<string, Task>, ss: seq<Suggestion>): (applied: map<string, Task>)
    ensures applied.Keys == tasks.Keys
    decreases |ss|
  {
    if ss == [] then tasks else ApplySuggestion(ApplySuggestions(tasks, ss[..|ss| - 1]), ss[|ss| - 1])
  }

  /** The assignee of the last suggestion for task `k`, if any. */
  function LastSuggestionFor(ss: seq<Suggestion>, k: string): (a: Option<string>)
    ensures a.None? ==> forall i :: 0 <= i < |ss| ==> ss[i].taskId != k
    decreases |ss|
  {
    if ss == [] then None
    else if ss[|ss| - 1].taskId == k then Some(ss[|ss| - 1].assigneeId)
    else LastSuggestionFor(ss[..|ss| - 1], k)
  }

  /** The last suggestion for `k` is the one no later suggestion for `k`
      follows; there is none exactly when no suggestion names `k`. */
  lemma {:induction false} LastSuggestionForSpec(ss: seq<Suggestion>, k: string)
    ensures LastSuggestionFor(ss, k).None? <==> forall i :: 0 <= i < |ss| ==> ss[i].taskId != k
    ensures LastSuggestionFor(ss, k).Some? ==>
      exists i :: 0 <= i < |ss| && ss[i].taskId == k && ss[i].assigneeId == LastSuggestionFor(ss, k).value
        && forall j :: i < j < |ss| ==> ss[j].taskId != k
    decreases |ss|
  {
    if ss != [] {
      var init := ss[..|ss| - 1];
      LastSuggestionForSpec(init, k);
      if ss[|ss| - 1].taskId != k {
        if LastSuggestionFor(init, k).Some? {
          var i :| 0 <= i < |init| && init[i].taskId == k && init[i].assigneeId == LastSuggestionFor(init, k).value
            && forall j :: i < j < |init| ==> init[j].taskId != k;
          assert ss[i] == init[i];
        }
        forall i | 0 <= i < |init| ensures ss[i] == init[i] { }
      }
    }
  }

  /** Applying suggestions keeps the task keys and every field but the
      assignee; a task gets the assignee of the last suggestion naming it,
      and keeps its own when none does. */
  lemma {:induction false} ApplySuggestionsSpec(tasks: map<string, Task>, ss: seq<Suggestion>, k: string)
    ensures ApplySuggestions(tasks, ss).Keys == tasks.Keys
    ensures k in tasks ==>
      (ApplySuggestions(tasks, ss)[k] ==
        match LastSuggestionFor(ss, k)
        case None => tasks[k]
        case Some(a) => tasks[k].(assigneeId := Some(a)))
    decreases |ss|
  {
    if ss != [] {
      ApplySuggestionsSpec(tasks, ss[..|ss| - 1], k);
    }
  }

  /** `applyAiSuggestions`: without suggestions nothing happens; otherwise
      the suggestions are applied to the task map and the board is rebuilt
      from it (src/hooks/use-backlog-data.ts:194-206). */
  function AppliedBoard(b: KanbanBoardData, out: Option<BalanceOutput>, members: seq<TeamMember>): (r: KanbanBoardData)
    requires forall k :: k in b.taskOrder ==> k in b.tasks
    ensures out.None? ==> r == b
    ensures out.Some? ==> |r.columnOrder| == |members| + 1 && r.columnOrder[0] == Unassigned
  {
    match out
    case None => b
    case Some(o) =>
      ApplySuggestionsSpec(b.tasks, o.suggestions, "");
      Rebuild(b.(tasks := ApplySuggestions(b.tasks, o.suggestions)), members)
  }

  /** When every suggested assignee is a roster id, applying the suggestions
      yields a consistent board that holds the applied task map. */
  lemma AppliedBoardConsistent(b: KanbanBoardData, o: BalanceOutput, members: seq<TeamMember>)
    requires WellKeyed(b)
    requires RosterWellFormed(members)
    requires BoardAssigneesKnown(b, members)
    requires forall i :: 0 <= i < |o.suggestions| ==> o.suggestions[i].assigneeId in MemberIds(members)
    ensures Consistent(AppliedBoard(b, Some(o), members))
    ensures AppliedBoard(b, Some(o), members).tasks == ApplySuggestions(b.tasks, o.suggestions)
  {
    var applied := b.(tasks := ApplySuggestions(b.tasks, o.suggestions));
    forall k ensures ApplySuggestions(b.tasks, o.suggestions).Keys == b.tasks.Keys
      && (k in b.tasks ==>
            (applied.tasks[k].id == b.tasks[k].id
             && (applied.tasks[k].assigneeId.Some? ==> applied.tasks[k].assigneeId.value in MemberIds(members))))
    {
      ApplySuggestionsSpec(b.tasks, o.suggestions, k);
      LastSuggestionForSpec(o.suggestions, k);
    }
    assert WellKeyed(applied);
    RebuildConsistent(applied, members);
  }

  // ---------------------------------------------------------------------
  // The snapshot

  /** `dailyEntries.find(e => e.memberId === memberId)`. */
  function FirstEntryFor(entries: seq<DailyEntry>, memberId: string): Option<DailyEntry> {
    if entries == [] then None
    else if entries[0].memberId == memberId then Some(entries[0])
    else FirstEntryFor(entries[1..], memberId)
  }

  /** The capacity flag a member is balanced with: that of their first
      entry, "available" when they have none. */
  function CapacityFlagFor(entries: seq<DailyEntry>, memberId: string): (flag: CapacityFlag)
    ensures (forall i :: 0 <= i < |entries| ==> entries[i].memberId != memberId) ==> flag == Available
    ensures flag != Available ==> exists i :: 0 <= i < |entries| && entries[i].memberId == memberId && entries[i].capacityFlag == flag
  {
    FirstEntryForSpec(entries, memberId);
    match FirstEntryFor(entries, memberId)
    case Some(e) => e.capacityFlag
    case None => Available
  }

  /** The tasks counting towards a member's load: assigned to them and not
      "Done". */
  function LoadTasks(tasks: seq<Task>, memberId: string): (load: seq<Task>)
    ensures |load| <= |tasks|
    ensures forall t :: t in load ==> t.assigneeId == Some(memberId) && t.status != "Done"
  {
    if tasks == [] then []
    else
      (if tasks[0].assigneeId == Some(memberId) && tasks[0].status != "Done" then [tasks[0]] else [])
      + LoadTasks(tasks[1..], memberId)
  }

  function CurrentLoad(tasks: seq<Task>, memberId: string): (load: int)
    ensures (forall i :: 0 <= i < |tasks| ==> tasks[i].storyPoints >= 0) ==> load >= 0
  {
    LoadNonNegative(tasks, memberId);
    TotalStoryPoints(LoadTasks(tasks, memberId))
  }

  /** With no negative estimates, no member's load is negative. */
  lemma {:induction false} LoadNonNegative(tasks: seq<Task>, memberId: string)
    ensures (forall i :: 0 <= i < |tasks| ==> tasks[i].storyPoints >= 0) ==> TotalStoryPoints(LoadTasks(tasks, memberId)) >= 0
  {
    if tasks != [] && forall i :: 0 <= i < |tasks| ==> tasks[i].storyPoints >= 0 {
      var head := if tasks[0].assigneeId == Some(memberId) && tasks[0].status != "Done" then [tasks[0]] else [];
      assert forall i :: 0 <= i < |tasks[1..]| ==> tasks[1..][i].storyPoints >= 0 by {
        forall i | 0 <= i < |tasks[1..]| ensures tasks[1..][i].storyPoints >= 0 {
          assert tasks[1..][i] == tasks[i + 1];
        }
      }
      LoadNonNegative(tasks[1..], memberId);
      TotalStoryPointsAppend(head, LoadTasks(tasks[1..], memberId));
    }
  }

  /** The member record extended with load and capacity. */
  function MemberWithLoad(member: TeamMember, entries: seq<DailyEntry>, tasks: seq<Task>): (tm: TeamMemberWithLoad)
    ensures tm.member == member && tm.capacitySP.None?
    ensures tm.capacity == 8 || tm.capacity == 4 || tm.capacity == 0
    ensures tm.currentLoad == CurrentLoad(tasks, member.id)
  {
    TeamMemberWithLoad(member, CurrentLoad(tasks, member.id), None,
      GetCapacityInStoryPoints(CapacityFlagFor(entries, member.id)))
  }

  /** `tm.capacitySP || tm.capacity || 0`. */
  function InputCapacity(tm: TeamMemberWithLoad): (capacity: int)
    ensures tm.capacitySP.None? ==> capacity == tm.capacity
    ensures tm.capacitySP.Some? && tm.capacitySP.value != 0 ==> capacity == tm.capacitySP.value
    ensures tm.capacitySP.Some? && tm.capacitySP.value == 0 ==> capacity == tm.capacity
  {
    if tm.capacitySP.Some? && tm.capacitySP.value != 0 then tm.capacitySP.value
    else if tm.capacity != 0 then tm.capacity
    else 0
  }

  function SnapshotMember(tm: TeamMemberWithLoad): MemberSnapshot {
    MemberSnapshot(tm.member.id, tm.member.name, InputCapacity(tm), tm.currentLoad)
  }

  function SnapshotTask(t: Task): TaskSnapshot {
    TaskSnapshot(t.id, t.summary, t.storyPoints, t.assigneeId)
  }

  /** The input `triggerAiBalancing` sends, from the roster, the day's
      entries and the board's tasks in key order. */
  function BalanceSnapshot(members: seq<TeamMember>, entries: seq<DailyEntry>, tasks: seq<Task>): (input: BalanceInput)
    ensures |input.teamMembers| == |members| && |input.tasks| == |tasks|
  {
    BalanceInput(
      seq(|members|, i requires 0 <= i < |members| => SnapshotMember(MemberWithLoad(members[i], entries, tasks))),
      seq(|tasks|, i requires 0 <= i < |tasks| => SnapshotTask(tasks[i])))
  }

  /** The first entry of a member is the earliest one with their id. */
  lemma {:induction false} FirstEntryForSpec(entries: seq<DailyEntry>, memberId: string)
    ensures FirstEntryFor(entries, memberId).None? <==> forall i :: 0 <= i < |entries| ==> entries[i].memberId != memberId
    ensures FirstEntryFor(entries, memberId).Some? ==>
      exists i :: 0 <= i < |entries| && entries[i] == FirstEntryFor(entries, memberId).value
        && entries[i].memberId == memberId && forall j :: 0 <= j < i ==> entries[j].memberId != memberId
  {
    if entries != [] && entries[0].memberId != memberId {
      var rest := entries[1..];
      FirstEntryForSpec(rest, memberId);
      if FirstEntryFor(rest, memberId).Some? {
        var i :| 0 <= i < |rest| && rest[i] == FirstEntryFor(rest, memberId).value
          && rest[i].memberId == memberId && forall j :: 0 <= j < i ==> rest[j].memberId != memberId;
        assert entries[i + 1] == rest[i];
        forall j | 0 <= j < i + 1 ensures entries[j].memberId != memberId {
          if j > 0 { assert entries[j] == rest[j - 1]; }
        }
      }
      forall i | 0 <= i < |rest| ensures entries[i + 1] == rest[i] { }
    }
  }

  /** A task counts towards a member's load exactly when it is assigned to
      them and is not done. */
  lemma {:induction false} LoadTasksMembership(tasks: seq<Task>, memberId: string, t: Task)
    ensures t in LoadTasks(tasks, memberId) <==> t in tasks && t.assigneeId == Some(memberId) && t.status != "Done"
  {
    if tasks != [] {
      LoadTasksMembership(tasks[1..], memberId, t);
      assert tasks == [tasks[0]] + tasks[1..];
    }
  }

  /** The open tasks of a member over a concatenation are those of each
      part, in order. */
  lemma {:induction false} LoadTasksAppend(a: seq<Task>, b: seq<Task>, memberId: string)
    ensures LoadTasks(a + b, memberId) == LoadTasks(a, memberId) + LoadTasks(b, memberId)
    decreases |a|
  {
    if a == [] {
      assert a + b == b;
    } else {
      var head := if a[0].assigneeId == Some(memberId) && a[0].status != "Done" then [a[0]] else [];
      assert (a + b)[0] == a[0];
      assert (a + b)[1..] == a[1..] + b;
      LoadTasksAppend(a[1..], b, memberId);
      assert LoadTasks(a + b, memberId) == head + (LoadTasks(a[1..], memberId) + LoadTasks(b, memberId));
    }
  }

  /** Loads add up over a concatenation of task lists. */
  lemma CurrentLoadAppend(a: seq<Task>, b: seq<Task>, memberId: string)
    ensures LoadTasks(a + b, memberId) == LoadTasks(a, memberId) + LoadTasks(b, memberId)
    ensures CurrentLoad(a + b, memberId) == CurrentLoad(a, memberId) + CurrentLoad(b, memberId)
  {
    LoadTasksAppend(a, b, memberId);
    TotalStoryPointsAppend(LoadTasks(a, memberId), LoadTasks(b, memberId));
  }

  /** Each member of the snapshot carries their roster id and name, the
      story-point budget of their first entry's flag ("available" when they
      have none), and the points of their open tasks; each task carries its
      id, summary, points and assignee (src/hooks/use-backlog-data.ts:160-180). */
  lemma SnapshotSpec(members: seq<TeamMember>, entries: seq<DailyEntry>, tasks: seq<Task>, i: nat, j: nat)
    requires i < |members| && j < |tasks|
    ensures var input := BalanceSnapshot(members, entries, tasks); var m := input.teamMembers[i];
      && m.id == members[i].id && m.name == members[i].name
      && m.capacity == GetCapacityInStoryPoints(
           if FirstEntryFor(entries, members[i].id).Some? then FirstEntryFor(entries, members[i].id).value.capacityFlag else Available)
      && m.currentLoad == TotalStoryPoints(LoadTasks(tasks, members[i].id))
      && input.tasks[j] == TaskSnapshot(tasks[j].id, tasks[j].summary, tasks[j].storyPoints, tasks[j].assigneeId)
  {
  }
}
