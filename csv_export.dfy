/** The CSV export of src/lib/utils.ts (`exportTasksToCsv`): one row per
    task with its key, summary, points, status and the assignee's name. The
    exported file carries the columns of both import files, so reading it
    back through the import is the partner of the export. */
module CsvExport {
  import opened Wrappers
  import opened Types
  import opened SeqUtil
  import opened Decimal
  import opened CsvMerge

  /** One exported row; story points are written as a number. */
  datatype ExportRow = ExportRow(issueKey: string, summary: string, storyPoints: int, status: string, assignee: string)

  /** `teamMembers.find(m => m.id === id)`. */
  function FindById(members: seq<TeamMember>, id: string): (found: Option<TeamMember>)
    ensures found.Some? ==> found.value in members && found.value.id == id
  {
    if members == [] then None
    else if members[0].id == id then Some(members[0])
    else FindById(members[1..], id)
  }

  /** `getAssigneeName`: '' for a missing assignee or an id nobody has,
      otherwise the name of the first member with that id. */
  function AssigneeName(members: seq<TeamMember>, assigneeId: Option<string>): (name: string)
    ensures Falsy(assigneeId) ==> name == ""
    ensures name != "" ==> exists m :: m in members && Some(m.id) == assigneeId && m.name == name
  {
    if Falsy(assigneeId) then ""
    else
      match FindById(members, assigneeId.value)
      case None => ""
      case Some(m) => m.name
  }

  /** One exported row: the task's key (blank without one), summary, points
      and status, and the name of its assignee. */
  function ExportRowOf(t: Task, members: seq<TeamMember>): (row: ExportRow)
    ensures row.summary == t.summary && row.storyPoints == t.storyPoints && row.status == t.status
    ensures t.jiraKey.Some? ==> row.issueKey == t.jiraKey.value
    ensures t.jiraKey.None? ==> row.issueKey == ""
    ensures row.assignee != "" ==> exists m :: m in members && Some(m.id) == t.assigneeId && m.name == row.assignee
  {
    ExportRow(t.jiraKey.GetOr(""), t.summary, t.storyPoints, t.status, AssigneeName(members, t.assigneeId))
  }

  /** `csvData`: the rows of the export, in task order. */
  function ExportRows(tasks: seq<Task>, members: seq<TeamMember>): (rows: seq<ExportRow>)
    ensures |rows| == |tasks|
    ensures forall i :: 0 <= i < |tasks| ==>
              && rows[i].issueKey == tasks[i].jiraKey.GetOr("")
              && rows[i].summary == tasks[i].summary
              && rows[i].storyPoints == tasks[i].storyPoints
              && rows[i].status == tasks[i].status
              && rows[i].assignee == AssigneeName(members, tasks[i].assigneeId)
  {
    seq(|tasks|, i requires 0 <= i < |tasks| => ExportRowOf(tasks[i], members))
  }

  /** The exported file read as a new-items file, numbers as their text. */
  function AsNewItems(rows: seq<ExportRow>): seq<NewItemRow> {
    seq(|rows|, i requires 0 <= i < |rows| =>
      NewItemRow(Some(rows[i].issueKey), Some(rows[i].summary), Some(IntToString(rows[i].storyPoints))))
  }

  /** The exported file read as a status file. */
  function AsStatusRows(rows: seq<ExportRow>): seq<StatusRow> {
    seq(|rows|, i requires 0 <= i < |rows| =>
      StatusRow(Some(rows[i].issueKey), Some(rows[i].status), Some(rows[i].assignee)))
  }

  lemma {:induction false} FindByIdSpec(members: seq<TeamMember>, p: nat)
    requires RosterWellFormed(members)
    requires p < |members|
    ensures FindById(members, members[p].id) == Some(members[p])
  {
    if p > 0 {
      var rest := members[1..];
      assert members[0].id != members[p].id;
      assert rest[p - 1] == members[p];
      FindByIdSpec(rest, p - 1);
    }
  }

  lemma {:induction false} FindByIdMissing(members: seq<TeamMember>, id: string)
    requires id !in MemberIds(members)
    ensures FindById(members, id) == None
  {
    if members != [] {
      assert MemberIds(members)[0] == members[0].id;
      var rest := members[1..];
      forall i | 0 <= i < |rest| ensures MemberIds(rest)[i] != id {
        assert MemberIds(members)[i + 1] == rest[i].id;
      }
      FindByIdMissing(rest, id);
    }
  }

  /** The exported assignee is '' for a missing assignee and for an id not
      on the roster, and otherwise that member's name
      (src/lib/utils.ts:124-127). */
  lemma AssigneeNameSpec(members: seq<TeamMember>, assigneeId: Option<string>)
    requires RosterWellFormed(members)
    ensures Falsy(assigneeId) ==> AssigneeName(members, assigneeId) == ""
    ensures assigneeId.Some? && assigneeId.value !in MemberIds(members) ==> AssigneeName(members, assigneeId) == ""
    ensures forall p :: 0 <= p < |members| && assigneeId == Some(members[p].id) ==>
      AssigneeName(members, assigneeId) == members[p].name
  {
    if assigneeId.Some? && assigneeId.value !in MemberIds(members) {
      FindByIdMissing(members, assigneeId.value);
    }
    forall p | 0 <= p < |members| && assigneeId == Some(members[p].id)
      ensures AssigneeName(members, assigneeId) == members[p].name
    {
      FindByIdSpec(members, p);
    }
  }

  /** Names that the import can tell apart: present, and distinct ignoring
      case. */
  ghost predicate NamesUsable(members: seq<TeamMember>) {
    && (forall i :: 0 <= i < |members| ==> members[i].name != "")
    && (forall i, j :: 0 <= i < j < |members| ==> ToLower(members[i].name) != ToLower(members[j].name))
  }

  /** Exporting an assignee and looking the name up again gives the
      assignee back, when the roster's names are usable. */
  lemma AssigneeRoundTrip(members: seq<TeamMember>, assigneeId: Option<string>)
    requires RosterWellFormed(members) && NamesUsable(members)
    requires assigneeId.Some? ==> assigneeId.value in MemberIds(members)
    ensures MemberIdByName(members, Some(AssigneeName(members, assigneeId))) == assigneeId
  {
    AssigneeNameSpec(members, assigneeId);
    if assigneeId.Some? {
      var p :| 0 <= p < |members| && MemberIds(members)[p] == assigneeId.value;
      var name := members[p].name;
      MemberIdByNameSpec(members, Some(name));
      var r := MemberIdByName(members, Some(name));
      assert r.Some?;
      var i :| 0 <= i < |members| && members[i].id == r.value
        && ToLower(members[i].name) == ToLower(name)
        && forall j :: 0 <= j < i ==> ToLower(members[j].name) != ToLower(name);
      assert i == p;
    }
  }

  /** Tasks the import can read back unchanged: each has its own non-empty
      key, a summary and a status, and a null or roster assignee. */
  ghost predicate Exportable(tasks: seq<Task>, members: seq<TeamMember>) {
    && (forall i :: 0 <= i < |tasks| ==> tasks[i].jiraKey.Some? && tasks[i].jiraKey.value != "")
    && (forall i, j :: 0 <= i < j < |tasks| ==> tasks[i].jiraKey != tasks[j].jiraKey)
    && (forall i :: 0 <= i < |tasks| ==> tasks[i].summary != "" && tasks[i].status != "")
    && AssigneesKnown(tasks, members)
  }

  function KeysOf(rows: seq<ExportRow>): seq<string> {
    seq(|rows|, i requires 0 <= i < |rows| => rows[i].issueKey)
  }

  /** The key of every new-items row, when none is falsy. */
  function ItemKeys(items: seq<NewItemRow>): seq<string>
    requires forall i :: 0 <= i < |items| ==> items[i].issueKey.Some?
  {
    seq(|items|, i requires 0 <= i < |items| => items[i].issueKey.value)
  }

  lemma {:induction false} NewItemKeysAllKeyed(items: seq<NewItemRow>)
    requires forall i :: 0 <= i < |items| ==> items[i].issueKey.Some? && items[i].issueKey.value != ""
    ensures NewItemKeys(items) == ItemKeys(items)
    decreases |items|
  {
    if items != [] {
      var init := items[..|items| - 1];
      NewItemKeysAllKeyed(init);
      assert ItemKeys(items) == ItemKeys(init) + [items[|items| - 1].issueKey.value];
    }
  }

  lemma NewItemKeysOfExport(rows: seq<ExportRow>)
    requires forall i :: 0 <= i < |rows| ==> rows[i].issueKey != ""
    ensures NewItemKeys(AsNewItems(rows)) == KeysOf(rows)
  {
    var items := AsNewItems(rows);
    NewItemKeysAllKeyed(items);
    assert ItemKeys(items) == KeysOf(rows);
  }

  /** The key of every status row, when none is missing. */
  function StatusRowKeys(rows: seq<StatusRow>): seq<string>
    requires forall i :: 0 <= i < |rows| ==> rows[i].issueKey.Some?
  {
    seq(|rows|, i requires 0 <= i < |rows| => rows[i].issueKey.value)
  }

  lemma {:induction false} StatusKeysAllKeyed(rows: seq<StatusRow>)
    requires forall i :: 0 <= i < |rows| ==> rows[i].issueKey.Some? && rows[i].issueKey.value != ""
    ensures StatusKeys(rows) == StatusRowKeys(rows)
    decreases |rows|
  {
    if rows != [] {
      var init := rows[..|rows| - 1];
      StatusKeysAllKeyed(init);
      assert StatusRowKeys(rows) == StatusRowKeys(init) + [rows[|rows| - 1].issueKey.value];
    }
  }

  lemma StatusKeysOfExport(rows: seq<ExportRow>)
    requires forall i :: 0 <= i < |rows| ==> rows[i].issueKey != ""
    ensures StatusKeys(AsStatusRows(rows)) == KeysOf(rows)
  {
    var statusRows := AsStatusRows(rows);
    StatusKeysAllKeyed(statusRows);
    assert StatusRowKeys(statusRows) == KeysOf(rows);
  }


  /** With one row per key, the last row of a key is its only row. */
  lemma {:induction false} LastNewItemOfExport(rows: seq<ExportRow>, i: nat)
    requires i < |rows| && rows[i].issueKey != ""
    requires forall j :: 0 <= j < |rows| && j != i ==> rows[j].issueKey != rows[i].issueKey
    ensures LastNewItem(AsNewItems(rows), rows[i].issueKey) == Some(AsNewItems(rows)[i])
    decreases |rows|
  {
    var init := rows[..|rows| - 1];
    assert AsNewItems(rows)[..|rows| - 1] == AsNewItems(init);
    if i < |rows| - 1 {
      LastNewItemOfExport(init, i);
    }
  }

  lemma {:induction false} LastStatusOfExport(rows: seq<ExportRow>, i: nat)
    requires i < |rows| && rows[i].issueKey != ""
    requires forall j :: 0 <= j < |rows| && j != i ==> rows[j].issueKey != rows[i].issueKey
    ensures LastStatus(AsStatusRows(rows), rows[i].issueKey) == Some(AsStatusRows(rows)[i])
    decreases |rows|
  {
    var init := rows[..|rows| - 1];
    assert AsStatusRows(rows)[..|rows| - 1] == AsStatusRows(init);
    if i < |rows| - 1 {
      LastStatusOfExport(init, i);
    }
  }

  /** The keys of the merged read-back are the exported keys, in order. */
  lemma ReadBackKeys(tasks: seq<Task>, members: seq<TeamMember>)
    requires Exportable(tasks, members)
    ensures MergedKeys(AsNewItems(ExportRows(tasks, members)), AsStatusRows(ExportRows(tasks, members)))
      == KeysOf(ExportRows(tasks, members))
  {
    var rows := ExportRows(tasks, members);
    var keys := KeysOf(rows);
    NewItemKeysOfExport(rows);
    StatusKeysOfExport(rows);
    FirstAppearanceCovered(keys, keys);
    assert Distinct(keys) by {
      forall i, j | 0 <= i < j < |keys| ensures keys[i] != keys[j] {
        assert tasks[i].jiraKey != tasks[j].jiraKey;
      }
    }
    FirstAppearanceOfDistinct(keys);
  }

  /** Exporting tasks and importing the file as both the new-items and the
      status file gives the same tasks back, renumbered and stamped with the
      upload day, when every task has its own key, a summary and a status
      and the roster's names are usable (src/lib/utils.ts:122-135 against
      src/lib/utils.ts:45-98). */
  lemma ExportImportRoundTrip(tasks: seq<Task>, members: seq<TeamMember>, today: string)
    requires RosterWellFormed(members) && NamesUsable(members)
    requires Exportable(tasks, members)
    ensures var rows := ExportRows(tasks, members);
      var back := MergeSpec(AsNewItems(rows), AsStatusRows(rows), members, today);
      && |back| == |tasks|
      && forall i :: 0 <= i < |tasks| ==> back[i] == tasks[i].(id := TaskId(i + 1), dayLoaded := Some(today))
  {
    var rows := ExportRows(tasks, members);
    var newItems := AsNewItems(rows);
    var statusRows := AsStatusRows(rows);
    ReadBackKeys(tasks, members);
    var back := MergeSpec(newItems, statusRows, members, today);
    forall i | 0 <= i < |tasks|
      ensures back[i] == tasks[i].(id := TaskId(i + 1), dayLoaded := Some(today))
    {
      var t := tasks[i];
      var k := rows[i].issueKey;
      forall j | 0 <= j < |rows| && j != i ensures rows[j].issueKey != k {
        if j < i { assert tasks[j].jiraKey != t.jiraKey; } else { assert t.jiraKey != tasks[j].jiraKey; }
      }
      LastNewItemOfExport(rows, i);
      LastStatusOfExport(rows, i);
      MergeTaskSpec(newItems, statusRows, members, today, i);
      NumberOrZeroIntToString(t.storyPoints);
      assert t.assigneeId.Some? ==> t.assigneeId.value in MemberIds(members);
      AssigneeRoundTrip(members, t.assigneeId);
    }
  }
}
