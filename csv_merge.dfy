/** The CSV import of src/lib/utils.ts (`processUploadedCsvs`): parsed rows
    of a "new items" export and a "status" export are merged by issue key
    into one task per key, with defaults, a case-insensitive assignee lookup
    and generated ids. Parsing the CSV text itself is not part of this model;
    the rows are its input. */
module CsvMerge {
  import opened Wrappers
  import opened Types
  import opened SeqUtil
  import opened Decimal
  import opened Board
  import opened MockData

  /** A row of the new-items file; a missing cell is None. */
  datatype NewItemRow = NewItemRow(issueKey: Option<string>, summary: Option<string>, storyPoints: Option<string>)

  /** A row of the status file; the assignee cell holds a member's name. */
  datatype StatusRow = StatusRow(issueKey: Option<string>, status: Option<string>, assignee: Option<string>)

  /** What the merge knows about one key so far. `assigneeId` None is
      "undefined" (no status row yet), Some(None) is null. */
  datatype PartialTask = PartialTask(
    summary: Option<string>,
    storyPoints: Option<int>,
    status: Option<string>,
    assigneeId: Option<Option<string>>)

  const EmptyPartial: PartialTask := PartialTask(None, None, None, None)

  /** `text || fallback` on an optional string. */
  function OrDefault(text: Option<string>, fallback: string): string {
    if Falsy(text) then fallback else text.value
  }

  // ---------------------------------------------------------------------
  // Assignee lookup

  /** ASCII `toLowerCase` of one character. */
  function LowerChar(c: char): char {
    if 'A' <= c <= 'Z' then (c as int + 32) as char else c
  }

  function ToLower(s: string): (r: string)
    ensures |r| == |s|
  {
    seq(|s|, i requires 0 <= i < |s| => LowerChar(s[i]))
  }

  /** `teamMembers.find(m => m.name.toLowerCase() === lowered)`. */
  function FindByLowerName(members: seq<TeamMember>, lowered: string): (found: Option<TeamMember>)
    ensures found.Some? ==> found.value in members && ToLower(found.value.name) == lowered
  {
    if members == [] then None
    else if ToLower(members[0].name) == lowered then Some(members[0])
    else FindByLowerName(members[1..], lowered)
  }

  /** `getMemberIdByName`: null for a missing or empty name, otherwise the id
      of the first member whose name matches ignoring case, or null. */
  function MemberIdByName(members: seq<TeamMember>, name: Option<string>): (id: Option<string>)
    ensures Falsy(name) ==> id.None?
    ensures id.Some? ==> exists m :: m in members && m.id == id.value && ToLower(m.name) == ToLower(name.value)
  {
    if Falsy(name) then None
    else
      match FindByLowerName(members, ToLower(name.value))
      case None => None
      case Some(m) => Some(m.id)
  }

  lemma {:induction false} FindByLowerNameSpec(members: seq<TeamMember>, lowered: string)
    ensures FindByLowerName(members, lowered).None? <==>
      forall i :: 0 <= i < |members| ==> ToLower(members[i].name) != lowered
    ensures FindByLowerName(members, lowered).Some? ==>
      exists i :: 0 <= i < |members| && members[i] == FindByLowerName(members, lowered).value
        && ToLower(members[i].name) == lowered
        && forall j :: 0 <= j < i ==> ToLower(members[j].name) != lowered
  {
    if members != [] && ToLower(members[0].name) != lowered {
      var rest := members[1..];
      FindByLowerNameSpec(rest, lowered);
      if FindByLowerName(rest, lowered).Some? {
        var i :| 0 <= i < |rest| && rest[i] == FindByLowerName(rest, lowered).value
          && ToLower(rest[i].name) == lowered
          && forall j :: 0 <= j < i ==> ToLower(rest[j].name) != lowered;
        assert members[i + 1] == rest[i];
        forall j | 0 <= j < i + 1 ensures ToLower(members[j].name) != lowered {
          if j > 0 { assert members[j] == rest[j - 1]; }
        }
      }
      forall i | 0 <= i < |rest| ensures members[i + 1] == rest[i] { }
    }
  }

  /** The lookup gives null for a missing or empty name; otherwise the id of
      the first member whose name equals it ignoring case, and null exactly
      when no name does (src/lib/utils.ts:53-57). */
  lemma MemberIdByNameSpec(members: seq<TeamMember>, name: Option<string>)
    ensures Falsy(name) ==> MemberIdByName(members, name).None?
    ensures !Falsy(name) && MemberIdByName(members, name).None? ==>
      forall i :: 0 <= i < |members| ==> ToLower(members[i].name) != ToLower(name.value)
    ensures MemberIdByName(members, name).Some? ==>
      !Falsy(name) &&
      exists i :: 0 <= i < |members| && members[i].id == MemberIdByName(members, name).value
        && ToLower(members[i].name) == ToLower(name.value)
        && forall j :: 0 <= j < i ==> ToLower(members[j].name) != ToLower(name.value)
  {
    if !Falsy(name) {
      FindByLowerNameSpec(members, ToLower(name.value));
    }
  }

  /** A looked-up id is a roster id. */
  lemma MemberIdByNameKnown(members: seq<TeamMember>, name: Option<string>)
    ensures MemberIdByName(members, name).Some? ==> MemberIdByName(members, name).value in MemberIds(members)
  {
    MemberIdByNameSpec(members, name);
    if MemberIdByName(members, name).Some? {
      var i :| 0 <= i < |members| && members[i].id == MemberIdByName(members, name).value;
      assert MemberIds(members)[i] == members[i].id;
    }
  }

  // ---------------------------------------------------------------------
  // The merge, specified

  /** A row's key cell is truthy and equal to `k`. */
  predicate HasKey(key: Option<string>, k: string) {
    key == Some(k) && k != ""
  }

  /** The truthy keys of the new-items rows, in row order. */
  function NewItemKeys(rows: seq<NewItemRow>): seq<string>
    decreases |rows|
  {
    if rows == [] then []
    else
      var last := rows[|rows| - 1];
      NewItemKeys(rows[..|rows| - 1]) + (if Falsy(last.issueKey) then [] else [last.issueKey.value])
  }

  /** The truthy keys of the status rows, in row order. */
  function StatusKeys(rows: seq<StatusRow>): seq<string>
    decreases |rows|
  {
    if rows == [] then []
    else
      var last := rows[|rows| - 1];
      StatusKeys(rows[..|rows| - 1]) + (if Falsy(last.issueKey) then [] else [last.issueKey.value])
  }

  /** The last new-items row with key `k`. */
  function LastNewItem(rows: seq<NewItemRow>, k: string): Option<NewItemRow>
    decreases |rows|
  {
    if rows == [] then None
    else if HasKey(rows[|rows| - 1].issueKey, k) then Some(rows[|rows| - 1])
    else LastNewItem(rows[..|rows| - 1], k)
  }

  /** The last status row with key `k`. */
  function LastStatus(rows: seq<StatusRow>, k: string): Option<StatusRow>
    decreases |rows|
  {
    if rows == [] then None
    else if HasKey(rows[|rows| - 1].issueKey, k) then Some(rows[|rows| - 1])
    else LastStatus(rows[..|rows| - 1], k)
  }

  /** What a new-items row records: its summary or "No summary", and its
      story points as `Number(...) || 0`. */
  function NewItemPartial(row: NewItemRow): (p: PartialTask)
    ensures p.summary.Some? && p.summary.value != "" && p.storyPoints.Some?
    ensures p.status.None? && p.assigneeId.None?
  {
    PartialTask(Some(OrDefault(row.summary, "No summary")), Some(NumberOrZero(row.storyPoints)), None, None)
  }

  /** What a status row does to the record of its key: keeps what is there
      and sets the status (default "To Do") and the looked-up assignee. */
  function StatusOverlay(existing: Option<PartialTask>, row: StatusRow, members: seq<TeamMember>): (p: PartialTask)
    ensures p.summary == existing.GetOr(EmptyPartial).summary
    ensures p.storyPoints == existing.GetOr(EmptyPartial).storyPoints
    ensures p.status.Some? && p.status.value != ""
    ensures p.assigneeId.Some? && (p.assigneeId.value.Some? ==> exists m :: m in members && m.id == p.assigneeId.value.value)
  {
    existing.GetOr(EmptyPartial).(
      status := Some(OrDefault(row.status, "To Do")),
      assigneeId := Some(MemberIdByName(members, row.assignee)))
  }

  /** The record of key `k` after both passes: the last new-items row for it,
      overlaid with the last status row for it. None when no row has it. */
  function PartialFor(newItems: seq<NewItemRow>, statusRows: seq<StatusRow>, members: seq<TeamMember>, k: string): (p: Option<PartialTask>)
    ensures p.Some? <==> LastNewItem(newItems, k).Some? || LastStatus(statusRows, k).Some?
    ensures p.Some? ==> p.value.summary.Some? || p.value.status.Some?
    ensures LastStatus(statusRows, k).Some? ==> p.Some? && p.value.status.Some? && p.value.assigneeId.Some?
  {
    var fromNew := match LastNewItem(newItems, k) case None => None case Some(r) => Some(NewItemPartial(r));
    match LastStatus(statusRows, k)
    case None => fromNew
    case Some(sr) => Some(StatusOverlay(fromNew, sr, members))
  }

  /** The keys of the merged map in insertion order. */
  function MergedKeys(newItems: seq<NewItemRow>, statusRows: seq<StatusRow>): seq<string> {
    FirstAppearance(NewItemKeys(newItems) + StatusKeys(statusRows))
  }

  /** The generated id of the `n`-th task. */
  function TaskId(n: nat): string {
    "task-" + NatToString(n)
  }

  /** The task pushed for one map entry, with the remaining defaults. */
  function FinishTask(n: nat, key: string, p: PartialTask, today: string): (t: Task)
    ensures t.id == TaskId(n) && t.jiraKey == Some(key) && t.dayLoaded == Some(today)
    ensures t.summary != "" && t.status != ""
    ensures p.storyPoints.None? ==> t.storyPoints == 0
    ensures p.assigneeId.None? ==> t.assigneeId.None?
  {
    Task(
      TaskId(n),
      Some(key),
      OrDefault(p.summary, "No summary provided"),
      p.storyPoints.GetOr(0),
      OrDefault(p.status, "To Do"),
      match p.assigneeId case None => None case Some(a) => a,
      Some(today))
  }

  /** The merged task list. */
  function MergeSpec(newItems: seq<NewItemRow>, statusRows: seq<StatusRow>, members: seq<TeamMember>, today: string): (tasks: seq<Task>)
    ensures |tasks| == |MergedKeys(newItems, statusRows)|
  {
    var keys := MergedKeys(newItems, statusRows);
    seq(|keys|, i requires 0 <= i < |keys| =>
      FinishTask(i + 1, keys[i], PartialFor(newItems, statusRows, members, keys[i]).GetOr(EmptyPartial), today))
  }

  // ---------------------------------------------------------------------
  // Facts the merge loop needs

  lemma {:induction false} NewItemKeysSpec(rows: seq<NewItemRow>, k: string)
    ensures k in NewItemKeys(rows) <==> LastNewItem(rows, k).Some?
    ensures LastNewItem(rows, k).Some? <==> exists i :: 0 <= i < |rows| && HasKey(rows[i].issueKey, k)
    ensures LastNewItem(rows, k).Some? ==> HasKey(LastNewItem(rows, k).value.issueKey, k)
    decreases |rows|
  {
    if rows != [] {
      var init := rows[..|rows| - 1];
      NewItemKeysSpec(init, k);
      if exists i :: 0 <= i < |rows| && HasKey(rows[i].issueKey, k) {
        var i :| 0 <= i < |rows| && HasKey(rows[i].issueKey, k);
        if i < |rows| - 1 { assert init[i] == rows[i]; }
      }
      if LastNewItem(init, k).Some? {
        var i :| 0 <= i < |init| && HasKey(init[i].issueKey, k);
        assert rows[i] == init[i];
      }
    }
  }

  /** The row found for `k` is the last new-items row that carries `k`: it
      sits at some index, and no later row carries `k`. */
  lemma {:induction false} LastNewItemIsLast(rows: seq<NewItemRow>, k: string)
    ensures LastNewItem(rows, k).Some? ==>
      exists i :: 0 <= i < |rows| && rows[i] == LastNewItem(rows, k).value && HasKey(rows[i].issueKey, k)
        && forall j :: i < j < |rows| ==> !HasKey(rows[j].issueKey, k)
    decreases |rows|
  {
    if rows != [] && !HasKey(rows[|rows| - 1].issueKey, k) {
      var init := rows[..|rows| - 1];
      LastNewItemIsLast(init, k);
      if LastNewItem(init, k).Some? {
        var i :| 0 <= i < |init| && init[i] == LastNewItem(init, k).value && HasKey(init[i].issueKey, k)
          && forall j :: i < j < |init| ==> !HasKey(init[j].issueKey, k);
        assert rows[i] == init[i];
        forall j | i < j < |rows| ensures !HasKey(rows[j].issueKey, k) {
          if j < |init| { assert rows[j] == init[j]; }
        }
      }
    }
  }

  lemma {:induction false} StatusKeysSpec(rows: seq<StatusRow>, k: string)
    ensures k in StatusKeys(rows) <==> LastStatus(rows, k).Some?
    ensures LastStatus(rows, k).Some? <==> exists i :: 0 <= i < |rows| && HasKey(rows[i].issueKey, k)
    ensures LastStatus(rows, k).Some? ==> HasKey(LastStatus(rows, k).value.issueKey, k)
    decreases |rows|
  {
    if rows != [] {
      var init := rows[..|rows| - 1];
      StatusKeysSpec(init, k);
      if exists i :: 0 <= i < |rows| && HasKey(rows[i].issueKey, k) {
        var i :| 0 <= i < |rows| && HasKey(rows[i].issueKey, k);
        if i < |rows| - 1 { assert init[i] == rows[i]; }
      }
      if LastStatus(init, k).Some? {
        var i :| 0 <= i < |init| && HasKey(init[i].issueKey, k);
        assert rows[i] == init[i];
      }
    }
  }
  /** The row found for `k` is the last status row that carries `k`: it sits
      at some index, and no later row carries `k`. */
  lemma {:induction false} LastStatusIsLast(rows: seq<StatusRow>, k: string)
    ensures LastStatus(rows, k).Some? ==>
      exists i :: 0 <= i < |rows| && rows[i] == LastStatus(rows, k).value && HasKey(rows[i].issueKey, k)
        && forall j :: i < j < |rows| ==> !HasKey(rows[j].issueKey, k)
    decreases |rows|
  {
    if rows != [] && !HasKey(rows[|rows| - 1].issueKey, k) {
      var init := rows[..|rows| - 1];
      LastStatusIsLast(init, k);
      if LastStatus(init, k).Some? {
        var i :| 0 <= i < |init| && init[i] == LastStatus(init, k).value && HasKey(init[i].issueKey, k)
          && forall j :: i < j < |init| ==> !HasKey(init[j].issueKey, k);
        assert rows[i] == init[i];
        forall j | i < j < |rows| ensures !HasKey(rows[j].issueKey, k) {
          if j < |init| { assert rows[j] == init[j]; }
        }
      }
    }
  }


  /** A key has a record exactly when some row of either file has it. */
  lemma PartialForDefined(newItems: seq<NewItemRow>, statusRows: seq<StatusRow>, members: seq<TeamMember>, k: string)
    ensures PartialFor(newItems, statusRows, members, k).Some? <==> k in NewItemKeys(newItems) + StatusKeys(statusRows)
  {
    NewItemKeysSpec(newItems, k);
    StatusKeysSpec(statusRows, k);
  }

  /** One more status row: its key's record gets the overlay, the others
      stay. Overlays replace both fields they set, so only the last status
      row of a key shows. */
  lemma PartialForStatusStep(newItems: seq<NewItemRow>, statusRows: seq<StatusRow>, row: StatusRow, members: seq<TeamMember>, k: string)
    ensures PartialFor(newItems, statusRows + [row], members, k) ==
      if HasKey(row.issueKey, k) then Some(StatusOverlay(PartialFor(newItems, statusRows, members, k), row, members))
      else PartialFor(newItems, statusRows, members, k)
  {
    assert (statusRows + [row])[..|statusRows|] == statusRows;
  }

  /** One more new-items row: its key's record is replaced, the others stay. */
  lemma PartialForNewItemStep(newItems: seq<NewItemRow>, row: NewItemRow, members: seq<TeamMember>, k: string)
    ensures PartialFor(newItems + [row], [], members, k) ==
      if HasKey(row.issueKey, k) then Some(NewItemPartial(row)) else PartialFor(newItems, [], members, k)
  {
    assert (newItems + [row])[..|newItems|] == newItems;
  }

  // ---------------------------------------------------------------------
  // The merge, as the source runs it. The key-ordered JavaScript map is the
  // key order `order` plus the records `records`.

  /** The records after the rows `newItems` and `statusRows`. */
  ghost predicate Loaded(order: seq<string>, records: map<string, PartialTask>,
                         newItems: seq<NewItemRow>, statusRows: seq<StatusRow>, members: seq<TeamMember>) {
    && order == FirstAppearance(NewItemKeys(newItems) + StatusKeys(statusRows))
    && (forall k :: k in records <==> PartialFor(newItems, statusRows, members, k).Some?)
    && (forall k :: k in records ==> records[k] == PartialFor(newItems, statusRows, members, k).value)
  }

  /** The key order after one more new-items row. */
  lemma NewItemOrderStep(order: seq<string>, known: bool, rows: seq<NewItemRow>, item: NewItemRow, order': seq<string>)
    requires order == FirstAppearance(NewItemKeys(rows))
    requires !Falsy(item.issueKey) ==> (known <==> item.issueKey.value in NewItemKeys(rows))
    requires Falsy(item.issueKey) ==> order' == order
    requires !Falsy(item.issueKey) ==> order' == if known then order else order + [item.issueKey.value]
    ensures order' == FirstAppearance(NewItemKeys(rows + [item]))
  {
    var rows' := rows + [item];
    assert rows'[..|rows|] == rows;
    if !Falsy(item.issueKey) {
      var key := item.issueKey.value;
      assert NewItemKeys(rows') == NewItemKeys(rows) + [key];
      FirstAppearanceSpec(NewItemKeys(rows));
      FirstAppearanceSnoc(NewItemKeys(rows), key);
    } else {
      assert NewItemKeys(rows') == NewItemKeys(rows);
    }
  }

  /** The records after one more new-items row. */
  lemma NewItemRecordsStep(records: map<string, PartialTask>, rows: seq<NewItemRow>, item: NewItemRow,
                           members: seq<TeamMember>, records': map<string, PartialTask>)
    requires forall k :: k in records <==> PartialFor(rows, [], members, k).Some?
    requires forall k :: k in records ==> records[k] == PartialFor(rows, [], members, k).value
    requires Falsy(item.issueKey) ==> records' == records
    requires !Falsy(item.issueKey) ==> records' == records[item.issueKey.value := NewItemPartial(item)]
    ensures forall k :: k in records' <==> PartialFor(rows + [item], [], members, k).Some?
    ensures forall k :: k in records' ==> records'[k] == PartialFor(rows + [item], [], members, k).value
  {
    forall k ensures PartialFor(rows + [item], [], members, k) ==
      if HasKey(item.issueKey, k) then Some(NewItemPartial(item)) else PartialFor(rows, [], members, k)
    {
      PartialForNewItemStep(rows, item, members, k);
    }
  }

  /** Loading one more new-items row keeps the records in step with the rows. */
  lemma NewItemStep(order: seq<string>, records: map<string, PartialTask>, rows: seq<NewItemRow>, item: NewItemRow,
                    members: seq<TeamMember>, order': seq<string>, records': map<string, PartialTask>)
    requires Loaded(order, records, rows, [], members)
    requires Falsy(item.issueKey) ==> order' == order && records' == records
    requires !Falsy(item.issueKey) ==>
      && order' == (if item.issueKey.value in records then order else order + [item.issueKey.value])
      && records' == records[item.issueKey.value := NewItemPartial(item)]
    ensures Loaded(order', records', rows + [item], [], members)
  {
    assert NewItemKeys(rows) + StatusKeys([]) == NewItemKeys(rows);
    assert NewItemKeys(rows + [item]) + StatusKeys([]) == NewItemKeys(rows + [item]);
    var known := !Falsy(item.issueKey) && item.issueKey.value in records;
    if !Falsy(item.issueKey) {
      PartialForDefined(rows, [], members, item.issueKey.value);
    }
    NewItemOrderStep(order, known, rows, item, order');
    NewItemRecordsStep(records, rows, item, members, records');
  }

  /** The key order after one more status row. */
  lemma StatusOrderStep(order: seq<string>, known: bool, newItems: seq<NewItemRow>, rows: seq<StatusRow>,
                        item: StatusRow, order': seq<string>)
    requires order == FirstAppearance(NewItemKeys(newItems) + StatusKeys(rows))
    requires !Falsy(item.issueKey) ==> (known <==> item.issueKey.value in NewItemKeys(newItems) + StatusKeys(rows))
    requires Falsy(item.issueKey) ==> order' == order
    requires !Falsy(item.issueKey) ==> order' == if known then order else order + [item.issueKey.value]
    ensures order' == FirstAppearance(NewItemKeys(newItems) + StatusKeys(rows + [item]))
  {
    var rows' := rows + [item];
    assert rows'[..|rows|] == rows;
    var keysSoFar := NewItemKeys(newItems) + StatusKeys(rows);
    if !Falsy(item.issueKey) {
      var key := item.issueKey.value;
      assert NewItemKeys(newItems) + StatusKeys(rows') == keysSoFar + [key];
      FirstAppearanceSpec(keysSoFar);
      FirstAppearanceSnoc(keysSoFar, key);
    } else {
      assert StatusKeys(rows') == StatusKeys(rows);
    }
  }

  /** The records after one more status row. */
  lemma StatusRecordsStep(records: map<string, PartialTask>, newItems: seq<NewItemRow>, rows: seq<StatusRow>,
                          item: StatusRow, members: seq<TeamMember>, records': map<string, PartialTask>)
    requires forall k :: k in records <==> PartialFor(newItems, rows, members, k).Some?
    requires forall k :: k in records ==> records[k] == PartialFor(newItems, rows, members, k).value
    requires Falsy(item.issueKey) ==> records' == records
    requires !Falsy(item.issueKey) ==>
      var key := item.issueKey.value;
      records' == records[key := StatusOverlay(if key in records then Some(records[key]) else None, item, members)]
    ensures forall k :: k in records' <==> PartialFor(newItems, rows + [item], members, k).Some?
    ensures forall k :: k in records' ==> records'[k] == PartialFor(newItems, rows + [item], members, k).value
  {
    forall k ensures PartialFor(newItems, rows + [item], members, k) ==
      if HasKey(item.issueKey, k) then Some(StatusOverlay(PartialFor(newItems, rows, members, k), item, members))
      else PartialFor(newItems, rows, members, k)
    {
      PartialForStatusStep(newItems, rows, item, members, k);
    }
  }

  /** Loading one more status row keeps the records in step with the rows. */
  lemma StatusStep(order: seq<string>, records: map<string, PartialTask>, newItems: seq<NewItemRow>,
                   rows: seq<StatusRow>, item: StatusRow,
                   members: seq<TeamMember>, order': seq<string>, records': map<string, PartialTask>)
    requires Loaded(order, records, newItems, rows, members)
    requires Falsy(item.issueKey) ==> order' == order && records' == records
    requires !Falsy(item.issueKey) ==>
      var key := item.issueKey.value;
      && order' == (if key in records then order else order + [key])
      && records' == records[key := StatusOverlay(if key in records then Some(records[key]) else None, item, members)]
    ensures Loaded(order', records', newItems, rows + [item], members)
  {
    var known := !Falsy(item.issueKey) && item.issueKey.value in records;
    if !Falsy(item.issueKey) {
      PartialForDefined(newItems, rows, members, item.issueKey.value);
    }
    StatusOrderStep(order, known, newItems, rows, item, order');
    StatusRecordsStep(records, newItems, rows, item, members, records');
  }

  /** The first pass: every new-items row with a key records its summary and
      story points, replacing what an earlier row with that key recorded. */
  method LoadNewItems(newItems: seq<NewItemRow>, members: seq<TeamMember>)
    returns (order: seq<string>, records: map<string, PartialTask>)
    ensures Loaded(order, records, newItems, [], members)
  {
    order := [];
    records := map[];
    var i := 0;
    while i < |newItems|
      invariant 0 <= i <= |newItems|
      invariant Loaded(order, records, newItems[..i], [], members)
    {
      var item := newItems[i];
      ghost var order0, records0 := order, records;
      if !Falsy(item.issueKey) {
        var key := item.issueKey.value;
        if key !in records {
          order := order + [key];
        }
        records := records[key := NewItemPartial(item)];
      }
      NewItemStep(order0, records0, newItems[..i], item, members, order, records);
      assert newItems[..i + 1] == newItems[..i] + [item];
      i := i + 1;
    }
    assert newItems[..i] == newItems;
  }

  /** The second pass: every status row with a key sets the status and the
      assignee of its key's record, creating the record when there is none. */
  method LoadStatusRows(order0: seq<string>, records0: map<string, PartialTask>,
                        newItems: seq<NewItemRow>, statusRows: seq<StatusRow>, members: seq<TeamMember>)
    returns (order: seq<string>, records: map<string, PartialTask>)
    requires Loaded(order0, records0, newItems, [], members)
    ensures Loaded(order, records, newItems, statusRows, members)
  {
    order, records := order0, records0;
    var j := 0;
    assert statusRows[..0] == [];
    while j < |statusRows|
      invariant 0 <= j <= |statusRows|
      invariant Loaded(order, records, newItems, statusRows[..j], members)
    {
      var item := statusRows[j];
      ghost var orderBefore, recordsBefore := order, records;
      if !Falsy(item.issueKey) {
        var key := item.issueKey.value;
        var existing := if key in records then Some(records[key]) else None;
        if key !in records {
          order := order + [key];
        }
        records := records[key := StatusOverlay(existing, item, members)];
      }
      StatusStep(orderBefore, recordsBefore, newItems, statusRows[..j], item, members, order, records);
      assert statusRows[..j + 1] == statusRows[..j] + [item];
      j := j + 1;
    }
    assert statusRows[..j] == statusRows;
  }

  /** The last pass: one task per record in key order, numbered by a counter
      that starts at 1. */
  method NumberTasks(order: seq<string>, records: map<string, PartialTask>, today: string)
    returns (tasks: seq<Task>)
    requires forall k :: k in order ==> k in records
    ensures |tasks| == |order|
    ensures forall p :: 0 <= p < |order| ==> tasks[p] == FinishTask(p + 1, order[p], records[order[p]], today)
  {
    var taskIdCounter := 1;
    tasks := [];
    var n := 0;
    while n < |order|
      invariant 0 <= n <= |order|
      invariant taskIdCounter == n + 1
      invariant |tasks| == n
      invariant forall p :: 0 <= p < n ==> tasks[p] == FinishTask(p + 1, order[p], records[order[p]], today)
    {
      var key := order[n];
      tasks := tasks + [FinishTask(taskIdCounter, key, records[key], today)];
      taskIdCounter := taskIdCounter + 1;
      n := n + 1;
    }
  }

  /** `processUploadedCsvs`: the two passes over the rows, then the tasks. */
  method ProcessUploadedCsvs(newItems: seq<NewItemRow>, statusRows: seq<StatusRow>, members: seq<TeamMember>, today: string)
    returns (tasks: seq<Task>)
    ensures tasks == MergeSpec(newItems, statusRows, members, today)
  {
    var order, records := LoadNewItems(newItems, members);
    order, records := LoadStatusRows(order, records, newItems, statusRows, members);
    LoadedCovers(order, records, newItems, statusRows, members);
    tasks := NumberTasks(order, records, today);
    NumberedIsMerge(order, records, newItems, statusRows, members, today, tasks);
  }

  /** After both passes every key of the order has a record. */
  lemma LoadedCovers(order: seq<string>, records: map<string, PartialTask>,
                     newItems: seq<NewItemRow>, statusRows: seq<StatusRow>, members: seq<TeamMember>)
    requires Loaded(order, records, newItems, statusRows, members)
    ensures forall k :: k in order ==> k in records
  {
    FirstAppearanceSpec(NewItemKeys(newItems) + StatusKeys(statusRows));
    forall k | k in order ensures k in records {
      PartialForDefined(newItems, statusRows, members, k);
    }
  }

  /** Numbering the loaded records in key order gives the merged list. */
  lemma NumberedIsMerge(order: seq<string>, records: map<string, PartialTask>,
                        newItems: seq<NewItemRow>, statusRows: seq<StatusRow>, members: seq<TeamMember>,
                        today: string, tasks: seq<Task>)
    requires Loaded(order, records, newItems, statusRows, members)
    requires forall k :: k in order ==> k in records
    requires |tasks| == |order|
    requires forall p :: 0 <= p < |order| ==> tasks[p] == FinishTask(p + 1, order[p], records[order[p]], today)
    ensures tasks == MergeSpec(newItems, statusRows, members, today)
  {
    var spec := MergeSpec(newItems, statusRows, members, today);
    forall p | 0 <= p < |order| ensures tasks[p] == spec[p] {
      assert PartialFor(newItems, statusRows, members, order[p]).GetOr(EmptyPartial) == records[order[p]];
    }
  }

  // ---------------------------------------------------------------------
  // What the merge promises

  lemma NewItemKeysMembership(rows: seq<NewItemRow>, k: string)
    ensures k in NewItemKeys(rows) <==> exists i :: 0 <= i < |rows| && HasKey(rows[i].issueKey, k)
  {
    NewItemKeysSpec(rows, k);
  }

  lemma StatusKeysMembership(rows: seq<StatusRow>, k: string)
    ensures k in StatusKeys(rows) <==> exists i :: 0 <= i < |rows| && HasKey(rows[i].issueKey, k)
  {
    StatusKeysSpec(rows, k);
  }

  /** One task per distinct non-empty issue key of either file, the keys of
      the new-items file first, each in order of first appearance
      (src/lib/utils.ts:59-79). */
  lemma MergeKeysSpec(newItems: seq<NewItemRow>, statusRows: seq<StatusRow>)
    ensures Distinct(MergedKeys(newItems, statusRows))
    ensures forall k :: k in MergedKeys(newItems, statusRows) <==>
      (exists i :: 0 <= i < |newItems| && HasKey(newItems[i].issueKey, k))
      || (exists j :: 0 <= j < |statusRows| && HasKey(statusRows[j].issueKey, k))
    ensures var first := FirstAppearance(NewItemKeys(newItems));
      && |first| <= |MergedKeys(newItems, statusRows)|
      && MergedKeys(newItems, statusRows)[..|first|] == first
      && forall i :: |first| <= i < |MergedKeys(newItems, statusRows)| ==>
           MergedKeys(newItems, statusRows)[i] !in NewItemKeys(newItems)
  {
    var all := NewItemKeys(newItems) + StatusKeys(statusRows);
    FirstAppearanceSpec(all);
    FirstAppearanceAppend(NewItemKeys(newItems), StatusKeys(statusRows));
    forall k ensures k in all <==>
      (exists i :: 0 <= i < |newItems| && HasKey(newItems[i].issueKey, k))
      || (exists j :: 0 <= j < |statusRows| && HasKey(statusRows[j].issueKey, k))
    {
      NewItemKeysMembership(newItems, k);
      StatusKeysMembership(statusRows, k);
    }
  }

  /** The generated ids are pairwise distinct. */
  lemma TaskIdInjective(m: nat, n: nat)
    ensures TaskId(m) == TaskId(n) ==> m == n
  {
    if TaskId(m) == TaskId(n) {
      assert TaskId(m)[5..] == NatToString(m);
      assert TaskId(n)[5..] == NatToString(n);
      NatToStringInjective(m, n);
    }
  }

  /** The field values of the `i`-th merged task: id `task-(i+1)`, its key,
      the summary and story points of the key's last new-items row (or the
      defaults when it has none), the status and the looked-up assignee of
      its last status row (or "To Do" and null), and the upload day
      (src/lib/utils.ts:62-65, 72-76, 81-95). */
  lemma MergeTaskSpec(newItems: seq<NewItemRow>, statusRows: seq<StatusRow>, members: seq<TeamMember>, today: string, i: nat)
    requires i < |MergeSpec(newItems, statusRows, members, today)|
    ensures var t := MergeSpec(newItems, statusRows, members, today)[i];
      var k := MergedKeys(newItems, statusRows)[i];
      && t.id == TaskId(i + 1)
      && t.jiraKey == Some(k)
      && t.dayLoaded == Some(today)
      && t.summary == (match LastNewItem(newItems, k) case None => "No summary provided" case Some(r) => OrDefault(r.summary, "No summary"))
      && t.storyPoints == (match LastNewItem(newItems, k) case None => 0 case Some(r) => NumberOrZero(r.storyPoints))
      && t.status == (match LastStatus(statusRows, k) case None => "To Do" case Some(r) => OrDefault(r.status, "To Do"))
      && t.assigneeId == (match LastStatus(statusRows, k) case None => None case Some(r) => MemberIdByName(members, r.assignee))
  {
    var k := MergedKeys(newItems, statusRows)[i];
    FirstAppearanceSpec(NewItemKeys(newItems) + StatusKeys(statusRows));
    PartialForDefined(newItems, statusRows, members, k);
  }

  /** The merged tasks have distinct ids. */
  lemma MergeIdsDistinct(newItems: seq<NewItemRow>, statusRows: seq<StatusRow>, members: seq<TeamMember>, today: string)
    ensures DistinctTaskIds(MergeSpec(newItems, statusRows, members, today))
  {
    var tasks := MergeSpec(newItems, statusRows, members, today);
    forall i, j | 0 <= i < j < |tasks| ensures tasks[i].id != tasks[j].id {
      TaskIdInjective(i + 1, j + 1);
    }
  }

  /** Every merged assignee is null or a roster id. */
  lemma MergeAssigneesKnown(newItems: seq<NewItemRow>, statusRows: seq<StatusRow>, members: seq<TeamMember>, today: string)
    ensures AssigneesKnown(MergeSpec(newItems, statusRows, members, today), members)
  {
    var tasks := MergeSpec(newItems, statusRows, members, today);
    forall i | 0 <= i < |tasks| && tasks[i].assigneeId.Some?
      ensures tasks[i].assigneeId.value in MemberIds(members)
    {
      MergeTaskSpec(newItems, statusRows, members, today, i);
      var k := MergedKeys(newItems, statusRows)[i];
      if LastStatus(statusRows, k).Some? {
        MemberIdByNameKnown(members, LastStatus(statusRows, k).value.assignee);
      }
    }
  }

  /** The board built from an upload is consistent: every merged task sits
      once in the column of its assignee or in "unassigned"
      (src/lib/utils.ts:45-98 with src/hooks/use-backlog-data.ts:13-28). */
  lemma UploadBoardConsistent(newItems: seq<NewItemRow>, statusRows: seq<StatusRow>, members: seq<TeamMember>, today: string)
    requires RosterWellFormed(members)
    ensures Consistent(InitialBoardData(MergeSpec(newItems, statusRows, members, today), members))
  {
    MergeIdsDistinct(newItems, statusRows, members, today);
    MergeAssigneesKnown(newItems, statusRows, members, today);
    BuildConsistent(MergeSpec(newItems, statusRows, members, today), members);
  }

  /** Any spelling of "alice wonderland" names member-1 of the sample
      roster. */
  lemma LookupAlice(name: string)
    requires ToLower(name) == "alice wonderland"
    ensures MemberIdByName(MockTeamMembers, Some(name)) == Some("member-1")
  {
    assert ToLower(MockTeamMembers[0].name) == "alice wonderland";
  }

  /** The assignee lookup ignores case: "Alice Wonderland",
      "alice wonderland" and "ALICE WONDERLAND" all name member-1 of the
      sample roster, and "Zed" names nobody. */
  lemma LookupIgnoresCase()
    ensures MemberIdByName(MockTeamMembers, Some("Alice Wonderland")) == Some("member-1")
    ensures MemberIdByName(MockTeamMembers, Some("alice wonderland")) == Some("member-1")
    ensures MemberIdByName(MockTeamMembers, Some("ALICE WONDERLAND")) == Some("member-1")
    ensures MemberIdByName(MockTeamMembers, Some("Zed")) == None
  {
    assert ToLower("alice wonderland") == "alice wonderland";
    LookupAlice("alice wonderland");
    LowerDisplayed();
    LookupAlice("Alice Wonderland");
    LowerShouted();
    LookupAlice("ALICE WONDERLAND");
    LookupUnknown();
  }

  lemma LowerDisplayed()
    ensures ToLower("Alice Wonderland") == "alice wonderland"
  {
  }

  lemma LowerShouted()
    ensures ToLower("ALICE WONDERLAND") == "alice wonderland"
  {
  }

  /** "Zed" names nobody on the sample roster. */
  lemma LookupUnknown()
    ensures MemberIdByName(MockTeamMembers, Some("Zed")) == None
  {
    var lowered := ToLower("Zed");
    assert |lowered| == 3;
    forall i | 0 <= i < |MockTeamMembers| ensures ToLower(MockTeamMembers[i].name) != lowered {
      assert |MockTeamMembers[i].name| > 3;
    }
    FindByLowerNameSpec(MockTeamMembers, lowered);
  }

  /** The keys of the one-row scenario below. */
  lemma ScenarioKeys()
    ensures MergedKeys([NewItemRow(Some("PROJ-1"), Some("Fix bug"), Some("3"))],
                       [StatusRow(Some("PROJ-1"), Some("In Progress"), Some("Alice Wonderland"))]) == ["PROJ-1"]
  {
    var newItems := [NewItemRow(Some("PROJ-1"), Some("Fix bug"), Some("3"))];
    var statusRows := [StatusRow(Some("PROJ-1"), Some("In Progress"), Some("Alice Wonderland"))];
    assert NewItemKeys(newItems) == ["PROJ-1"];
    assert StatusKeys(statusRows) == ["PROJ-1"];
    FirstAppearanceSnoc(["PROJ-1"], "PROJ-1");
    FirstAppearanceSnoc([], "PROJ-1");
    assert ["PROJ-1"] == [] + ["PROJ-1"];
  }

  /** The numbers of the one-row scenario below. */
  lemma ScenarioNumbers()
    ensures NumberOrZero(Some("3")) == 3
    ensures TaskId(1) == "task-1"
  {
    NumberOfUnsigned(3);
    assert NatToString(3) == "3";
    assert NatToString(1) == "1";
  }

  /** A key in both files: the new-items row gives the summary and points,
      the status row the status and the assignee looked up by name. */
  lemma UploadScenario(today: string)
    ensures MergeSpec([NewItemRow(Some("PROJ-1"), Some("Fix bug"), Some("3"))],
                      [StatusRow(Some("PROJ-1"), Some("In Progress"), Some("Alice Wonderland"))],
                      MockTeamMembers, today)
      == [Task("task-1", Some("PROJ-1"), "Fix bug", 3, "In Progress", Some("member-1"), Some(today))]
  {
    var newItems := [NewItemRow(Some("PROJ-1"), Some("Fix bug"), Some("3"))];
    var statusRows := [StatusRow(Some("PROJ-1"), Some("In Progress"), Some("Alice Wonderland"))];
    ScenarioKeys();
    assert LastNewItem(newItems, "PROJ-1") == Some(newItems[0]);
    assert LastStatus(statusRows, "PROJ-1") == Some(statusRows[0]);
    ScenarioNumbers();
    LookupIgnoresCase();
    MergeTaskSpec(newItems, statusRows, MockTeamMembers, today, 0);
  }
}
