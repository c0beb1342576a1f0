/** The drag-and-drop reducer of src/hooks/use-backlog-data.ts (`onDragEnd`)
    as a function on board values: a drop inside one column reorders it, a
    drop into another column moves the id there and reassigns the task. */
module Drag {
  import opened Wrappers
  import opened Types
  import opened SeqUtil
  import opened Board

  /** Where a card was picked up or dropped: a column id and a position. */
  datatype DraggableLocation = DraggableLocation(droppableId: string, index: nat)

  /** What the drag library reports when a drag ends; no destination when the
      card was dropped outside every column. */
  datatype DropResult = DropResult(draggableId: string, source: DraggableLocation, destination: Option<DraggableLocation>)

  /** The assignee a task gets when dropped into column `columnId`. */
  function AssigneeForColumn(columnId: string): (a: Option<string>)
    ensures a.None? <==> columnId == Unassigned
    ensures a.Some? ==> a.value == columnId
  {
    if columnId == Unassigned then None else Some(columnId)
  }

  /** The three early returns: nothing to do without a destination, when the
      card went back where it was, or when either column is not on the board. */
  predicate IsNoOp(b: KanbanBoardData, r: DropResult): (noOp: bool)
    ensures !noOp ==> r.destination.Some? && r.source.droppableId in b.columns && r.destination.value.droppableId in b.columns
    ensures !noOp && r.destination.value.droppableId == r.source.droppableId ==> r.destination.value.index != r.source.index
  {
    || r.destination.None?
    || (r.destination.value.droppableId == r.source.droppableId && r.destination.value.index == r.source.index)
    || r.source.droppableId !in b.columns
    || r.destination.value.droppableId !in b.columns
  }

  /** The board after one drop. */
  function DragEnd(b: KanbanBoardData, r: DropResult): (after: KanbanBoardData)
    ensures IsNoOp(b, r) ==> after == b
    ensures after.columnOrder == b.columnOrder && after.taskOrder == b.taskOrder
    ensures after.tasks.Keys == b.tasks.Keys
  {
    if IsNoOp(b, r) then b
    else
      var dest := r.destination.value;
      var start := b.columns[r.source.droppableId];
      var finish := b.columns[dest.droppableId];
      if start.id == finish.id then
        var moved := InsertAt(RemoveAt(start.taskIds, r.source.index), dest.index, r.draggableId);
        b.(columns := b.columns[start.id := start.(taskIds := moved)])
      else
        var newStart := start.(taskIds := RemoveAt(start.taskIds, r.source.index));
        var newFinish := finish.(taskIds := InsertAt(finish.taskIds, dest.index, r.draggableId));
        var tasks :=
          if r.draggableId in b.tasks
          then b.tasks[r.draggableId := b.tasks[r.draggableId].(assigneeId := AssigneeForColumn(finish.id))]
          else b.tasks;
        b.(tasks := tasks, columns := b.columns[newStart.id := newStart][newFinish.id := newFinish])
  }

  /** The number of entries over the columns of `order`. */
  function TotalEntries(columns: map<string, KanbanColumn>, order: seq<string>): nat {
    if order == [] then 0
    else
      var c := order[|order| - 1];
      TotalEntries(columns, order[..|order| - 1]) + (if c in columns then |columns[c].taskIds| else 0)
  }

  // ---------------------------------------------------------------------
  // What one drop changes

  /** An early return leaves the board as it was. */
  lemma DragNoOp(b: KanbanBoardData, r: DropResult)
    requires IsNoOp(b, r)
    ensures DragEnd(b, r) == b
  {
  }

  /** A drop never changes the column order or the key order of the tasks,
      and on a well-keyed board it keeps the task and column keys. */
  lemma DragKeepsKeys(b: KanbanBoardData, r: DropResult)
    ensures DragEnd(b, r).columnOrder == b.columnOrder
    ensures DragEnd(b, r).taskOrder == b.taskOrder
    ensures DragEnd(b, r).tasks.Keys == b.tasks.Keys
    ensures WellKeyed(b) ==> WellKeyed(DragEnd(b, r))
  {
  }

  /** A move inside one column rewrites only that column's list: remove the
      entry at the source index, then insert the dragged id at the destination
      index. Tasks, other columns and the column order stay. */
  lemma SameColumnMove(b: KanbanBoardData, r: DropResult)
    requires WellKeyed(b)
    requires !IsNoOp(b, r)
    requires r.source.droppableId == r.destination.value.droppableId
    ensures var c := r.source.droppableId; var after := DragEnd(b, r);
      && after.tasks == b.tasks
      && after.columnOrder == b.columnOrder
      && after.columns.Keys == b.columns.Keys
      && after.columns[c] == b.columns[c].(taskIds :=
           InsertAt(RemoveAt(b.columns[c].taskIds, r.source.index), r.destination.value.index, r.draggableId))
      && (forall d :: d in b.columns && d != c ==> after.columns[d] == b.columns[d])
  {
  }

  /** A move between columns takes the source entry out of the start column,
      puts the dragged id into the finish column, and gives the task the
      finish column's assignee (null for "unassigned"). Everything else
      stays. */
  lemma CrossColumnMove(b: KanbanBoardData, r: DropResult)
    requires WellKeyed(b)
    requires !IsNoOp(b, r)
    requires r.source.droppableId != r.destination.value.droppableId
    ensures var s := r.source.droppableId; var f := r.destination.value.droppableId; var after := DragEnd(b, r);
      && after.columnOrder == b.columnOrder
      && after.columns.Keys == b.columns.Keys
      && after.columns[s] == b.columns[s].(taskIds := RemoveAt(b.columns[s].taskIds, r.source.index))
      && after.columns[f] == b.columns[f].(taskIds := InsertAt(b.columns[f].taskIds, r.destination.value.index, r.draggableId))
      && (forall d :: d in b.columns && d != s && d != f ==> after.columns[d] == b.columns[d])
      && (r.draggableId in b.tasks ==>
            after.tasks[r.draggableId] == b.tasks[r.draggableId].(assigneeId := AssigneeForColumn(f)))
      && (forall k :: k in b.tasks && k != r.draggableId ==> after.tasks[k] == b.tasks[k])
  {
  }

  // ---------------------------------------------------------------------
  // What a well-formed drop preserves

  /** The drag library's promise about a drop: the source position holds the
      dragged card. */
  predicate SourceHoldsCard(b: KanbanBoardData, r: DropResult) {
    && r.source.droppableId in b.columns
    && r.source.index < |b.columns[r.source.droppableId].taskIds|
    && b.columns[r.source.droppableId].taskIds[r.source.index] == r.draggableId
  }

  /** Replacing one column of the order changes the total by the difference
      of the two lengths. */
  lemma {:induction false} TotalEntriesUpdate(columns: map<string, KanbanColumn>, order: seq<string>, c: string, col: KanbanColumn)
    requires Distinct(order)
    requires c in order && c in columns
    ensures TotalEntries(columns[c := col], order) == TotalEntries(columns, order) - |columns[c].taskIds| + |col.taskIds|
    decreases |order|
  {
    var init := order[..|order| - 1];
    var last := order[|order| - 1];
    assert Distinct(init);
    if last != c {
      assert c in init by {
        var i :| 0 <= i < |order| && order[i] == c;
        assert i < |order| - 1;
        assert init[i] == c;
      }
      TotalEntriesUpdate(columns, init, c, col);
    } else {
      assert c !in init;
      TotalEntriesUnchanged(columns, init, c, col);
    }
  }

  /** Replacing a column outside the order does not change the total. */
  lemma {:induction false} TotalEntriesUnchanged(columns: map<string, KanbanColumn>, order: seq<string>, c: string, col: KanbanColumn)
    requires c !in order
    ensures TotalEntries(columns[c := col], order) == TotalEntries(columns, order)
    decreases |order|
  {
    if order != [] {
      TotalEntriesUnchanged(columns, order[..|order| - 1], c, col);
    }
  }

  /** A drop whose source holds the dragged card keeps the number of column
      entries: one removed, one inserted. */
  lemma MovePreservesTotal(b: KanbanBoardData, r: DropResult)
    requires WellKeyed(b)
    requires SourceHoldsCard(b, r)
    ensures TotalEntries(DragEnd(b, r).columns, DragEnd(b, r).columnOrder) == TotalEntries(b.columns, b.columnOrder)
  {
    if !IsNoOp(b, r) {
      var s := r.source.droppableId;
      var f := r.destination.value.droppableId;
      var start := b.columns[s];
      var finish := b.columns[f];
      if s == f {
        SameColumnMove(b, r);
        var moved := start.(taskIds := InsertAt(RemoveAt(start.taskIds, r.source.index), r.destination.value.index, r.draggableId));
        assert DragEnd(b, r).columns == b.columns[s := moved];
        TotalEntriesUpdate(b.columns, b.columnOrder, s, moved);
      } else {
        var newStart := start.(taskIds := RemoveAt(start.taskIds, r.source.index));
        var newFinish := finish.(taskIds := InsertAt(finish.taskIds, r.destination.value.index, r.draggableId));
        assert DragEnd(b, r).columns == b.columns[s := newStart][f := newFinish];
        TotalEntriesUpdate(b.columns, b.columnOrder, s, newStart);
        TotalEntriesUpdate(b.columns[s := newStart], b.columnOrder, f, newFinish);
      }
    }
  }

  /** The dragged task of a well-formed drop is on the board and sits in the
      source column, which is therefore its column. */
  lemma DraggedTaskInStart(b: KanbanBoardData, r: DropResult)
    requires Consistent(b)
    requires SourceHoldsCard(b, r)
    ensures r.draggableId in b.tasks
    ensures ColumnKey(b.tasks[r.draggableId]) == r.source.droppableId
  {
    var s := r.source.droppableId;
    assert r.draggableId in b.columns[s].taskIds;
    assert multiset(b.columns[s].taskIds)[r.draggableId] > 0;
  }

  /** A reorder inside one column keeps the column's entries as a multiset. */
  lemma SameColumnKeepsEntries(b: KanbanBoardData, r: DropResult)
    requires WellKeyed(b)
    requires SourceHoldsCard(b, r)
    requires !IsNoOp(b, r) && r.source.droppableId == r.destination.value.droppableId
    ensures var c := r.source.droppableId;
      multiset(DragEnd(b, r).columns[c].taskIds) == multiset(b.columns[c].taskIds)
  {
    SameColumnMove(b, r);
    var ids := b.columns[r.source.droppableId].taskIds;
    var removed := RemoveAt(ids, r.source.index);
    assert multiset(removed) == multiset(ids) - multiset{r.draggableId};
    assert r.draggableId in multiset(ids);
  }

  /** A reorder inside one column keeps the one-column-per-task invariant. */
  lemma SameColumnPreservesConsistency(b: KanbanBoardData, r: DropResult)
    requires Consistent(b)
    requires SourceHoldsCard(b, r)
    requires !IsNoOp(b, r) && r.source.droppableId == r.destination.value.droppableId
    ensures Consistent(DragEnd(b, r))
  {
    var after := DragEnd(b, r);
    var s := r.source.droppableId;
    SameColumnMove(b, r);
    DragKeepsKeys(b, r);
    SameColumnKeepsEntries(b, r);
    forall c | c in after.columns ensures multiset(after.columns[c].taskIds) == multiset(b.columns[c].taskIds) {
    }
    forall c, x | c in after.columns && x in after.columns[c].taskIds ensures x in after.tasks {
      assert x in multiset(b.columns[c].taskIds);
    }
  }

  /** The entries of the two columns a move between columns touches, as
      multisets: the start column loses the dragged id, the finish column
      gains it, and the task now belongs to the finish column. */
  lemma CrossColumnEntries(b: KanbanBoardData, r: DropResult)
    requires Consistent(b)
    requires SourceHoldsCard(b, r)
    requires !IsNoOp(b, r) && r.source.droppableId != r.destination.value.droppableId
    ensures var after := DragEnd(b, r); var s := r.source.droppableId; var f := r.destination.value.droppableId;
      && multiset(after.columns[s].taskIds) == multiset(b.columns[s].taskIds) - multiset{r.draggableId}
      && multiset(after.columns[f].taskIds) == multiset(b.columns[f].taskIds) + multiset{r.draggableId}
      && r.draggableId in after.tasks
      && ColumnKey(after.tasks[r.draggableId]) == f
      && ColumnKey(b.tasks[r.draggableId]) == s
  {
    CrossColumnMove(b, r);
    DraggedTaskInStart(b, r);
  }

  /** One task and one column after a move between columns: the count is one
      exactly in the task's column. */
  lemma CrossColumnCount(b: KanbanBoardData, r: DropResult, k: string, c: string)
    requires Consistent(b)
    requires SourceHoldsCard(b, r)
    requires !IsNoOp(b, r) && r.source.droppableId != r.destination.value.droppableId
    requires k in b.tasks && c in b.columns
    ensures var after := DragEnd(b, r);
      && k in after.tasks && c in after.columns
      && ColumnKey(after.tasks[k]) in after.columns
      && multiset(after.columns[c].taskIds)[k] == if c == ColumnKey(after.tasks[k]) then 1 else 0
  {
    var after := DragEnd(b, r);
    var s := r.source.droppableId;
    var f := r.destination.value.droppableId;
    CrossColumnMove(b, r);
    CrossColumnEntries(b, r);
    if k != r.draggableId {
      assert after.tasks[k] == b.tasks[k];
      if c != s && c != f {
        assert after.columns[c] == b.columns[c];
      }
    } else if c != s && c != f {
      assert after.columns[c] == b.columns[c];
    }
  }

  /** After a move between columns, columns list only known tasks. */
  lemma CrossColumnNoDangling(b: KanbanBoardData, r: DropResult, c: string, y: string)
    requires Consistent(b)
    requires SourceHoldsCard(b, r)
    requires !IsNoOp(b, r) && r.source.droppableId != r.destination.value.droppableId
    requires c in DragEnd(b, r).columns && y in DragEnd(b, r).columns[c].taskIds
    ensures y in DragEnd(b, r).tasks
  {
    var after := DragEnd(b, r);
    var s := r.source.droppableId;
    var f := r.destination.value.droppableId;
    DragKeepsKeys(b, r);
    CrossColumnMove(b, r);
    CrossColumnEntries(b, r);
    var ys := after.columns[c].taskIds;
    assert multiset(ys)[y] > 0;
    if c == s {
      assert multiset(b.columns[s].taskIds)[y] > 0;
      assert y in b.columns[s].taskIds;
    } else if c == f {
      if y != r.draggableId {
        assert multiset(b.columns[f].taskIds)[y] > 0;
        assert y in b.columns[f].taskIds;
      }
    } else {
      assert after.columns[c] == b.columns[c];
    }
    assert y in b.tasks;
  }

  /** A move into another column keeps the one-column-per-task invariant:
      the dragged id leaves its column and arrives in the finish column,
      whose id is now the task's column key. */
  lemma CrossColumnPreservesConsistency(b: KanbanBoardData, r: DropResult)
    requires Consistent(b)
    requires SourceHoldsCard(b, r)
    requires !IsNoOp(b, r) && r.source.droppableId != r.destination.value.droppableId
    ensures Consistent(DragEnd(b, r))
  {
    var after := DragEnd(b, r);
    DragKeepsKeys(b, r);
    assert after.columns.Keys == b.columns.Keys by {
      CrossColumnMove(b, r);
    }
    forall k, c | k in after.tasks && c in after.columns
      ensures ColumnKey(after.tasks[k]) in after.columns
      ensures multiset(after.columns[c].taskIds)[k] == if c == ColumnKey(after.tasks[k]) then 1 else 0
    {
      CrossColumnCount(b, r, k, c);
    }
    forall c, y | c in after.columns && y in after.columns[c].taskIds ensures y in after.tasks {
      CrossColumnNoDangling(b, r, c, y);
    }
  }

  /** Any drop whose source holds the dragged card keeps the consistency
      contract (src/hooks/use-backlog-data.ts:115-150). */
  lemma MovePreservesConsistency(b: KanbanBoardData, r: DropResult)
    requires Consistent(b)
    requires SourceHoldsCard(b, r)
    ensures Consistent(DragEnd(b, r))
  {
    if !IsNoOp(b, r) {
      if r.source.droppableId == r.destination.value.droppableId {
        SameColumnPreservesConsistency(b, r);
      } else {
        CrossColumnPreservesConsistency(b, r);
      }
    }
  }

  /** A drop onto a board whose assignees are roster ids keeps them roster
      ids: the finish column is "unassigned" or a member's. */
  lemma MoveKeepsAssigneesKnown(b: KanbanBoardData, r: DropResult, members: seq<TeamMember>)
    requires WellKeyed(b)
    requires b.columnOrder == ColumnOrderFor(members)
    requires BoardAssigneesKnown(b, members)
    ensures BoardAssigneesKnown(DragEnd(b, r), members)
  {
    if !IsNoOp(b, r) && r.source.droppableId != r.destination.value.droppableId {
      var f := r.destination.value.droppableId;
      CrossColumnMove(b, r);
      if f != Unassigned {
        assert f in b.columnOrder;
        assert f in MemberIds(members);
      }
    }
  }

  /** The incremental move and a rebuild from the moved task map agree on
      the tasks and on what every column holds; only the order inside a
      column may differ (src/hooks/use-backlog-data.ts:115-153). */
  lemma MoveAgreesWithRebuild(b: KanbanBoardData, r: DropResult, members: seq<TeamMember>, c: string)
    requires Consistent(b)
    requires SourceHoldsCard(b, r)
    requires RosterWellFormed(members)
    requires b.columnOrder == ColumnOrderFor(members)
    requires BoardAssigneesKnown(b, members)
    requires c in b.columns
    ensures var after := DragEnd(b, r);
      && (forall k :: k in after.taskOrder ==> k in after.tasks)
      && var rebuilt := Rebuild(after, members);
      && rebuilt.tasks == after.tasks
      && rebuilt.columnOrder == after.columnOrder
      && c in rebuilt.columns && c in after.columns
      && multiset(rebuilt.columns[c].taskIds) == multiset(after.columns[c].taskIds)
  {
    var after := DragEnd(b, r);
    MovePreservesConsistency(b, r);
    MoveKeepsAssigneesKnown(b, r, members);
    RebuildAgrees(after, members, c);
  }
}
