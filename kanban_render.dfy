/** What the Kanban board component draws (src/components/backlog/kanban-board.tsx):
    the columns of the column order that exist, each with the tasks its ids
    resolve to. */
module KanbanRender {
  import opened Wrappers
  import opened Types
  import opened SeqUtil
  import opened Board

  /** A column as drawn, with its resolved tasks. */
  datatype RenderedColumn = RenderedColumn(column: KanbanColumn, tasks: seq<Task>)

  /** `taskIds.map(id => tasks[id]).filter(Boolean)`: the tasks the ids name,
      in id order, unknown ids dropped. */
  function ResolveTasks(taskIds: seq<string>, tasks: map<string, Task>): (resolved: seq<Task>)
    ensures |resolved| <= |taskIds|
  {
    if taskIds == [] then []
    else (if taskIds[0] in tasks then [tasks[taskIds[0]]] else []) + ResolveTasks(taskIds[1..], tasks)
  }

  /** `columnOrder.map(...)` with the missing columns skipped. */
  function RenderColumns(order: seq<string>, columns: map<string, KanbanColumn>, tasks: map<string, Task>): (drawn: seq<RenderedColumn>)
    ensures |drawn| <= |order|
  {
    if order == [] then []
    else
      (if order[0] in columns then [Drawn(order[0], columns, tasks)] else [])
      + RenderColumns(order[1..], columns, tasks)
  }

  /** The component: nothing but the fallback message (None) when the
      column order, the columns or the tasks are missing. */
  function RenderBoard(columnOrder: Option<seq<string>>, columns: Option<map<string, KanbanColumn>>,
                       tasks: Option<map<string, Task>>): (r: Option<seq<RenderedColumn>>)
    ensures r.Some? <==> columnOrder.Some? && columns.Some? && tasks.Some?
  {
    if columnOrder.None? || columns.None? || tasks.None? then None
    else Some(RenderColumns(columnOrder.value, columns.value, tasks.value))
  }

  /** A resolved list is no longer than its ids, and holds exactly the tasks
      that some known id names; ResolveTasksOrder gives the order. */
  lemma {:induction false} ResolveTasksSpec(taskIds: seq<string>, tasks: map<string, Task>, t: Task)
    ensures |ResolveTasks(taskIds, tasks)| <= |taskIds|
    ensures t in ResolveTasks(taskIds, tasks) <==> exists j :: 0 <= j < |taskIds| && taskIds[j] in tasks && tasks[taskIds[j]] == t
  {
    if taskIds != [] {
      var rest := taskIds[1..];
      ResolveTasksSpec(rest, tasks, t);
      if exists j :: 0 <= j < |taskIds| && taskIds[j] in tasks && tasks[taskIds[j]] == t {
        var j :| 0 <= j < |taskIds| && taskIds[j] in tasks && tasks[taskIds[j]] == t;
        if j > 0 {
          assert rest[j - 1] == taskIds[j];
        }
      }
      if t in ResolveTasks(rest, tasks) {
        var j :| 0 <= j < |rest| && rest[j] in tasks && tasks[rest[j]] == t;
        assert taskIds[j + 1] == rest[j];
      }
    }
  }

  /** Resolving keeps id order: the tasks of a concatenation of id lists are
      the first list's tasks followed by the second's. With the single-id
      case (a known id gives its task, an unknown one nothing) this fixes
      the resolved list element by element. */
  lemma {:induction false} ResolveTasksOrder(a: seq<string>, b: seq<string>, tasks: map<string, Task>)
    ensures ResolveTasks(a + b, tasks) == ResolveTasks(a, tasks) + ResolveTasks(b, tasks)
    ensures |a| == 1 ==> ResolveTasks(a, tasks) == if a[0] in tasks then [tasks[a[0]]] else []
  {
    if a != [] {
      var head := if a[0] in tasks then [tasks[a[0]]] else [];
      assert ResolveTasks(a + b, tasks) == head + ResolveTasks(a[1..] + b, tasks) by {
        assert (a + b)[0] == a[0] && (a + b)[1..] == a[1..] + b;
      }
      ResolveTasksOrder(a[1..], b, tasks);
      var rest, after := ResolveTasks(a[1..], tasks), ResolveTasks(b, tasks);
      assert ResolveTasks(a, tasks) == head + rest;
      assert head + (rest + after) == (head + rest) + after;
      if |a| == 1 {
        assert rest == [];
      }
    } else {
      assert a + b == b;
    }
  }

  /** The column drawn for column id `c`. */
  function Drawn(c: string, columns: map<string, KanbanColumn>, tasks: map<string, Task>): RenderedColumn
    requires c in columns
  {
    RenderedColumn(columns[c], ResolveTasks(columns[c].taskIds, tasks))
  }

  /** The drawn columns are no more than the ids of the order, and are
      exactly those drawn for the ids of the order that have a column. */
  lemma {:induction false} RenderColumnsSpec(order: seq<string>, columns: map<string, KanbanColumn>, tasks: map<string, Task>, rc: RenderedColumn)
    ensures |RenderColumns(order, columns, tasks)| <= |order|
    ensures rc in RenderColumns(order, columns, tasks) <==>
      exists c :: c in order && c in columns && rc == Drawn(c, columns, tasks)
  {
    if order != [] {
      var rest := order[1..];
      RenderColumnsSpec(rest, columns, tasks, rc);
      assert order == [order[0]] + rest;
      if exists c :: c in order && c in columns && rc == Drawn(c, columns, tasks) {
        var c :| c in order && c in columns && rc == Drawn(c, columns, tasks);
        if c != order[0] {
          assert c in rest;
        }
      }
    }
  }

  /** Drawing keeps the column order: the columns drawn for a concatenation
      of orders are those of the first followed by those of the second, and
      a single id draws its column when it has one and nothing otherwise. */
  lemma {:induction false} RenderColumnsOrder(a: seq<string>, b: seq<string>, columns: map<string, KanbanColumn>, tasks: map<string, Task>)
    ensures RenderColumns(a + b, columns, tasks) == RenderColumns(a, columns, tasks) + RenderColumns(b, columns, tasks)
    ensures |a| == 1 ==> RenderColumns(a, columns, tasks) == if a[0] in columns then [Drawn(a[0], columns, tasks)] else []
  {
    if a != [] {
      var head := if a[0] in columns then [Drawn(a[0], columns, tasks)] else [];
      assert RenderColumns(a + b, columns, tasks) == head + RenderColumns(a[1..] + b, columns, tasks) by {
        assert (a + b)[0] == a[0] && (a + b)[1..] == a[1..] + b;
      }
      RenderColumnsOrder(a[1..], b, columns, tasks);
      var rest, after := RenderColumns(a[1..], columns, tasks), RenderColumns(b, columns, tasks);
      assert RenderColumns(a, columns, tasks) == head + rest;
      assert head + (rest + after) == (head + rest) + after;
      if |a| == 1 {
        assert rest == [];
      }
    } else {
      assert a + b == b;
    }
  }

  /** How often a task is drawn over a list of drawn columns. */
  function Occurrences(rendered: seq<RenderedColumn>, t: Task): nat {
    if rendered == [] then 0 else multiset(rendered[0].tasks)[t] + Occurrences(rendered[1..], t)
  }

  /** How often an id is listed over the columns of an order. */
  function ListedCount(order: seq<string>, columns: map<string, KanbanColumn>, k: string): nat {
    if order == [] then 0
    else (if order[0] in columns then multiset(columns[order[0]].taskIds)[k] else 0) + ListedCount(order[1..], columns, k)
  }

  /** In a task map keyed by id, a task is drawn once for every listing of
      its id. */
  lemma {:induction false} ResolveTasksCount(taskIds: seq<string>, tasks: map<string, Task>, k: string)
    requires forall key :: key in tasks ==> tasks[key].id == key
    requires k in tasks
    ensures multiset(ResolveTasks(taskIds, tasks))[tasks[k]] == multiset(taskIds)[k]
  {
    if taskIds != [] {
      ResolveTasksCount(taskIds[1..], tasks, k);
      assert taskIds == [taskIds[0]] + taskIds[1..];
      if taskIds[0] in tasks && tasks[taskIds[0]] == tasks[k] {
        assert taskIds[0] == k;
      }
    }
  }

  lemma {:induction false} OccurrencesAreListings(order: seq<string>, columns: map<string, KanbanColumn>, tasks: map<string, Task>, k: string)
    requires forall key :: key in tasks ==> tasks[key].id == key
    requires k in tasks
    ensures Occurrences(RenderColumns(order, columns, tasks), tasks[k]) == ListedCount(order, columns, k)
  {
    if order != [] {
      OccurrencesAreListings(order[1..], columns, tasks, k);
      var head := if order[0] in columns then [Drawn(order[0], columns, tasks)] else [];
      var rest := RenderColumns(order[1..], columns, tasks);
      if order[0] in columns {
        ResolveTasksCount(columns[order[0]].taskIds, tasks, k);
        assert (head + rest)[0] == head[0] && (head + rest)[1..] == rest;
      } else {
        assert head + rest == rest;
      }
    }
  }

  /** Over an order without repeats, an id listed once in one column of the
      order and nowhere else is listed once in all. */
  lemma {:induction false} ListedOnce(order: seq<string>, columns: map<string, KanbanColumn>, k: string, home: string)
    requires Distinct(order)
    requires home in order && home in columns
    requires forall c :: c in columns ==> multiset(columns[c].taskIds)[k] == if c == home then 1 else 0
    ensures ListedCount(order, columns, k) == 1
  {
    var rest := order[1..];
    assert Distinct(rest);
    if order[0] == home {
      assert home !in rest;
      ListedNowhere(rest, columns, k, home);
    } else {
      assert home in rest by {
        var i :| 0 <= i < |order| && order[i] == home;
        assert rest[i - 1] == home;
      }
      ListedOnce(rest, columns, k, home);
    }
  }

  lemma {:induction false} ListedNowhere(order: seq<string>, columns: map<string, KanbanColumn>, k: string, home: string)
    requires home !in order
    requires forall c :: c in columns ==> multiset(columns[c].taskIds)[k] == if c == home then 1 else 0
    ensures ListedCount(order, columns, k) == 0
  {
    if order != [] {
      ListedNowhere(order[1..], columns, k, home);
    }
  }

  /** On a consistent board every task is drawn exactly once, in the column
      of its column key (src/components/backlog/kanban-board.tsx:20-29). */
  lemma RenderedExactlyOnce(b: KanbanBoardData, k: string)
    requires Consistent(b)
    requires k in b.tasks
    ensures Occurrences(RenderColumns(b.columnOrder, b.columns, b.tasks), b.tasks[k]) == 1
    ensures var home := ColumnKey(b.tasks[k]);
      home in b.columns && b.tasks[k] in Drawn(home, b.columns, b.tasks).tasks
  {
    var home := ColumnKey(b.tasks[k]);
    ResolveTasksCount(b.columns[home].taskIds, b.tasks, k);
    assert multiset(Drawn(home, b.columns, b.tasks).tasks)[b.tasks[k]] == 1;
    OccurrencesAreListings(b.columnOrder, b.columns, b.tasks, k);
    ListedOnce(b.columnOrder, b.columns, k, ColumnKey(b.tasks[k]));
  }
}
