/**
 * `TodoDao`: the Room data-access object over the `todos` table. The table is
 * a map field that the mutations reassign; each `Flow`-returning query is
 * modelled by one evaluation against the current table.
 */
module Dao {
  import opened Wrappers
  import opened Model
  import opened Table

  class TodoDao {
    var todos: TodoTable

    ghost predicate Valid()
      reads this
    {
      Keyed(todos)
    }

    /** A freshly created, empty database. */
    constructor ()
      ensures Valid() && todos == map[]
    {
      todos := map[];
    }

    /** `getAllTodos`: every row, newest `updatedAt` first. */
    method GetAllTodos() returns (rows: seq<Todo>)
      requires Valid()
      ensures IsResult(todos, AllTodos, rows)
    {
      rows := Select(AllTodos);
    }

    /** `getTodosByStatus`: the rows whose `isDone` is the given flag, newest first. */
    method GetTodosByStatus(isDone: bool) returns (rows: seq<Todo>)
      requires Valid()
      ensures IsResult(todos, ByStatus(isDone), rows)
    {
      rows := Select(ByStatus(isDone));
    }

    /** `searchTodos`: the rows whose title or note is `LIKE '%' || query || '%'`, newest first. */
    method SearchTodos(query: string) returns (rows: seq<Todo>)
      requires Valid()
      ensures IsResult(todos, Search(query), rows)
    {
      rows := Select(Search(query));
    }

    /** `getTodoById`: the row stored under `id`, or null. */
    method GetTodoById(id: string) returns (r: Option<Todo>)
      requires Valid()
      ensures r.Some? <==> id in todos
      ensures r.Some? ==> r.value == todos[id] && r.value.id == id
    {
      r := if id in todos then Some(todos[id]) else None;
    }

    /** `insertTodo` with `OnConflictStrategy.REPLACE`. */
    method InsertTodo(todo: Todo)
      requires Valid()
      modifies this
      ensures Valid()
      ensures todos == Upsert(old(todos), todo)
    {
      todos := todos[todo.id := todo];
    }

    /** `updateTodo`: rewrites the row with the same key, if there is one. */
    method UpdateTodo(todo: Todo)
      requires Valid()
      modifies this
      ensures Valid()
      ensures todos == UpdateExisting(old(todos), todo)
    {
      if todo.id in todos {
        todos := todos[todo.id := todo];
      }
    }

    /** `deleteTodo`: Room deletes by the entity's primary key alone. */
    method DeleteTodo(todo: Todo)
      requires Valid()
      modifies this
      ensures Valid()
      ensures todos == Remove(old(todos), todo.id)
    {
      todos := todos - {todo.id};
    }

    /** `deleteTodoById`. */
    method DeleteTodoById(id: string)
      requires Valid()
      modifies this
      ensures Valid()
      ensures todos == Remove(old(todos), id)
    {
      todos := todos - {id};
    }

    /** `toggleTodoCompletion`: flips `isDone` and stamps `updatedAt`; zero rows match an absent key. */
    method ToggleTodoCompletion(id: string, updatedAt: Long)
      requires Valid()
      modifies this
      ensures Valid()
      ensures todos == Toggle(old(todos), id, updatedAt)
    {
      if id in todos {
        var t := todos[id];
        todos := todos[id := t.(isDone := !t.isDone, updatedAt := Date(updatedAt))];
      }
    }

    /**
     * How SQLite answers a `SELECT ... WHERE ... ORDER BY updatedAt DESC`:
     * scan the table in some order and keep the matching rows in an ordered
     * list.
     */
    method Select(q: Query) returns (rows: seq<Todo>)
      requires Valid()
      ensures IsResult(todos, q, rows)
    {
      rows := [];
      var rest := todos.Keys;
      while rest != {}
        invariant rest <= todos.Keys
        invariant SortedByUpdatedDesc(rows) && DistinctIds(rows)
        invariant forall i :: 0 <= i < |rows| ==>
          rows[i].id in todos && rows[i].id !in rest && todos[rows[i].id] == rows[i] && Matches(q, rows[i])
        invariant forall id :: id in todos && id !in rest && Matches(q, todos[id]) ==> todos[id] in rows
        decreases rest
      {
        var id :| id in rest;
        if Matches(q, todos[id]) {
          ghost var before := rows;
          rows := InsertByUpdatedDesc(rows, todos[id]);
          forall i | 0 <= i < |rows|
            ensures rows[i].id in todos && rows[i].id !in rest - {id}
            ensures todos[rows[i].id] == rows[i] && Matches(q, rows[i])
          {
            assert rows[i] in before || rows[i] == todos[id];
          }
        }
        rest := rest - {id};
      }
    }
  }

  /**
   * Inserts `t` into a list ordered newest first, before the first row that
   * is not newer than it.
   */
  method InsertByUpdatedDesc(rows: seq<Todo>, t: Todo) returns (r: seq<Todo>)
    requires SortedByUpdatedDesc(rows)
    ensures SortedByUpdatedDesc(r)
    ensures |r| == |rows| + 1
    ensures forall x :: x in r <==> x in rows || x == t
    ensures multiset(r) == multiset(rows) + multiset{t}
    ensures DistinctIds(rows) && (forall i :: 0 <= i < |rows| ==> rows[i].id != t.id) ==> DistinctIds(r)
  {
    var k := 0;
    while k < |rows| && rows[k].updatedAt.time > t.updatedAt.time
      invariant 0 <= k <= |rows|
      invariant forall i :: 0 <= i < k ==> rows[i].updatedAt.time > t.updatedAt.time
    {
      k := k + 1;
    }
    r := rows[..k] + [t] + rows[k..];
    SpliceCounts(rows, k, t);
    assert forall i :: 0 <= i < |r| ==> r[i] == if i < k then rows[i] else if i == k then t else rows[i - 1];
  }

  /** Putting `t` between `rows[..k]` and `rows[k..]` adds exactly one `t`. */
  lemma SpliceCounts(rows: seq<Todo>, k: nat, t: Todo)
    requires k <= |rows|
    ensures multiset(rows[..k] + [t] + rows[k..]) == multiset(rows) + multiset{t}
  {
    assert rows == rows[..k] + rows[k..];
  }
}
