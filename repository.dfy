/**
 * `TodoRepositoryImpl`: forwards to the DAO, except that a blank search is a
 * full scan and `saveTodo` stamps `updatedAt` before upserting.
 */
module Repository {
  import opened Wrappers
  import opened Model
  import opened KotlinText
  import opened Table
  import opened Dao

  /** The DAO query `searchTodos(query)` runs. */
  function SearchQuery(query: string): (q: Query)
    ensures IsBlank(query) ==> q == AllTodos
    ensures !IsBlank(query) ==> q == Search(query)
  {
    if IsBlank(query) then AllTodos else Search(query)
  }

  /** The row `saveTodo(todo)` hands to the DAO: `todo` with only `updatedAt` replaced by `now`. */
  function Stamped(todo: Todo, now: Date): (t: Todo)
    ensures t.updatedAt == now
    ensures t.id == todo.id && t.title == todo.title && t.note == todo.note
    ensures t.isDone == todo.isDone && t.dueDate == todo.dueDate && t.createdAt == todo.createdAt
  {
    todo.(updatedAt := now)
  }

  /** A blank search answers exactly like the full scan; a non-blank one goes to the DAO search untrimmed. */
  lemma BlankSearchIsFullScan(table: TodoTable, query: string, rows: seq<Todo>)
    ensures IsBlank(query) ==> (IsResult(table, SearchQuery(query), rows) <==> IsResult(table, AllTodos, rows))
    ensures !IsBlank(query) ==> (IsResult(table, SearchQuery(query), rows) <==> IsResult(table, Search(query), rows))
  {
  }

  /** After `saveTodo(todo)` a lookup of `todo.id` finds the stamped row, and every other key is as before. */
  lemma SaveThenLookup(table: TodoTable, todo: Todo, now: Date, id: string)
    ensures Lookup(Upsert(table, Stamped(todo, now)), todo.id) == Some(Stamped(todo, now))
    ensures id != todo.id ==> Lookup(Upsert(table, Stamped(todo, now)), id) == Lookup(table, id)
  {
  }

  class TodoRepositoryImpl {
    const dao: TodoDao

    ghost predicate Valid()
      reads this, dao
    {
      dao.Valid()
    }

    constructor (dao: TodoDao)
      ensures this.dao == dao
    {
      this.dao := dao;
    }

    method GetAllTodos() returns (rows: seq<Todo>)
      requires Valid()
      ensures IsResult(dao.todos, AllTodos, rows)
    {
      rows := dao.GetAllTodos();
    }

    method GetTodosByStatus(isDone: bool) returns (rows: seq<Todo>)
      requires Valid()
      ensures IsResult(dao.todos, ByStatus(isDone), rows)
    {
      rows := dao.GetTodosByStatus(isDone);
    }

    /** `searchTodos`: a blank query is redirected to the full scan. */
    method SearchTodos(query: string) returns (rows: seq<Todo>)
      requires Valid()
      ensures IsResult(dao.todos, SearchQuery(query), rows)
    {
      if IsBlank(query) {
        rows := dao.GetAllTodos();
      } else {
        rows := dao.SearchTodos(query);
      }
    }

    method GetTodoById(id: string) returns (r: Option<Todo>)
      requires Valid()
      ensures r == Lookup(dao.todos, id)
    {
      r := dao.GetTodoById(id);
    }

    /** `saveTodo`: `now` is the instant `Date()` reads. */
    method SaveTodo(todo: Todo, now: Date)
      requires Valid()
      modifies dao
      ensures Valid()
      ensures dao.todos == Upsert(old(dao.todos), Stamped(todo, now))
    {
      var updatedTodo := Stamped(todo, now);
      dao.InsertTodo(updatedTodo);
    }

    method DeleteTodo(todo: Todo)
      requires Valid()
      modifies dao
      ensures Valid()
      ensures dao.todos == Remove(old(dao.todos), todo.id)
    {
      dao.DeleteTodo(todo);
    }

    method DeleteTodoById(id: string)
      requires Valid()
      modifies dao
      ensures Valid()
      ensures dao.todos == Remove(old(dao.todos), id)
    {
      dao.DeleteTodoById(id);
    }

    /** `toggleTodoCompletion`: `now` is the DAO's default `System.currentTimeMillis()`. */
    method ToggleTodoCompletion(id: string, now: Long)
      requires Valid()
      modifies dao
      ensures Valid()
      ensures dao.todos == Toggle(old(dao.todos), id, now)
    {
      dao.ToggleTodoCompletion(id, now);
    }
  }
}
