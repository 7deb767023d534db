/**
 * `TodoListViewModel`: two criteria fields and the rule that turns them into
 * the one store query feeding the list.
 */
module ListViewModel {
  import opened Model
  import opened KotlinText
  import opened Table
  import opened Repository

  /**
   * The `when` inside `todos`, composed with the repository it calls: a
   * non-blank search wins; otherwise the filter picks the status query.
   */
  function ListQuery(query: string, filter: TodoFilter): (q: Query)
    ensures !IsBlank(query) ==> q == Search(query)
    ensures IsBlank(query) ==> q == match StatusOf(filter) case None => AllTodos case Some(b) => ByStatus(b)
  {
    if !IsBlank(query) then SearchQuery(query)
    else if filter == ACTIVE then ByStatus(false)
    else if filter == DONE then ByStatus(true)
    else AllTodos
  }

  /** While a non-blank search is active the filter has no effect. */
  lemma SearchWinsOverFilter(query: string, f1: TodoFilter, f2: TodoFilter)
    requires !IsBlank(query)
    ensures ListQuery(query, f1) == ListQuery(query, f2)
  {
  }

  /**
   * With a blank search the list shows exactly the rows the filter admits:
   * every row for ALL, the open ones for ACTIVE, the done ones for DONE.
   */
  lemma BlankSearchShowsFilteredRows(table: TodoTable, query: string, filter: TodoFilter, rows: seq<Todo>)
    requires IsBlank(query) && IsResult(table, ListQuery(query, filter), rows)
    ensures forall i :: 0 <= i < |rows| ==>
      filter == ALL || (filter == ACTIVE && !rows[i].isDone) || (filter == DONE && rows[i].isDone)
    ensures forall id :: id in table && (filter == ALL || (table[id].isDone <==> filter == DONE)) ==> table[id] in rows
  {
  }

  class TodoListViewModel {
    const repository: TodoRepositoryImpl
    var searchQuery: string
    var selectedFilter: TodoFilter
    var isLoading: bool

    ghost predicate Valid()
      reads this, repository, repository.dao
    {
      repository.Valid()
    }

    /** The criteria start empty and unfiltered. */
    constructor (repository: TodoRepositoryImpl)
      ensures this.repository == repository
      ensures searchQuery == "" && selectedFilter == ALL && !isLoading
    {
      this.repository := repository;
      searchQuery := "";
      selectedFilter := ALL;
      isLoading := false;
    }

    /** `updateSearchQuery`: only the search text changes. */
    method UpdateSearchQuery(query: string)
      modifies this`searchQuery
      ensures searchQuery == query
    {
      searchQuery := query;
    }

    /** `updateFilter`: only the filter changes. */
    method UpdateFilter(filter: TodoFilter)
      modifies this`selectedFilter
      ensures selectedFilter == filter
    {
      selectedFilter := filter;
    }

    /** The current value of the `todos` flow: the answer to the query the criteria select. */
    method Todos() returns (rows: seq<Todo>)
      requires Valid()
      ensures IsResult(repository.dao.todos, ListQuery(searchQuery, selectedFilter), rows)
    {
      if !IsBlank(searchQuery) {
        rows := repository.SearchTodos(searchQuery);
      } else if selectedFilter == ACTIVE {
        rows := repository.GetTodosByStatus(false);
      } else if selectedFilter == DONE {
        rows := repository.GetTodosByStatus(true);
      } else {
        rows := repository.GetAllTodos();
      }
    }

    /** `toggleTodoCompletion`: forwards the id; `now` is the clock reading. */
    method ToggleTodoCompletion(todoId: string, now: Long)
      requires Valid()
      modifies repository.dao
      ensures Valid()
      ensures repository.dao.todos == Toggle(old(repository.dao.todos), todoId, now)
    {
      repository.ToggleTodoCompletion(todoId, now);
    }

    /** `deleteTodo`: forwards the todo. */
    method DeleteTodo(todo: Todo)
      requires Valid()
      modifies repository.dao
      ensures Valid()
      ensures repository.dao.todos == Remove(old(repository.dao.todos), todo.id)
    {
      repository.DeleteTodo(todo);
    }

    /** `deleteTodoById`: forwards the id. */
    method DeleteTodoById(todoId: string)
      requires Valid()
      modifies repository.dao
      ensures Valid()
      ensures repository.dao.todos == Remove(old(repository.dao.todos), todoId)
    {
      repository.DeleteTodoById(todoId);
    }
  }
}
