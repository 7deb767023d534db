/**
 * `TodoEditViewModel`: the form state of the create/edit screen, its loading
 * from the store, and the validated, normalised save.
 */
module EditViewModel {
  import opened Wrappers
  import opened Model
  import opened KotlinText
  import opened Table
  import opened Repository

  /**
   * The record `saveTodo` builds from the form: the current id or a fresh
   * one, trimmed text, reopened, both timestamps at `now`.
   */
  function FormRecord(currentTodoId: Option<string>, freshId: string, title: string, note: string,
                      dueDate: Option<Date>, now: Date): (t: Todo)
    ensures currentTodoId.Some? ==> t.id == currentTodoId.value
    ensures currentTodoId.None? ==> t.id == freshId
    ensures t.title == Trim(title) && t.note == Trim(note) && t.dueDate == dueDate
    ensures !t.isDone && t.createdAt == now && t.updatedAt == now
  {
    Todo(currentTodoId.GetOr(freshId), Trim(title), Trim(note), false, dueDate, now, now)
  }

  /**
   * What a save that passed the title check stores: a record whose title is
   * non-empty and carries no surrounding whitespace, and whose note carries
   * none either.
   */
  lemma SavedRecordIsNormalised(currentTodoId: Option<string>, freshId: string, title: string, note: string,
                                dueDate: Option<Date>, now: Date)
    requires !IsBlank(title)
    ensures var t := Stamped(FormRecord(currentTodoId, freshId, title, note, dueDate, now), now);
      && t.title != [] && !IsBlank(t.title) && Trim(t.title) == t.title
      && Trim(t.note) == t.note
      && !t.isDone && t.createdAt == t.updatedAt == now
  {
  }

  /**
   * A save with no current id adds one row when the fresh id is unused; a
   * save of a loaded record rewrites that record's row and adds none.
   */
  lemma SaveAddsRowOnlyForNewTodo(table: TodoTable, currentTodoId: Option<string>, freshId: string,
                                  title: string, note: string, dueDate: Option<Date>, now: Date)
    ensures currentTodoId.None? && freshId !in table ==>
      |Upsert(table, Stamped(FormRecord(currentTodoId, freshId, title, note, dueDate, now), now))| == |table| + 1
    ensures currentTodoId.Some? && currentTodoId.value in table ==>
      |Upsert(table, Stamped(FormRecord(currentTodoId, freshId, title, note, dueDate, now), now))| == |table|
  {
  }

  /**
   * Saving a loaded record stores it reopened and with `createdAt` set to
   * the save time, whatever the stored record's completion and creation time
   * were.
   */
  lemma EditReopensAndRestampsCreation(table: TodoTable, id: string, freshId: string,
                                       title: string, note: string, dueDate: Option<Date>, now: Date)
    requires id in table
    ensures var r := Upsert(table, Stamped(FormRecord(Some(id), freshId, title, note, dueDate, now), now));
      id in r && !r[id].isDone && r[id].createdAt == now && r[id].updatedAt == now
  {
  }

  class TodoEditViewModel {
    const repository: TodoRepositoryImpl
    var title: string
    var note: string
    var dueDate: Option<Date>
    var isLoading: bool
    var currentTodoId: Option<string>

    ghost predicate Valid()
      reads this, repository, repository.dao
    {
      repository.Valid()
    }

    /** The fields start as for a new todo. */
    constructor (repository: TodoRepositoryImpl)
      ensures this.repository == repository
      ensures title == "" && note == "" && dueDate == None && !isLoading && currentTodoId == None
    {
      this.repository := repository;
      title, note, dueDate := "", "", None;
      isLoading := false;
      currentTodoId := None;
    }

    /** `initializeForNewTodo`: an empty form for a new record. */
    method InitializeForNewTodo()
      modifies this
      ensures title == "" && note == "" && dueDate == None && !isLoading && currentTodoId == None
    {
      currentTodoId := None;
      title := "";
      note := "";
      dueDate := None;
      isLoading := false;
    }

    /**
     * `loadTodo`: copies the stored record into the form, or starts a new
     * todo when there is none or when the lookup throws (`lookupFails`);
     * `isLoading` is cleared in every case.
     */
    method LoadTodo(todoId: string, lookupFails: bool)
      requires Valid()
      modifies this
      ensures Valid()
      ensures !isLoading
      ensures !lookupFails && todoId in repository.dao.todos ==>
        var t := repository.dao.todos[todoId];
        currentTodoId == Some(t.id) && title == t.title && note == t.note && dueDate == t.dueDate
      ensures lookupFails || todoId !in repository.dao.todos ==>
        title == "" && note == "" && dueDate == None && currentTodoId == None
    {
      isLoading := true;
      if lookupFails {
        InitializeForNewTodo();
      } else {
        var todo := repository.GetTodoById(todoId);
        if todo.Some? {
          currentTodoId := Some(todo.value.id);
          title := todo.value.title;
          note := todo.value.note;
          dueDate := todo.value.dueDate;
        } else {
          InitializeForNewTodo();
        }
      }
      isLoading := false;
    }

    /** `updateTitle`: only the title changes. */
    method UpdateTitle(newTitle: string)
      modifies this`title
      ensures title == newTitle
    {
      title := newTitle;
    }

    /** `updateNote`: only the note changes. */
    method UpdateNote(newNote: string)
      modifies this`note
      ensures note == newNote
    {
      note := newNote;
    }

    /** `updateDueDate`: only the due date changes. */
    method UpdateDueDate(newDueDate: Option<Date>)
      modifies this`dueDate
      ensures dueDate == newDueDate
    {
      dueDate := newDueDate;
    }

    /**
     * `saveTodo`. A blank title returns at once: nothing changes and
     * `onSaved` is not called. Otherwise the normalised record is saved
     * (with `freshId` standing for the `UUID` drawn when there is no current
     * id, and `now` for the clock) and `onSaved` is called; when the store
     * write throws (`saveFails`) the store is unchanged and `onSaved` is not
     * called. The result says whether `onSaved` ran.
     */
    method SaveTodo(now: Date, freshId: string, saveFails: bool) returns (onSaved: bool)
      requires Valid()
      modifies this`isLoading, repository.dao
      ensures Valid()
      ensures onSaved <==> !IsBlank(old(title)) && !saveFails
      ensures IsBlank(old(title)) ==> isLoading == old(isLoading) && repository.dao.todos == old(repository.dao.todos)
      ensures !IsBlank(old(title)) ==> !isLoading
      ensures !IsBlank(old(title)) && saveFails ==> repository.dao.todos == old(repository.dao.todos)
      ensures onSaved ==>
        repository.dao.todos ==
          Upsert(old(repository.dao.todos), Stamped(FormRecord(currentTodoId, freshId, title, note, dueDate, now), now))
    {
      if IsBlank(title) {
        return false;
      }
      isLoading := true;
      onSaved := false;
      if !saveFails {
        var todo := FormRecord(currentTodoId, freshId, title, note, dueDate, now);
        repository.SaveTodo(todo, now);
        onSaved := true;
      }
      isLoading := false;
    }
  }
}
