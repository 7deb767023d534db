# Todo store model

A Dafny model of the persistence and presentation logic of an Android todo
application: the `todos` table behind the Room DAO, the repository in front of
it, the sample-data seeding routine, and the two view models that choose which
query feeds the list and that validate and normalise an edited todo.

Layout, one module per source file or concern:

| file | module | models |
|---|---|---|
| `wrappers.dfy` | `Wrappers` | Kotlin nullable types as `Option` |
| `model.dfy` | `Model` | `Long`, `java.util.Date`, the `Todo` entity with its defaults, `TodoFilter` |
| `converters.dfy` | `Converters` | the Room `Long?` / `Date?` type converters |
| `kotlin_text.dfy` | `KotlinText` | `Char.isWhitespace`, `isBlank`, `trim` |
| `sql_like.dfy` | `SqlLike` | SQLite `LIKE`, as used by the search query |
| `table.dfy` | `Table` | the table as a map from key to row, the effect of every mutation, and what a correct query answer is |
| `dao.dfy` | `Dao` | `TodoDao` as a class with a map-valued `todos` field |
| `repository.dfy` | `Repository` | `TodoRepositoryImpl` |
| `sample_data.dfy` | `SampleData` | `SampleDataProvider` |
| `list_view_model.dfy` | `ListViewModel` | `TodoListViewModel` |
| `edit_view_model.dfy` | `EditViewModel` | `TodoEditViewModel` |

Each `Flow` returned by a query is modelled by one evaluation of the query
against the current table: a method that returns the list. Room re-runs the
same query after every change, so each emission is such an evaluation. SQL
defines no order among rows with equal `updatedAt`, so a query result is
specified, not computed by a function: `Table.IsResult(table, q, rows)` says
that `rows` holds exactly the rows matching `q`, each key once, with
`updatedAt` non-increasing. Two correct answers hold the same rows
(`Table.ResultsArePermutations`). When no two matching rows share an
`updatedAt`, the order is forced too and the answer is unique
(`Table.DistinctStampsForceAnswer`); `Table.TwoMatchesNewestFirst` and
`Table.ThreeMatchesNewestFirst` spell out that answer for two and three rows.

The clock (`Date()`, `System.currentTimeMillis()`) and `UUID.randomUUID()` are
parameters of the operations that read them (`now`, `saveTimes`, `freshId`, `ids`). A failing
store call in a view model's `try` block is a boolean parameter (`lookupFails`,
`saveFails`).

Points where the code behaves in a way a reader might not expect, all kept by
the model:
- The DAO orders by `updatedAt DESC` with no tie-break, so rows with equal
  `updatedAt` come back in no defined order.
- The edit screen's save builds a fresh record with `createdAt = Date()` and
  `isDone = false`, also when an existing todo is edited. Editing therefore
  moves the creation time and reopens a done todo
  (`EditViewModel.EditReopensAndRestampsCreation`).
- A blank title makes the edit screen's save return without saving and without
  calling `onSaved`; no error is reported. The store itself accepts any title.
- Search is SQLite `LIKE`: ASCII-only case folding, and `%` and `_` typed into
  the query act as wildcards (`SqlLike.UnderscoreInQueryIsWildcard`). For a
  query without them, a match is case-folded substring containment
  (`Table.SearchIsFoldedContainment`).
- Toggling an absent key succeeds and changes nothing.

## Model

| member | source | states |
|---|---|---|
| `Model.AddWrapping` | core-data/src/main/java/com/example/androidtodoapp/core/data/SampleDataProvider.kt:37 | `Long` addition agrees with integer addition modulo 2^64, and equals it when there is no overflow |
| `Model.NewTodo` | core-model/src/main/java/com/example/androidtodoapp/core/model/Todo.kt:11-20 | each field is the given argument, or its default when omitted: note `""`, not done, no due date, both timestamps at construction time |
| `Model.DefaultsOfNewTodo` | core-model/src/main/java/com/example/androidtodoapp/core/model/Todo.kt:15-19 | a todo built from id and title alone has an empty note, is open, has no due date, and `createdAt == updatedAt` |
| `Model.SameIdOtherFieldsUnequal` | core-model/src/main/java/com/example/androidtodoapp/core/model/Todo.kt:11-20 | equality is structural over all seven fields: two todos with the same id are equal iff every other field agrees |
| `Model.Ordinal` | core-model/src/main/java/com/example/androidtodoapp/core/model/TodoFilter.kt:6-10 | the declaration position of each variant, which `values()` lists at that index |
| `Model.FilterValuesEnumerateAll` | feature-todo/src/main/java/com/example/androidtodoapp/feature/todo/TodoListScreen.kt:71 | `values()`, which the filter chips iterate, lists exactly three variants, each variant once |
| `Model.StatusOf` | core-model/src/main/java/com/example/androidtodoapp/core/model/TodoFilter.kt:7-9 | ALL imposes no status predicate, ACTIVE selects `isDone == false`, DONE selects `isDone == true`, and these are the only cases |
| `Converters.FromTimestamp` | core-data/src/main/java/com/example/androidtodoapp/core/data/TodoDatabase.kt:36-38 | null maps to null; a value maps to the date at those milliseconds |
| `Converters.DateToTimestamp` | core-data/src/main/java/com/example/androidtodoapp/core/data/TodoDatabase.kt:41-43 | null maps to null; a date maps to its milliseconds |
| `Converters.TimestampRoundTrip` | core-data/src/main/java/com/example/androidtodoapp/core/data/TodoDatabase.kt:36-43 | `dateToTimestamp(fromTimestamp(v)) == v` for every `v`, null included |
| `Converters.DateRoundTrip` | core-data/src/main/java/com/example/androidtodoapp/core/data/TodoDatabase.kt:36-43 | `fromTimestamp(dateToTimestamp(d)) == d` for every `d`, null included |
| `KotlinText.IsWhitespace` | feature-todo/src/main/java/com/example/androidtodoapp/feature/todo/TodoEditViewModel.kt:106-107 | the characters Kotlin's `trim()` and `isBlank()` treat as whitespace: the JVM set `Character.isWhitespace` ∪ `Character.isSpaceChar`, that is U+0009–U+000D, U+001C–U+0020, U+00A0, U+1680, U+2000–U+200A, U+2028, U+2029, U+202F, U+205F and U+3000 |
| `KotlinText.IsBlank` | feature-todo/src/main/java/com/example/androidtodoapp/feature/todo/TodoEditViewModel.kt:99 | `isBlank()`: every character is whitespace, so the empty string is blank |
| `KotlinText.TrimStart` | feature-todo/src/main/java/com/example/androidtodoapp/feature/todo/TodoEditViewModel.kt:106-107 | the result is a suffix of the input, everything removed is whitespace, and it does not start with whitespace |
| `KotlinText.TrimEnd` | feature-todo/src/main/java/com/example/androidtodoapp/feature/todo/TodoEditViewModel.kt:106-107 | the result is a prefix of the input, everything removed is whitespace, and it does not end with whitespace |
| `KotlinText.Trim` | feature-todo/src/main/java/com/example/androidtodoapp/feature/todo/TodoEditViewModel.kt:106-107 | `trim()` is a slice of the input, surrounded by whitespace only, that neither starts nor ends with whitespace |
| `KotlinText.BlankIffTrimEmpty` | feature-todo/src/main/java/com/example/androidtodoapp/feature/todo/TodoEditViewModel.kt:99-106 | `isBlank()` holds exactly when `trim()` is empty |
| `KotlinText.TrimIdempotent` | feature-todo/src/main/java/com/example/androidtodoapp/feature/todo/TodoEditViewModel.kt:106-107 | trimming twice is trimming once |
| `KotlinText.TrimmedNonBlank` | feature-todo/src/main/java/com/example/androidtodoapp/feature/todo/TodoEditViewModel.kt:99-106 | trimming a non-blank title leaves a non-empty, non-blank title |
| `SqlLike.Like` | core-data/src/main/java/com/example/androidtodoapp/core/data/TodoDao.kt:31-32 | SQLite `LIKE` without an `ESCAPE` clause: `%` matches any run of characters, `_` any one character, and every other pattern character one character equal to it up to ASCII case |
| `SqlLike.FoldAscii` | core-data/src/main/java/com/example/androidtodoapp/core/data/TodoDao.kt:31-32 | `LIKE` lowercases the 26 ASCII capitals and leaves every other character alone |
| `SqlLike.PercentMatchesAll` | core-data/src/main/java/com/example/androidtodoapp/core/data/TodoDao.kt:31-32 | the pattern `%` matches every string |
| `SqlLike.LikePrefix` | core-data/src/main/java/com/example/androidtodoapp/core/data/TodoDao.kt:31-32 | for a wildcard-free `q`, `s LIKE q%` holds iff `s` starts with `q` up to ASCII case |
| `SqlLike.LikeContains` | core-data/src/main/java/com/example/androidtodoapp/core/data/TodoDao.kt:31-32 | for a wildcard-free `q`, `s` matches the pattern `%q%` iff `s` contains `q` up to ASCII case |
| `SqlLike.EmptyQueryMatchesAll` | core-data/src/main/java/com/example/androidtodoapp/core/data/TodoDao.kt:31-32 | the search pattern built from the empty query matches every string |
| `SqlLike.UnderscoreInQueryIsWildcard` | core-data/src/main/java/com/example/androidtodoapp/core/data/TodoDao.kt:31-32 | an unescaped `_` in the query matches any character: "a_c" finds "abc", which does not contain it |
| `Table.Matches` | core-data/src/main/java/com/example/androidtodoapp/core/data/TodoDao.kt:17-32 | the `WHERE` clauses: every row for the full scan, `isDone = :isDone` for the status query, for the search, a title or a note that is `LIKE` the pattern made of `%`, the query and `%` |
| `Table.SortedByUpdatedDesc` | core-data/src/main/java/com/example/androidtodoapp/core/data/TodoDao.kt:33 | `ORDER BY updatedAt DESC`: no row is newer than a row before it; rows with equal `updatedAt` may come in any order |
| `Table.IsResult` | core-data/src/main/java/com/example/androidtodoapp/core/data/TodoDao.kt:17-35 | the answer to a list query: exactly the matching rows, each key once, sorted by `updatedAt` descending |
| `Table.Lookup` | core-data/src/main/java/com/example/androidtodoapp/core/data/TodoDao.kt:40-41 | the row stored under the key, or none exactly when the key is absent |
| `Table.Upsert` | core-data/src/main/java/com/example/androidtodoapp/core/data/TodoDao.kt:46-47 | REPLACE: the key now maps to the new row, the key set gains at most that key, every other row is unchanged |
| `Table.UpdateExisting` | core-data/src/main/java/com/example/androidtodoapp/core/data/TodoDao.kt:52-53 | the key set is unchanged; the row with that key is replaced if present; every other row is unchanged |
| `Table.Remove` | core-data/src/main/java/com/example/androidtodoapp/core/data/TodoDao.kt:58-65 | only the given key leaves the table; every remaining row is unchanged |
| `Table.Toggle` | core-data/src/main/java/com/example/androidtodoapp/core/data/TodoDao.kt:70-71 | the key set is unchanged; that row's `isDone` is negated and its `updatedAt` set to the stamp; every other row is unchanged |
| `Table.UpsertAll` | core-data/src/main/java/com/example/androidtodoapp/core/data/SampleDataProvider.kt:52-54 | upserting a list adds exactly the list's keys to the table |
| `Table.MutationsKeepKeyed` | core-model/src/main/java/com/example/androidtodoapp/core/model/Todo.kt:12-13 | every mutation keeps each row stored under its own primary key |
| `Table.UpsertThenLookup` | core-data/src/main/java/com/example/androidtodoapp/core/data/TodoDao.kt:40-47 | after an insert, looking up its key finds the inserted row; other lookups are unchanged |
| `Table.UpdateAbsentIsNoOp` | core-data/src/main/java/com/example/androidtodoapp/core/data/TodoDao.kt:52-53 | updating an absent key leaves the table as it was |
| `Table.RemoveIdempotent` | core-data/src/main/java/com/example/androidtodoapp/core/data/TodoDao.kt:58-65 | after a delete the key is not found; deleting an absent key changes nothing; deleting twice equals deleting once |
| `Table.ToggleAbsentIsNoOp` | core-data/src/main/java/com/example/androidtodoapp/core/data/TodoDao.kt:70-71 | toggling an absent key leaves the table as it was |
| `Table.ToggleTwice` | core-data/src/main/java/com/example/androidtodoapp/core/data/TodoDao.kt:70-71 | two toggles restore `isDone`; the table differs from the original only in that row's `updatedAt`, which holds the second stamp |
| `Table.DistinctIdsCount` | core-model/src/main/java/com/example/androidtodoapp/core/model/Todo.kt:12-13 | in a list with distinct keys each row occurs at most once |
| `Table.ResultsArePermutations` | core-data/src/main/java/com/example/androidtodoapp/core/data/TodoDao.kt:17-35 | any two answers to the same query on the same table hold the same rows (equal multisets) |
| `Table.AllTodosEmptyIffTableEmpty` | core-data/src/main/java/com/example/androidtodoapp/core/data/TodoDao.kt:17-18 | the full scan is empty exactly when the table is |
| `Table.StatusAnswersPartitionAll` | core-data/src/main/java/com/example/androidtodoapp/core/data/TodoDao.kt:17-24 | the full scan's rows are exactly the `isDone = 0` rows plus the `isDone = 1` rows |
| `Table.EmptySearchAnswersLikeAll` | core-data/src/main/java/com/example/androidtodoapp/core/data/TodoDao.kt:29-35 | a DAO search for `""` has exactly the full scan's correct answers |
| `Table.SearchIsFoldedContainment` | core-data/src/main/java/com/example/androidtodoapp/core/data/TodoDao.kt:29-35 | for a wildcard-free query a row matches iff its title or note contains the query up to ASCII case |
| `Table.SortedSameRowsEqual` | core-data/src/main/java/com/example/androidtodoapp/core/data/TodoDao.kt:17-35 | two lists ordered by `updatedAt` descending that hold the same rows, no two with the same `updatedAt`, are equal |
| `Table.DistinctStampsForceAnswer` | core-data/src/main/java/com/example/androidtodoapp/core/data/TodoDao.kt:17-35 | when no two matching rows share an `updatedAt`, any two answers to the query are equal |
| `Table.ThreeMatchesNewestFirst` | core-data/src/main/java/com/example/androidtodoapp/core/data/TodoDao.kt:17-35 | when exactly three rows match with strictly increasing `updatedAt`, every answer lists them newest first |
| `Table.TwoMatchesNewestFirst` | core-data/src/main/java/com/example/androidtodoapp/core/data/TodoDao.kt:23-24 | when exactly two rows match and one is strictly newer, every answer is `[newer, older]`, as for the done list after a toggle |
| `Dao.TodoDao.constructor` | core-data/src/main/java/com/example/androidtodoapp/core/data/TodoDatabase.kt:14-22 | a new database holds no rows |
| `Dao.TodoDao.GetAllTodos` | core-data/src/main/java/com/example/androidtodoapp/core/data/TodoDao.kt:17-18 | the answer holds every row of the table, each once, `updatedAt` non-increasing |
| `Dao.TodoDao.GetTodosByStatus` | core-data/src/main/java/com/example/androidtodoapp/core/data/TodoDao.kt:23-24 | the answer holds exactly the rows with that `isDone`, each once, `updatedAt` non-increasing |
| `Dao.TodoDao.SearchTodos` | core-data/src/main/java/com/example/androidtodoapp/core/data/TodoDao.kt:29-35 | the answer holds exactly the rows whose title or note matches the `LIKE` pattern `%query%`, each once, `updatedAt` non-increasing |
| `Dao.TodoDao.GetTodoById` | core-data/src/main/java/com/example/androidtodoapp/core/data/TodoDao.kt:40-41 | the row stored under the id, or null exactly when there is none |
| `Dao.TodoDao.InsertTodo` | core-data/src/main/java/com/example/androidtodoapp/core/data/TodoDao.kt:46-47 | the new table is the old one with the key mapped to the row (`Table.Upsert`) |
| `Dao.TodoDao.UpdateTodo` | core-data/src/main/java/com/example/androidtodoapp/core/data/TodoDao.kt:52-53 | the new table is `Table.UpdateExisting` of the old one |
| `Dao.TodoDao.DeleteTodo` | core-data/src/main/java/com/example/androidtodoapp/core/data/TodoDao.kt:58-59 | the row with the todo's key is removed, whatever its other fields |
| `Dao.TodoDao.DeleteTodoById` | core-data/src/main/java/com/example/androidtodoapp/core/data/TodoDao.kt:64-65 | the row with that key is removed |
| `Dao.TodoDao.ToggleTodoCompletion` | core-data/src/main/java/com/example/androidtodoapp/core/data/TodoDao.kt:70-71 | the new table is `Table.Toggle` of the old one with the given stamp |
| `Dao.TodoDao.Select` | core-data/src/main/java/com/example/androidtodoapp/core/data/TodoDao.kt:17-35 | evaluating a query by a scan of the table yields a correct answer (`Table.IsResult`) |
| `Dao.InsertByUpdatedDesc` | core-data/src/main/java/com/example/androidtodoapp/core/data/TodoDao.kt:17 | inserting a row into a newest-first list keeps it ordered, adds exactly that row, and keeps keys distinct when the row's key is new |
| `Repository.SearchQuery` | core-data/src/main/java/com/example/androidtodoapp/core/data/repository/TodoRepositoryImpl.kt:26-32 | a blank query becomes the full scan; any other goes to the DAO search untrimmed |
| `Repository.Stamped` | core-data/src/main/java/com/example/androidtodoapp/core/data/repository/TodoRepositoryImpl.kt:39 | the saved copy has `updatedAt == now` and every other field, `createdAt` included, as given |
| `Repository.BlankSearchIsFullScan` | core-data/src/main/java/com/example/androidtodoapp/core/data/repository/TodoRepositoryImpl.kt:26-32 | for a blank query the search has exactly the full scan's correct answers; otherwise exactly the DAO search's |
| `Repository.SaveThenLookup` | core-data/src/main/java/com/example/androidtodoapp/core/data/repository/TodoRepositoryImpl.kt:34-41 | after `saveTodo(t)` a lookup of `t.id` returns `t` with `updatedAt = now`; every other key is unchanged |
| `Repository.TodoRepositoryImpl.constructor` | core-data/src/main/java/com/example/androidtodoapp/core/data/repository/TodoRepositoryImpl.kt:14-16 | the repository wraps the given DAO |
| `Repository.TodoRepositoryImpl.GetAllTodos` | core-data/src/main/java/com/example/androidtodoapp/core/data/repository/TodoRepositoryImpl.kt:18-20 | the answer is a correct full scan of the DAO's table |
| `Repository.TodoRepositoryImpl.GetTodosByStatus` | core-data/src/main/java/com/example/androidtodoapp/core/data/repository/TodoRepositoryImpl.kt:22-24 | the answer is a correct status query of the DAO's table |
| `Repository.TodoRepositoryImpl.SearchTodos` | core-data/src/main/java/com/example/androidtodoapp/core/data/repository/TodoRepositoryImpl.kt:26-32 | the answer is a correct full scan for a blank query and a correct DAO search otherwise |
| `Repository.TodoRepositoryImpl.GetTodoById` | core-data/src/main/java/com/example/androidtodoapp/core/data/repository/TodoRepositoryImpl.kt:34-36 | the DAO's lookup result |
| `Repository.TodoRepositoryImpl.SaveTodo` | core-data/src/main/java/com/example/androidtodoapp/core/data/repository/TodoRepositoryImpl.kt:38-41 | the DAO's table gains the todo with only `updatedAt` replaced by `now`, under REPLACE |
| `Repository.TodoRepositoryImpl.DeleteTodo` | core-data/src/main/java/com/example/androidtodoapp/core/data/repository/TodoRepositoryImpl.kt:43-45 | exactly the DAO's delete |
| `Repository.TodoRepositoryImpl.DeleteTodoById` | core-data/src/main/java/com/example/androidtodoapp/core/data/repository/TodoRepositoryImpl.kt:47-49 | exactly the DAO's delete by id |
| `Repository.TodoRepositoryImpl.ToggleTodoCompletion` | core-data/src/main/java/com/example/androidtodoapp/core/data/repository/TodoRepositoryImpl.kt:51-53 | exactly the DAO's toggle, stamped with the current time |
| `SampleData.SampleTodos` | core-data/src/main/java/com/example/androidtodoapp/core/data/SampleDataProvider.kt:22-50 | three records with the drawn ids and non-empty titles, both timestamps `now`, only the third done, only "Buy groceries" due, one day after `now` |
| `SampleData.SavedSamples` | core-data/src/main/java/com/example/androidtodoapp/core/data/SampleDataProvider.kt:52-54 | the three samples as `saveTodo` writes them, the `i`-th with `updatedAt` replaced by the time of its own save |
| `SampleData.Seeded` | core-data/src/main/java/com/example/androidtodoapp/core/data/SampleDataProvider.kt:52-54 | the table left by upserting the written samples, in list order, into an empty store |
| `SampleData.SeededUnfolds` | core-data/src/main/java/com/example/androidtodoapp/core/data/SampleDataProvider.kt:52-54 | seeding an empty store upserts the three samples in list order, each restamped by its own save |
| `SampleData.SeededHasThreeRows` | core-data/src/main/java/com/example/androidtodoapp/core/data/SampleDataProvider.kt:21-54 | with distinct ids the seeded store holds exactly three rows, one per id |
| `SampleData.SeededAt` | core-data/src/main/java/com/example/androidtodoapp/core/data/SampleDataProvider.kt:52-54 | with distinct ids the row under the `i`-th id is the `i`-th sample with `updatedAt` replaced by the `i`-th save time |
| `SampleData.SeededRows` | core-data/src/main/java/com/example/androidtodoapp/core/data/SampleDataProvider.kt:25-54 | every seeded row is a sample up to `updatedAt`, which is the time of its own save, while `createdAt` stays the construction time; no title is empty; exactly the third is done; a row has a due date iff it is "Buy groceries" |
| `SampleData.SeededNewestFirst` | core-data/src/main/java/com/example/androidtodoapp/core/data/SampleDataProvider.kt:52-54 | when the clock advances between the three saves, every full-scan answer after seeding lists the completed example, then "Buy groceries", then the welcome note |
| `SampleData.ProvideSampleDataIfNeeded` | core-data/src/main/java/com/example/androidtodoapp/core/data/SampleDataProvider.kt:18-56 | a non-empty store is left unchanged; an empty one ends as the three samples upserted in order, the `i`-th restamped with the `i`-th save time |
| `ListViewModel.ListQuery` | feature-todo/src/main/java/com/example/androidtodoapp/feature/todo/TodoListViewModel.kt:48-62 | a non-blank search selects the DAO search for the untrimmed query whatever the filter; otherwise ALL selects the full scan, ACTIVE `isDone = false`, DONE `isDone = true` |
| `ListViewModel.SearchWinsOverFilter` | feature-todo/src/main/java/com/example/androidtodoapp/feature/todo/TodoListViewModel.kt:48-52 | with a non-blank search the filter does not affect the query |
| `ListViewModel.BlankSearchShowsFilteredRows` | feature-todo/src/main/java/com/example/androidtodoapp/feature/todo/TodoListViewModel.kt:53-61 | with a blank search the list holds exactly the rows the filter admits |
| `ListViewModel.TodoListViewModel.constructor` | feature-todo/src/main/java/com/example/androidtodoapp/feature/todo/TodoListViewModel.kt:30-37 | the search starts empty, the filter ALL, not loading |
| `ListViewModel.TodoListViewModel.UpdateSearchQuery` | feature-todo/src/main/java/com/example/androidtodoapp/feature/todo/TodoListViewModel.kt:72-74 | sets the search text and may change no other field |
| `ListViewModel.TodoListViewModel.UpdateFilter` | feature-todo/src/main/java/com/example/androidtodoapp/feature/todo/TodoListViewModel.kt:79-81 | sets the filter and may change no other field |
| `ListViewModel.TodoListViewModel.Todos` | feature-todo/src/main/java/com/example/androidtodoapp/feature/todo/TodoListViewModel.kt:42-62 | the list is a correct answer to the query the current criteria select |
| `ListViewModel.TodoListViewModel.ToggleTodoCompletion` | feature-todo/src/main/java/com/example/androidtodoapp/feature/todo/TodoListViewModel.kt:86-94 | the store is toggled for exactly the given id |
| `ListViewModel.TodoListViewModel.DeleteTodo` | feature-todo/src/main/java/com/example/androidtodoapp/feature/todo/TodoListViewModel.kt:99-107 | the given todo's key is removed from the store |
| `ListViewModel.TodoListViewModel.DeleteTodoById` | feature-todo/src/main/java/com/example/androidtodoapp/feature/todo/TodoListViewModel.kt:112-120 | the given key is removed from the store |
| `EditViewModel.FormRecord` | feature-todo/src/main/java/com/example/androidtodoapp/feature/todo/TodoEditViewModel.kt:104-112 | the record keeps the current id when set and takes the fresh id otherwise, has trimmed title and note, the form's due date, is open, and has both timestamps at `now` |
| `EditViewModel.SavedRecordIsNormalised` | feature-todo/src/main/java/com/example/androidtodoapp/feature/todo/TodoEditViewModel.kt:99-113 | a record that passes the title check is stored with a non-empty, non-blank, already-trimmed title, a trimmed note, open, and `createdAt == updatedAt == now` |
| `EditViewModel.SaveAddsRowOnlyForNewTodo` | feature-todo/src/main/java/com/example/androidtodoapp/feature/todo/TodoEditViewModel.kt:105 | saving a new todo under an unused fresh id adds one row; saving a loaded todo overwrites its row and adds none |
| `EditViewModel.EditReopensAndRestampsCreation` | feature-todo/src/main/java/com/example/androidtodoapp/feature/todo/TodoEditViewModel.kt:104-112 | saving an edited todo stores it open and with `createdAt` equal to the save time |
| `EditViewModel.TodoEditViewModel.constructor` | feature-todo/src/main/java/com/example/androidtodoapp/feature/todo/TodoEditViewModel.kt:23-35 | the form starts empty, with no due date, no current id, not loading |
| `EditViewModel.TodoEditViewModel.InitializeForNewTodo` | feature-todo/src/main/java/com/example/androidtodoapp/feature/todo/TodoEditViewModel.kt:40-46 | clears the current id, title, note and due date and clears `isLoading` |
| `EditViewModel.TodoEditViewModel.LoadTodo` | feature-todo/src/main/java/com/example/androidtodoapp/feature/todo/TodoEditViewModel.kt:51-72 | a found record's id, title, note and due date are copied into the form; a missing record or a failing lookup resets the form as for a new todo; `isLoading` is false at the end |
| `EditViewModel.TodoEditViewModel.UpdateTitle` | feature-todo/src/main/java/com/example/androidtodoapp/feature/todo/TodoEditViewModel.kt:77-79 | sets the title and may change no other field |
| `EditViewModel.TodoEditViewModel.UpdateNote` | feature-todo/src/main/java/com/example/androidtodoapp/feature/todo/TodoEditViewModel.kt:84-86 | sets the note and may change no other field |
| `EditViewModel.TodoEditViewModel.UpdateDueDate` | feature-todo/src/main/java/com/example/androidtodoapp/feature/todo/TodoEditViewModel.kt:91-93 | sets the due date and may change no other field |
| `EditViewModel.TodoEditViewModel.SaveTodo` | feature-todo/src/main/java/com/example/androidtodoapp/feature/todo/TodoEditViewModel.kt:98-120 | a blank title changes nothing and skips `onSaved`; otherwise the normalised record is saved and `onSaved` runs, or on a failing save the store is unchanged and `onSaved` does not run; `isLoading` ends false; the form fields never change |

## Left out

- Reactive delivery: `Flow` re-emission, `combine`/`flatMapLatest` switching and cancellation, `stateIn(WhileSubscribed(5000))` and its initial empty list. Each live query is one evaluation against the current table; the timing and cancellation of emissions are not modelled.
- The `init` block of `TodoListViewModel`, which launches `provideSampleDataIfNeeded` asynchronously: the seeding is modelled on its own, but not its interleaving with other operations.
- `EditViewModel.TodoEditViewModel.SaveTodo`: the `viewModelScope.launch` body is modelled as running to completion inside the call. In the code the call returns at the body's first suspension, with `isLoading` still true and the store not yet written. `onSaved` is modelled as the returned flag, not as a callback run later.
- `EditViewModel.TodoEditViewModel.LoadTodo`: the `viewModelScope.launch` body is modelled as running to completion inside the call. In the code the call returns with `isLoading` still true and the form not yet filled.
- `ListViewModel.TodoListViewModel.ToggleTodoCompletion`, `ListViewModel.TodoListViewModel.DeleteTodo`, `ListViewModel.TodoListViewModel.DeleteTodoById`: each `viewModelScope.launch` body is modelled as running to completion inside the call. In the code the store change happens later, after the call has returned.
- The `isLoading` flag of `TodoListViewModel`: it is declared and never changed after construction, which the model keeps.
- Exceptions caught and discarded by `TodoListViewModel.toggleTodoCompletion`, `deleteTodo` and `deleteTodoById`: the model covers only the successful call.
- Storage I/O failure inside the DAO, the Room builder, the database name and schema export, and dependency injection.
- The clock and `UUID.randomUUID()`: they are parameters. One operation reads the clock as one instant: the two `Date()` defaults of `Todo`, the two `Date()` readings of the edit screen's save and the repository's restamp are each taken as the same `now`. The seeding's six `Date()` readings and `System.currentTimeMillis()` while the sample list is built are one `now`; each of its three saves has its own time `saveTimes[i]`.
- `Model.NewTodo`: `createdAt == updatedAt` for a todo built with both defaults holds only if the clock does not advance between the two `Date()` calls.
- Uniqueness of generated ids: `UUID`s are taken as given; the seeding results about three rows assume the three drawn ids are distinct.
- Kotlin strings are UTF-16 code units; the model uses Unicode characters. No whitespace character and no ASCII letter lies outside the Basic Multilingual Plane, so `isBlank`, `trim` and the `LIKE` case folding agree.
- Compose screens and navigation (`TodoListScreen`, `TodoEditScreen`, `MainActivity`) beyond the filter chips' use of `TodoFilter.values()`.
