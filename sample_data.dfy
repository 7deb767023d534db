/** `SampleDataProvider`: seeds three example todos into an empty store. */
module SampleData {
  import opened Wrappers
  import opened Model
  import opened Table
  import opened Repository

  /** `24 * 60 * 60 * 1000`, a Kotlin `Int` product that does not overflow. */
  const OneDayMillis: Long := 86_400_000

  /**
   * The three records of `provideSampleDataIfNeeded`, given the three
   * `UUID`s it draws and the clock reading `now`.
   */
  function SampleTodos(ids: seq<string>, now: Long): (ts: seq<Todo>)
    requires |ids| == 3
    ensures |ts| == 3
    ensures forall i :: 0 <= i < 3 ==> ts[i].id == ids[i] && ts[i].title != [] && ts[i].note != []
    ensures forall i :: 0 <= i < 3 ==> ts[i].createdAt == ts[i].updatedAt == Date(now)
    ensures !ts[0].isDone && !ts[1].isDone && ts[2].isDone
    ensures ts[0].dueDate == None && ts[2].dueDate == None
    ensures ts[1].title == "Buy groceries" && ts[1].dueDate == Some(Date(AddWrapping(now, OneDayMillis)))
  {
    [ Todo(ids[0], "Welcome to Todo App!",
           "This is a sample todo. Tap to edit or swipe to complete/delete.",
           false, None, Date(now), Date(now)),
      Todo(ids[1], "Buy groceries", "Milk, bread, eggs, and fruits",
           false, Some(Date(AddWrapping(now, OneDayMillis))), Date(now), Date(now)),
      Todo(ids[2], "Completed task example", "This shows how completed tasks look",
           true, None, Date(now), Date(now)) ]
  }

  /**
   * The samples as the repository stores them: `saveTodo` replaces each
   * one's `updatedAt` with the clock reading `saveTimes[i]` of its own save.
   */
  function SavedSamples(ids: seq<string>, now: Long, saveTimes: seq<Date>): seq<Todo>
    requires |ids| == 3 && |saveTimes| == 3
  {
    var samples := SampleTodos(ids, now);
    [Stamped(samples[0], saveTimes[0]), Stamped(samples[1], saveTimes[1]), Stamped(samples[2], saveTimes[2])]
  }

  /** The table an empty store holds after seeding. */
  function Seeded(ids: seq<string>, now: Long, saveTimes: seq<Date>): TodoTable
    requires |ids| == 3 && |saveTimes| == 3
  {
    UpsertAll(map[], SavedSamples(ids, now, saveTimes))
  }

  /** Seeding upserts the three restamped samples in order. */
  lemma SeededUnfolds(ids: seq<string>, now: Long, saveTimes: seq<Date>)
    requires |ids| == 3 && |saveTimes| == 3
    ensures var ts := SavedSamples(ids, now, saveTimes);
      Seeded(ids, now, saveTimes) == map[ids[0] := ts[0]][ids[1] := ts[1]][ids[2] := ts[2]]
  {
    var ts := SavedSamples(ids, now, saveTimes);
    assert ts[..1][..0] == [] && ts[..2][..1] == ts[..1] && ts[..3][..2] == ts[..2] && ts[..3] == ts;
    assert UpsertAll(map[], ts[..1]) == map[ids[0] := ts[0]];
    assert UpsertAll(map[], ts[..2]) == map[ids[0] := ts[0]][ids[1] := ts[1]];
  }

  /** With three distinct ids, seeding an empty store leaves exactly three rows, one per id. */
  lemma SeededHasThreeRows(ids: seq<string>, now: Long, saveTimes: seq<Date>)
    requires |ids| == 3 && |saveTimes| == 3
    requires ids[0] != ids[1] && ids[0] != ids[2] && ids[1] != ids[2]
    ensures Seeded(ids, now, saveTimes).Keys == {ids[0], ids[1], ids[2]}
    ensures |Seeded(ids, now, saveTimes)| == 3
  {
    var ts := SavedSamples(ids, now, saveTimes);
    SeededUnfolds(ids, now, saveTimes);
    assert Seeded(ids, now, saveTimes).Keys == {ts[0].id, ts[1].id, ts[2].id};
  }

  /** With three distinct ids, the row under the `i`-th id is the `i`-th sample restamped with its save time. */
  lemma SeededAt(ids: seq<string>, now: Long, saveTimes: seq<Date>)
    requires |ids| == 3 && |saveTimes| == 3
    requires ids[0] != ids[1] && ids[0] != ids[2] && ids[1] != ids[2]
    ensures forall i :: 0 <= i < 3 ==>
      ids[i] in Seeded(ids, now, saveTimes) &&
      Seeded(ids, now, saveTimes)[ids[i]] == Stamped(SampleTodos(ids, now)[i], saveTimes[i])
  {
    SeededUnfolds(ids, now, saveTimes);
  }

  /**
   * With three distinct ids, every seeded row is a sample up to `updatedAt`,
   * which is the time of the row's own save while `createdAt` stays `now`;
   * the row under the third id is the only done row, only "Buy groceries"
   * has a due date, and no title is empty.
   */
  lemma SeededRows(ids: seq<string>, now: Long, saveTimes: seq<Date>)
    requires |ids| == 3 && |saveTimes| == 3
    requires ids[0] != ids[1] && ids[0] != ids[2] && ids[1] != ids[2]
    ensures var table := Seeded(ids, now, saveTimes);
      && (forall id :: id in table ==> table[id].(updatedAt := Date(now)) in SampleTodos(ids, now) && table[id].title != [])
      && (forall i :: 0 <= i < 3 ==> ids[i] in table && table[ids[i]].updatedAt == saveTimes[i])
      && (forall id :: id in table ==> table[id].createdAt == Date(now))
      && (forall id :: id in table ==> (table[id].isDone <==> id == ids[2]))
      && (forall id :: id in table ==> (table[id].dueDate.Some? <==> table[id].title == "Buy groceries"))
  {
    var table := Seeded(ids, now, saveTimes);
    var samples := SampleTodos(ids, now);
    SeededHasThreeRows(ids, now, saveTimes);
    SeededAt(ids, now, saveTimes);
    forall id | id in table
      ensures table[id].(updatedAt := Date(now)) in samples
      ensures table[id].isDone <==> id == ids[2]
      ensures table[id].dueDate.Some? <==> table[id].title == "Buy groceries"
    {
      var k := if id == ids[0] then 0 else if id == ids[1] then 1 else 2;
      assert id == ids[k] && table[id] == Stamped(samples[k], saveTimes[k]);
      assert table[id].(updatedAt := Date(now)) == samples[k];
    }
  }

  /**
   * When the clock advances between the three saves, the first full scan
   * after seeding lists the samples newest first: the completed example,
   * then "Buy groceries", then the welcome note.
   */
  lemma {:induction false} SeededNewestFirst(ids: seq<string>, now: Long, saveTimes: seq<Date>, rows: seq<Todo>)
    requires |ids| == 3 && |saveTimes| == 3
    requires ids[0] != ids[1] && ids[0] != ids[2] && ids[1] != ids[2]
    requires saveTimes[0].time < saveTimes[1].time < saveTimes[2].time
    requires IsResult(Seeded(ids, now, saveTimes), AllTodos, rows)
    ensures |rows| == 3
    ensures rows[0].id == ids[2] && rows[1].id == ids[1] && rows[2].id == ids[0]
    ensures rows[0].isDone && rows[1].title == "Buy groceries"
  {
    var table := Seeded(ids, now, saveTimes);
    SeededHasThreeRows(ids, now, saveTimes);
    SeededAt(ids, now, saveTimes);
    var x, y, z := table[ids[2]], table[ids[1]], table[ids[0]];
    assert x.id == ids[2] && y.id == ids[1] && z.id == ids[0];
    ThreeMatchesNewestFirst(table, AllTodos, x, y, z, rows);
  }

  /**
   * `provideSampleDataIfNeeded`: reads the first snapshot of the full scan
   * and, only if it is empty, saves the three sample records one by one,
   * the `i`-th save reading the clock as `saveTimes[i]`.
   */
  method ProvideSampleDataIfNeeded(repository: TodoRepositoryImpl, ids: seq<string>, now: Long, saveTimes: seq<Date>)
    requires repository.Valid()
    requires |ids| == 3 && |saveTimes| == 3
    modifies repository.dao
    ensures repository.Valid()
    ensures old(repository.dao.todos) != map[] ==> repository.dao.todos == old(repository.dao.todos)
    ensures old(repository.dao.todos) == map[] ==> repository.dao.todos == Seeded(ids, now, saveTimes)
  {
    var existingTodos := repository.GetAllTodos();
    AllTodosEmptyIffTableEmpty(repository.dao.todos, existingTodos);
    if existingTodos == [] {
      var sampleTodos := SampleTodos(ids, now);
      ghost var saved := SavedSamples(ids, now, saveTimes);
      var i := 0;
      while i < |sampleTodos|
        invariant 0 <= i <= |sampleTodos|
        invariant repository.Valid()
        invariant repository.dao.todos == UpsertAll(map[], saved[..i])
      {
        repository.SaveTodo(sampleTodos[i], saveTimes[i]);
        assert saved[..i + 1][..i] == saved[..i];
        i := i + 1;
      }
      assert saved[..i] == saved;
    }
  }
}
