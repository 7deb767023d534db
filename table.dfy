/**
 * The `todos` table as a value: a map from primary key to row, the row-level
 * effect of each DAO mutation, and what a correct answer to each DAO query is.
 */
module Table {
  import opened Wrappers
  import opened Model
  import opened SqlLike

  type TodoTable = map<string, Todo>

  /** Every row is stored under its own `id`: the primary-key invariant. */
  ghost predicate Keyed(table: TodoTable) {
    forall id :: id in table ==> table[id].id == id
  }

  /** The three `SELECT` statements of the DAO that return lists. */
  datatype Query =
    | AllTodos              // SELECT * FROM todos
    | ByStatus(isDone: bool) // ... WHERE isDone = :isDone
    | Search(query: string)  // ... WHERE title LIKE '%' || :query || '%' OR note LIKE ...

  /** The `WHERE` clause of a query. */
  predicate Matches(q: Query, t: Todo) {
    match q
    case AllTodos => true
    case ByStatus(b) => t.isDone == b
    case Search(s) => Like(t.title, "%" + s + "%") || Like(t.note, "%" + s + "%")
  }

  /** `ORDER BY updatedAt DESC`; rows with equal `updatedAt` may come in any order. */
  predicate SortedByUpdatedDesc(rows: seq<Todo>) {
    forall i, j :: 0 <= i < j < |rows| ==> rows[i].updatedAt.time >= rows[j].updatedAt.time
  }

  /** No key appears twice in a list of rows. */
  predicate DistinctIds(rows: seq<Todo>) {
    forall i, j :: 0 <= i < j < |rows| ==> rows[i].id != rows[j].id
  }

  /**
   * `rows` is a correct answer to `q` on `table`: exactly the matching rows,
   * each once, newest `updatedAt` first.
   */
  ghost predicate IsResult(table: TodoTable, q: Query, rows: seq<Todo>) {
    && SortedByUpdatedDesc(rows)
    && DistinctIds(rows)
    && (forall i :: 0 <= i < |rows| ==>
          rows[i].id in table && table[rows[i].id] == rows[i] && Matches(q, rows[i]))
    && (forall id :: id in table && Matches(q, table[id]) ==> table[id] in rows)
  }

  /** `SELECT * FROM todos WHERE id = :id`. */
  function Lookup(table: TodoTable, id: string): (r: Option<Todo>)
    ensures r.Some? <==> id in table
    ensures r.Some? ==> r.value == table[id]
  {
    if id in table then Some(table[id]) else None
  }

  /** `@Insert(onConflict = REPLACE)`: the row now stored under `t.id` is `t`; no other key changes. */
  function Upsert(table: TodoTable, t: Todo): (r: TodoTable)
    ensures r.Keys == table.Keys + {t.id}
    ensures r[t.id] == t
    ensures forall id :: id in table && id != t.id ==> r[id] == table[id]
  {
    table[t.id := t]
  }

  /** `@Update`: replaces the row with key `t.id` if there is one; otherwise nothing happens. */
  function UpdateExisting(table: TodoTable, t: Todo): (r: TodoTable)
    ensures r.Keys == table.Keys
    ensures t.id in table ==> r[t.id] == t
    ensures forall id :: id in table && id != t.id ==> r[id] == table[id]
  {
    if t.id in table then table[t.id := t] else table
  }

  /** `@Delete` (matched on the primary key alone) and `DELETE ... WHERE id = :id`. */
  function Remove(table: TodoTable, id: string): (r: TodoTable)
    ensures r.Keys == table.Keys - {id}
    ensures forall k :: k in r ==> r[k] == table[k]
  {
    map k | k in table && k != id :: table[k]
  }

  /** `UPDATE todos SET isDone = NOT isDone, updatedAt = :updatedAt WHERE id = :id`. */
  function Toggle(table: TodoTable, id: string, updatedAt: Long): (r: TodoTable)
    ensures r.Keys == table.Keys
    ensures id in table ==> r[id] == table[id].(isDone := !table[id].isDone, updatedAt := Date(updatedAt))
    ensures forall k :: k in table && k != id ==> r[k] == table[k]
  {
    if id in table then
      table[id := table[id].(isDone := !table[id].isDone, updatedAt := Date(updatedAt))]
    else
      table
  }

  /** Rows upserted one after the other, in order. */
  function UpsertAll(table: TodoTable, ts: seq<Todo>): (r: TodoTable)
    ensures r.Keys == table.Keys + set t | t in ts :: t.id
  {
    if ts == [] then table else Upsert(UpsertAll(table, ts[..|ts| - 1]), ts[|ts| - 1])
  }

  // ---- Properties of the mutations -------------------------------------

  /** Every mutation keeps each row under its own key. */
  lemma MutationsKeepKeyed(table: TodoTable, t: Todo, id: string, ts: Long)
    requires Keyed(table)
    ensures Keyed(Upsert(table, t)) && Keyed(UpdateExisting(table, t))
    ensures Keyed(Remove(table, id)) && Keyed(Toggle(table, id, ts))
  {
  }

  /** After an upsert, a lookup of the key finds the upserted row; other lookups are unchanged. */
  lemma UpsertThenLookup(table: TodoTable, t: Todo, id: string)
    ensures Lookup(Upsert(table, t), id) == if id == t.id then Some(t) else Lookup(table, id)
  {
  }

  /** Updating a key that is not stored changes nothing. */
  lemma UpdateAbsentIsNoOp(table: TodoTable, t: Todo)
    requires t.id !in table
    ensures UpdateExisting(table, t) == table
  {
  }

  /** After a delete, the key is gone; deleting an absent key changes nothing; deleting twice is deleting once. */
  lemma RemoveIdempotent(table: TodoTable, id: string)
    ensures Lookup(Remove(table, id), id) == None
    ensures id !in table ==> Remove(table, id) == table
    ensures Remove(Remove(table, id), id) == Remove(table, id)
  {
  }

  /** Toggling an absent key changes nothing. */
  lemma ToggleAbsentIsNoOp(table: TodoTable, id: string, ts: Long)
    requires id !in table
    ensures Toggle(table, id, ts) == table
  {
  }

  /**
   * Toggling twice restores the completion flag; the table differs from the
   * original at most in that row's `updatedAt`, which holds the second stamp.
   */
  lemma ToggleTwice(table: TodoTable, id: string, ts1: Long, ts2: Long)
    ensures id in table ==>
      Toggle(Toggle(table, id, ts1), id, ts2) == table[id := table[id].(updatedAt := Date(ts2))]
    ensures id in table ==> Toggle(Toggle(table, id, ts1), id, ts2)[id].isDone == table[id].isDone
  {
  }

  // ---- Properties of the query answers ---------------------------------

  /** In a list of rows with distinct keys, each row occurs at most once. */
  lemma {:induction false} DistinctIdsCount(rows: seq<Todo>, x: Todo)
    requires DistinctIds(rows)
    ensures multiset(rows)[x] == if x in rows then 1 else 0
  {
    if rows != [] {
      assert rows == [rows[0]] + rows[1..];
      assert DistinctIds(rows[1..]);
      DistinctIdsCount(rows[1..], x);
      if x == rows[0] {
        assert x !in rows[1..] by {
          forall j | 0 <= j < |rows[1..]| ensures rows[1..][j] != x {
            assert rows[1..][j] == rows[j + 1];
          }
        }
      }
    }
  }

  /** Two answers to the same query hold the same rows, each as often. */
  lemma ResultsArePermutations(table: TodoTable, q: Query, rows1: seq<Todo>, rows2: seq<Todo>)
    requires IsResult(table, q, rows1) && IsResult(table, q, rows2)
    ensures multiset(rows1) == multiset(rows2)
  {
    forall x ensures multiset(rows1)[x] == multiset(rows2)[x] {
      DistinctIdsCount(rows1, x);
      DistinctIdsCount(rows2, x);
    }
  }

  /** The answer to the full scan is empty exactly when the table is. */
  lemma AllTodosEmptyIffTableEmpty(table: TodoTable, rows: seq<Todo>)
    requires IsResult(table, AllTodos, rows)
    ensures rows == [] <==> table == map[]
  {
    if rows != [] {
      assert rows[0].id in table;
    }
    if table != map[] {
      var id :| id in table;
      assert table[id] in rows;
    }
  }

  /**
   * ACTIVE and DONE split ALL: the full scan holds exactly the rows of the
   * `isDone = 0` answer and the `isDone = 1` answer together.
   */
  lemma StatusAnswersPartitionAll(table: TodoTable, all: seq<Todo>, open: seq<Todo>, done: seq<Todo>)
    requires IsResult(table, AllTodos, all)
    requires IsResult(table, ByStatus(false), open) && IsResult(table, ByStatus(true), done)
    ensures multiset(all) == multiset(open) + multiset(done)
  {
    forall x ensures multiset(all)[x] == multiset(open)[x] + multiset(done)[x] {
      DistinctIdsCount(all, x);
      DistinctIdsCount(open, x);
      DistinctIdsCount(done, x);
    }
  }

  /** The empty search pattern `'%%'` matches every row, so searching for "" answers like the full scan. */
  lemma EmptySearchAnswersLikeAll(table: TodoTable, rows: seq<Todo>)
    ensures IsResult(table, Search(""), rows) <==> IsResult(table, AllTodos, rows)
  {
    forall t: Todo ensures Matches(Search(""), t) {
      EmptyQueryMatchesAll(t.title);
    }
  }

  /** For a query free of `%` and `_`, a search row is one whose title or note contains the query, ignoring ASCII case. */
  lemma SearchIsFoldedContainment(q: string, t: Todo)
    requires NoWildcards(q)
    ensures Matches(Search(q), t) <==> ContainsFolded(t.title, q) || ContainsFolded(t.note, q)
  {
    LikeContains(t.title, q);
    LikeContains(t.note, q);
  }

  /**
   * When exactly two rows match and one is strictly newer, every answer lists
   * the newer one first. With `x` a just-toggled row and `y` a row finished
   * earlier, this is the done list `[x, y]` after the toggle.
   */
  lemma {:induction false} TwoMatchesNewestFirst(table: TodoTable, q: Query, x: Todo, y: Todo, rows: seq<Todo>)
    requires IsResult(table, q, rows)
    requires x.id in table && table[x.id] == x && Matches(q, x)
    requires y.id in table && table[y.id] == y && Matches(q, y)
    requires x.id != y.id && x.updatedAt.time > y.updatedAt.time
    requires forall id :: id in table && Matches(q, table[id]) ==> id == x.id || id == y.id
    ensures rows == [x, y]
  {
    assert x in rows && y in rows;
    forall z ensures multiset(rows)[z] == multiset{x, y}[z] {
      DistinctIdsCount(rows, z);
    }
    assert multiset(rows) == multiset{x, y};
    assert |rows| == |multiset(rows)| == 2;
    assert rows[0].id != rows[1].id;
    assert rows[0] == x;
  }

  /**
   * When exactly three rows match with strictly increasing `updatedAt`, every
   * answer lists them newest first.
   */
  lemma {:induction false} ThreeMatchesNewestFirst(table: TodoTable, q: Query, x: Todo, y: Todo, z: Todo, rows: seq<Todo>)
    requires IsResult(table, q, rows)
    requires x.id in table && table[x.id] == x && Matches(q, x)
    requires y.id in table && table[y.id] == y && Matches(q, y)
    requires z.id in table && table[z.id] == z && Matches(q, z)
    requires x.updatedAt.time > y.updatedAt.time > z.updatedAt.time
    requires forall id :: id in table && Matches(q, table[id]) ==> id == x.id || id == y.id || id == z.id
    ensures rows == [x, y, z]
  {
    assert x in rows && y in rows && z in rows;
    forall w ensures multiset(rows)[w] == multiset{x, y, z}[w] {
      DistinctIdsCount(rows, w);
    }
    assert multiset(rows) == multiset{x, y, z};
    assert |rows| == |multiset(rows)| == 3;
    assert rows[0] in multiset(rows) && rows[1] in multiset(rows) && rows[2] in multiset(rows);
    assert rows[0] == x;
    assert rows[1] == y;
  }

  /** Dropping the head of a list drops one copy of it from the list's multiset. */
  lemma TailMultiset(s: seq<Todo>)
    requires s != []
    ensures multiset(s[1..]) == multiset(s) - multiset{s[0]}
  {
    assert s == [s[0]] + s[1..];
  }

  /**
   * Two non-empty lists sorted newest first that hold the same rows, no two
   * of them with the same `updatedAt`, start with the same row.
   */
  lemma SortedSameRowsHeads(a: seq<Todo>, b: seq<Todo>)
    requires SortedByUpdatedDesc(a) && SortedByUpdatedDesc(b)
    requires multiset(a) == multiset(b) && a != []
    requires forall i, j :: 0 <= i < j < |a| ==> a[i].updatedAt != a[j].updatedAt
    ensures b != [] && a[0] == b[0]
  {
    assert b[0] in multiset(a) && a[0] in multiset(b);
    var k :| 0 <= k < |a| && a[k] == b[0];
    var m :| 0 <= m < |b| && b[m] == a[0];
    assert a[k].updatedAt == a[0].updatedAt;
  }

  /**
   * Two lists sorted newest first that hold the same rows, no two of them
   * with the same `updatedAt`, are equal.
   */
  lemma {:induction false} SortedSameRowsEqual(a: seq<Todo>, b: seq<Todo>)
    requires SortedByUpdatedDesc(a) && SortedByUpdatedDesc(b)
    requires multiset(a) == multiset(b)
    requires forall i, j :: 0 <= i < j < |a| ==> a[i].updatedAt != a[j].updatedAt
    ensures a == b
    decreases |a|
  {
    assert |a| == |multiset(a)| == |multiset(b)| == |b|;
    if a != [] {
      SortedSameRowsHeads(a, b);
      TailMultiset(a);
      TailMultiset(b);
      var a', b' := a[1..], b[1..];
      assert forall i :: 0 <= i < |a'| ==> a'[i] == a[i + 1];
      assert forall i :: 0 <= i < |b'| ==> b'[i] == b[i + 1];
      SortedSameRowsEqual(a', b');
      assert a == [a[0]] + a' && b == [b[0]] + b';
    }
  }

  /**
   * When no two matching rows share an `updatedAt`, a query has only one
   * correct answer.
   */
  lemma DistinctStampsForceAnswer(table: TodoTable, q: Query, rows1: seq<Todo>, rows2: seq<Todo>)
    requires IsResult(table, q, rows1) && IsResult(table, q, rows2)
    requires forall id1, id2 ::
      (id1 in table && id2 in table && id1 != id2 && Matches(q, table[id1]) && Matches(q, table[id2])) ==>
        table[id1].updatedAt != table[id2].updatedAt
    ensures rows1 == rows2
  {
    ResultsArePermutations(table, q, rows1, rows2);
    forall i, j | 0 <= i < j < |rows1| ensures rows1[i].updatedAt != rows1[j].updatedAt {
      assert table[rows1[i].id] == rows1[i] && table[rows1[j].id] == rows1[j];
    }
    SortedSameRowsEqual(rows1, rows2);
  }
}
