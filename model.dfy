/**
 * The value types of the core model module: Kotlin's `Long`, `java.util.Date`,
 * the `Todo` entity (a Room table row) and the `TodoFilter` enum.
 */
module Model {
  import opened Wrappers

  const MinLong: int := -0x8000_0000_0000_0000
  const MaxLong: int := 0x7FFF_FFFF_FFFF_FFFF

  /** Kotlin's 64-bit signed `Long`. */
  newtype Long = x: int | MinLong <= x <= MaxLong

  /** `java.util.Date`: a wrapper around milliseconds since the epoch. */
  datatype Date = Date(time: Long)

  /** Kotlin's `Long + Int` (the `Int` widened to `Long`), which wraps around modulo 2^64. */
  function AddWrapping(a: Long, b: Long): (r: Long)
    ensures (r as int - (a as int + b as int)) % 0x1_0000_0000_0000_0000 == 0
    ensures MinLong <= a as int + b as int <= MaxLong ==> r as int == a as int + b as int
  {
    var s := a as int + b as int;
    if s > MaxLong then (s - 0x1_0000_0000_0000_0000) as Long
    else if s < MinLong then (s + 0x1_0000_0000_0000_0000) as Long
    else s as Long
  }

  /**
   * One row of the `todos` table. `id` is the primary key; Kotlin's data-class
   * equality is Dafny's structural datatype equality over all seven fields.
   */
  datatype Todo = Todo(
    id: string,
    title: string,
    note: string,
    isDone: bool,
    dueDate: Option<Date>,
    createdAt: Date,
    updatedAt: Date
  )

  /**
   * The optional arguments of `Todo(...)`: `None` means the argument was
   * omitted and its default applies. `dueDate` is itself nullable, so an
   * explicit `null` is `Some(None)`.
   */
  datatype TodoArgs = TodoArgs(
    note: Option<string>,
    isDone: Option<bool>,
    dueDate: Option<Option<Date>>,
    createdAt: Option<Date>,
    updatedAt: Option<Date>
  )

  /** No optional argument given. */
  const NoArgs := TodoArgs(None, None, None, None, None)

  /**
   * The primary constructor with its default values; `now` is the instant
   * `Date()` reads for the two timestamp defaults.
   */
  function NewTodo(id: string, title: string, args: TodoArgs, now: Date): (t: Todo)
    ensures t.id == id && t.title == title
    ensures t.note == (if args.note.Some? then args.note.value else "")
    ensures t.isDone == (args.isDone.Some? && args.isDone.value)
    ensures t.dueDate == (if args.dueDate.Some? then args.dueDate.value else None)
    ensures t.createdAt == (if args.createdAt.Some? then args.createdAt.value else now)
    ensures t.updatedAt == (if args.updatedAt.Some? then args.updatedAt.value else now)
  {
    Todo(id, title,
         args.note.GetOr(""),
         args.isDone.GetOr(false),
         args.dueDate.GetOr(None),
         args.createdAt.GetOr(now),
         args.updatedAt.GetOr(now))
  }

  /** A todo built from an id and a title alone is open, has no note and no due date, and was created and modified at `now`. */
  lemma DefaultsOfNewTodo(id: string, title: string, now: Date)
    ensures var t := NewTodo(id, title, NoArgs, now);
      t.note == "" && !t.isDone && t.dueDate == None && t.createdAt == t.updatedAt == now
  {
  }

  /** Two todos with the same key but some other field different are different values. */
  lemma SameIdOtherFieldsUnequal(a: Todo, b: Todo)
    requires a.id == b.id
    ensures a == b <==> (a.title == b.title && a.note == b.note && a.isDone == b.isDone &&
                         a.dueDate == b.dueDate && a.createdAt == b.createdAt && a.updatedAt == b.updatedAt)
  {
  }

  /** The three list filters, in declaration order. */
  datatype TodoFilter = ALL | ACTIVE | DONE

  /** `TodoFilter.values()`: the variants in declaration order. */
  const FilterValues: seq<TodoFilter> := [ALL, ACTIVE, DONE]

  /** `TodoFilter.ordinal`. */
  function Ordinal(f: TodoFilter): (n: nat)
    ensures n < |FilterValues| && FilterValues[n] == f
  {
    match f
    case ALL => 0
    case ACTIVE => 1
    case DONE => 2
  }

  /** `values()` lists every variant exactly once. */
  lemma FilterValuesEnumerateAll()
    ensures |FilterValues| == 3
    ensures forall f: TodoFilter :: f in FilterValues
    ensures forall i, j :: 0 <= i < j < |FilterValues| ==> FilterValues[i] != FilterValues[j]
  {
    forall f: TodoFilter ensures f in FilterValues {
      assert FilterValues[Ordinal(f)] == f;
    }
  }

  /** The completion status a filter selects; `None` for no status predicate. */
  function StatusOf(f: TodoFilter): (s: Option<bool>)
    ensures s == None <==> f == ALL
    ensures s == Some(false) <==> f == ACTIVE
    ensures s == Some(true) <==> f == DONE
  {
    match f
    case ALL => None
    case ACTIVE => Some(false)
    case DONE => Some(true)
  }
}
