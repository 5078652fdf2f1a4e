/** The `todos` table: one row per todo, its column defaults, and the status
    filter that both the data layer and the web list apply to rows. */
module Schema {

  datatype Option<+T> = None | Some(value: T) {
    function GetOr(default: T): T {
      match this
      case Some(v) => v
      case None => default
    }
  }

  /** An instant of the server clock. The source stores ISO-8601 strings of
      one fixed format, which order like the instants they denote. */
  type Timestamp = nat

  /** A row of `todos`. Every column is non-null. */
  datatype Todo = Todo(
    id: string,
    title: string,
    description: string,
    completed: bool,
    username: string,
    createdAt: Timestamp,
    updatedAt: Timestamp)

  /** A row as handed to an insert: the required columns `id`, `title` and
      `username`, and the columns that have a default, which may be omitted. */
  datatype NewTodo = NewTodo(
    id: string,
    title: string,
    description: Option<string>,
    completed: Option<bool>,
    username: string,
    createdAt: Option<Timestamp>,
    updatedAt: Option<Timestamp>)

  /** The row the table stores for an insert: each supplied column is kept,
      an omitted description is "" and an omitted `completed` is false.
      Each timestamp column has its own default function, so an omitted
      `createdAt` takes the clock reading `createdNow` and an omitted
      `updatedAt` takes the separate reading `updatedNow`. */
  function WithDefaults(n: NewTodo, createdNow: Timestamp, updatedNow: Timestamp): (t: Todo)
    ensures t.id == n.id && t.title == n.title && t.username == n.username
    ensures n.description.None? ==> t.description == ""
    ensures n.description.Some? ==> t.description == n.description.value
    ensures t.completed <==> n.completed == Some(true)
    ensures t.createdAt == (if n.createdAt.Some? then n.createdAt.value else createdNow)
    ensures t.updatedAt == (if n.updatedAt.Some? then n.updatedAt.value else updatedNow)
  {
    Todo(n.id, n.title, n.description.GetOr(""), n.completed.GetOr(false),
         n.username, n.createdAt.GetOr(createdNow), n.updatedAt.GetOr(updatedNow))
  }

  /** An insert that supplies only the required columns yields an open todo
      with an empty description; its `createdAt` is the first default clock
      reading and its `updatedAt` the second, which need not be equal. */
  lemma MinimalInsert(id: string, title: string, username: string, createdNow: Timestamp, updatedNow: Timestamp)
    ensures var t := WithDefaults(NewTodo(id, title, None, None, username, None, None), createdNow, updatedNow);
      && t.description == "" && !t.completed
      && t.createdAt == createdNow
      && t.updatedAt == updatedNow
  {
  }

  /** An insert that supplies both timestamps keeps them, whatever the
      clock reads at insert time. */
  lemma SuppliedTimestampsKept(n: NewTodo, createdNow: Timestamp, updatedNow: Timestamp)
    requires n.createdAt.Some? && n.updatedAt.Some?
    ensures WithDefaults(n, createdNow, updatedNow).createdAt == n.createdAt.value
    ensures WithDefaults(n, createdNow, updatedNow).updatedAt == n.updatedAt.value
  {
  }

  /** `id` is the primary key: no two rows share an id, whatever their
      owners. */
  ghost predicate UniqueIds(rows: seq<Todo>) {
    forall i, j :: 0 <= i < |rows| && 0 <= j < |rows| && rows[i].id == rows[j].id ==> i == j
  }

  predicate HasId(rows: seq<Todo>, id: string) {
    exists i :: 0 <= i < |rows| && rows[i].id == id
  }

  /** The status filter "all" | "active" | "completed". */
  datatype Status = All | Active | Completed

  /** `active` keeps the open todos, `completed` the done ones, `all` every
      one. */
  predicate MatchesStatus(t: Todo, status: Status): (b: bool)
    ensures b <==> status == All || t.completed == (status == Completed)
  {
    match status
    case All => true
    case Active => !t.completed
    case Completed => t.completed
  }

  /** Exactly one of "active" and "completed" admits any todo, and "all"
      admits every todo. */
  lemma StatusesPartition(t: Todo)
    ensures MatchesStatus(t, All)
    ensures MatchesStatus(t, Active) != MatchesStatus(t, Completed)
  {
  }
}
