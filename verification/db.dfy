/** The data-access operations over the `todos` table: a status-filtered
    list ordered newest first, and add, partial update, toggle and delete,
    each of the last three scoped to one (id, username) pair. */
module Db {
  import opened Schema

  /** The rows owned by `username` that pass `status`, in table order. */
  function Where(rows: seq<Todo>, username: string, status: Status): (r: seq<Todo>)
    ensures forall t :: multiset(r)[t]
                     == (if t.username == username && MatchesStatus(t, status) then multiset(rows)[t] else 0)
  {
    if rows == [] then []
    else
      assert rows == [rows[0]] + rows[1..];
      var rest := Where(rows[1..], username, status);
      if rows[0].username == username && MatchesStatus(rows[0], status) then [rows[0]] + rest else rest
  }

  /** `createdAt` never increases along `s`. */
  predicate NewestFirst(s: seq<Todo>) {
    forall i, j :: 0 <= i < j < |s| ==> s[i].createdAt >= s[j].createdAt
  }

  /** Puts `x` in front of the first row of `s` that is not newer than it. */
  function InsertNewestFirst(x: Todo, s: seq<Todo>): (r: seq<Todo>)
    requires NewestFirst(s)
    ensures NewestFirst(r)
    ensures multiset(r) == multiset(s) + multiset{x}
    ensures |r| == |s| + 1 && (r[0] == x || (s != [] && r[0] == s[0]))
  {
    if s == [] || x.createdAt >= s[0].createdAt then
      ConsNewestFirst(x, s);
      [x] + s
    else
      TailNewestFirst(s);
      var rest := InsertNewestFirst(x, s[1..]);
      assert multiset(s) == multiset{s[0]} + multiset(s[1..]) by {
        assert s == [s[0]] + s[1..];
      }
      ConsNewestFirst(s[0], rest);
      [s[0]] + rest
  }

  lemma TailNewestFirst(s: seq<Todo>)
    requires NewestFirst(s) && s != []
    ensures NewestFirst(s[1..])
  {
    forall i, j | 0 <= i < j < |s[1..]| ensures s[1..][i].createdAt >= s[1..][j].createdAt {
      assert s[1..][i] == s[i + 1] && s[1..][j] == s[j + 1];
    }
  }

  lemma ConsNewestFirst(h: Todo, s: seq<Todo>)
    requires NewestFirst(s) && (s == [] || h.createdAt >= s[0].createdAt)
    ensures NewestFirst([h] + s)
  {
    var r := [h] + s;
    forall i, j | 0 <= i < j < |r| ensures r[i].createdAt >= r[j].createdAt {
      if i == 0 {
        assert r[j].createdAt <= s[0].createdAt;
      } else {
        assert r[i] == s[i - 1] && r[j] == s[j - 1];
      }
    }
  }

  /** `ORDER BY created_at DESC`, stable for rows created at the same
      instant. */
  function SortNewestFirst(s: seq<Todo>): (r: seq<Todo>)
    ensures NewestFirst(r)
    ensures multiset(r) == multiset(s)
  {
    if s == [] then []
    else
      assert s == [s[0]] + s[1..];
      InsertNewestFirst(s[0], SortNewestFirst(s[1..]))
  }

  /** `getTodos(username, status)`: exactly the rows owned by `username`
      that pass the status filter, each as often as it is stored, newest
      first. An omitted status filters like "all". */
  function Select(rows: seq<Todo>, username: string, status: Option<Status>): (r: seq<Todo>)
    ensures NewestFirst(r)
    ensures forall t :: multiset(r)[t]
                     == (if t.username == username && MatchesStatus(t, status.GetOr(All)) then multiset(rows)[t] else 0)
    ensures forall t :: t in r ==> t in rows && t.username == username
  {
    var r := SortNewestFirst(Where(rows, username, status.GetOr(All)));
    assert forall t :: t in r ==> multiset(r)[t] > 0;
    r
  }

  /** How often `Select` lists one particular row. */
  lemma SelectCount(rows: seq<Todo>, username: string, status: Status, t: Todo)
    ensures multiset(Select(rows, username, Some(status)))[t]
         == if t.username == username && MatchesStatus(t, status) then multiset(rows)[t] else 0
  {
  }

  /** For one user, "active" and "completed" split "all" with nothing left
      over and nothing shared, and an omitted status lists like "all". */
  lemma {:induction false} StatusPartition(rows: seq<Todo>, username: string)
    ensures multiset(Select(rows, username, Some(Active))) + multiset(Select(rows, username, Some(Completed)))
         == multiset(Select(rows, username, Some(All)))
    ensures Select(rows, username, None) == Select(rows, username, Some(All))
    ensures forall t :: !(t in Select(rows, username, Some(Active)) && t in Select(rows, username, Some(Completed)))
  {
    var act := Select(rows, username, Some(Active));
    var done := Select(rows, username, Some(Completed));
    var all := Select(rows, username, Some(All));
    forall t: Todo ensures (multiset(act) + multiset(done))[t] == multiset(all)[t] {
      SelectCount(rows, username, Active, t);
      SelectCount(rows, username, Completed, t);
      SelectCount(rows, username, All, t);
    }
    assert multiset(act) + multiset(done) == multiset(all);
    forall t | t in act ensures t !in done {
      SelectCount(rows, username, Active, t);
      SelectCount(rows, username, Completed, t);
    }
  }

  /** The row is the one `(id, username)` designates. */
  predicate Owned(t: Todo, id: string, username: string) {
    t.id == id && t.username == username
  }

  /** `WHERE id = ? AND username = ?`: the first matching position. */
  function FindOwned(rows: seq<Todo>, id: string, username: string): (r: Option<nat>)
    ensures r.Some? ==> r.value < |rows| && Owned(rows[r.value], id, username)
    ensures r.Some? ==> forall k :: 0 <= k < r.value ==> !Owned(rows[k], id, username)
    ensures r.None? <==> forall k :: 0 <= k < |rows| ==> !Owned(rows[k], id, username)
  {
    if rows == [] then None
    else if Owned(rows[0], id, username) then Some(0)
    else
      match FindOwned(rows[1..], id, username)
      case None => None
      case Some(k) => Some(k + 1)
  }

  /** Because ids are unique, the pair designates at most one row: the one
      found, whichever it is. */
  lemma FindOwnedUnique(rows: seq<Todo>, id: string, username: string, i: nat)
    requires UniqueIds(rows)
    requires i < |rows| && Owned(rows[i], id, username)
    ensures FindOwned(rows, id, username) == Some(i)
  {
  }

  /** The partial update `{ title?, description? }`. */
  datatype Patch = Patch(title: Option<string>, description: Option<string>)

  /** `SET ...data, updated_at = now`: the supplied fields and `updatedAt`
      change; the id, owner, completion and creation time do not. */
  function Patched(t: Todo, patch: Patch, now: Timestamp): (r: Todo)
    ensures r.id == t.id && r.username == t.username
    ensures r.completed == t.completed && r.createdAt == t.createdAt
    ensures r.title == (if patch.title.Some? then patch.title.value else t.title)
    ensures r.description == (if patch.description.Some? then patch.description.value else t.description)
    ensures r.updatedAt == now
  {
    t.(title := patch.title.GetOr(t.title),
       description := patch.description.GetOr(t.description),
       updatedAt := now)
  }

  /** `SET completed = NOT completed, updated_at = now`. */
  function Toggled(t: Todo, now: Timestamp): (r: Todo)
    ensures r.completed != t.completed && r.updatedAt == now
    ensures r.(completed := t.completed, updatedAt := t.updatedAt) == t
  {
    t.(completed := !t.completed, updatedAt := now)
  }

  /** Toggling twice gives back the original completion state; only the
      update time differs. */
  lemma ToggledTwice(t: Todo, now1: Timestamp, now2: Timestamp)
    ensures Toggled(Toggled(t, now1), now2) == t.(updatedAt := now2)
  {
  }

  /** No row of any other user is added, removed or changed. */
  ghost predicate OthersUntouched(before: seq<Todo>, after: seq<Todo>, username: string) {
    forall t: Todo :: t.username != username ==> multiset(after)[t] == multiset(before)[t]
  }

  lemma ReplaceOwnedKeepsOthers(rows: seq<Todo>, i: nat, t: Todo, username: string)
    requires i < |rows| && rows[i].username == username && t.username == username
    ensures OthersUntouched(rows, rows[i := t], username)
  {
    assert rows == rows[..i] + [rows[i]] + rows[i + 1..];
    assert rows[i := t] == rows[..i] + [t] + rows[i + 1..];
  }

  lemma RemoveOwnedKeepsOthers(rows: seq<Todo>, i: nat, username: string)
    requires i < |rows| && rows[i].username == username
    ensures OthersUntouched(rows, rows[..i] + rows[i + 1..], username)
    ensures UniqueIds(rows) ==> UniqueIds(rows[..i] + rows[i + 1..])
    ensures UniqueIds(rows) ==> !HasId(rows[..i] + rows[i + 1..], rows[i].id)
  {
    assert rows == rows[..i] + [rows[i]] + rows[i + 1..];
    if UniqueIds(rows) {
      RemoveKeepsIdsUnique(rows, i);
    }
  }

  lemma RemoveKeepsIdsUnique(rows: seq<Todo>, i: nat)
    requires i < |rows| && UniqueIds(rows)
    ensures UniqueIds(rows[..i] + rows[i + 1..])
    ensures !HasId(rows[..i] + rows[i + 1..], rows[i].id)
  {
    var rest := rows[..i] + rows[i + 1..];
    forall a, b | 0 <= a < |rest| && 0 <= b < |rest| && rest[a].id == rest[b].id ensures a == b {
      var a' := if a < i then a else a + 1;
      var b' := if b < i then b else b + 1;
      assert rest[a] == rows[a'] && rest[b] == rows[b'];
    }
    forall k | 0 <= k < |rest| ensures rest[k].id != rows[i].id {
      var k' := if k < i then k else k + 1;
      assert rest[k] == rows[k'];
    }
  }

  /** The todo table, shared by every user. */
  class TodoTable {
    var rows: seq<Todo>

    ghost predicate Valid()
      reads this
    {
      UniqueIds(rows)
    }

    constructor ()
      ensures Valid() && rows == []
    {
      rows := [];
    }

    /** `getTodos`: reads the table and changes nothing. */
    method GetTodos(username: string, status: Option<Status>) returns (r: seq<Todo>)
      ensures r == Select(rows, username, status)
    {
      r := Select(rows, username, status);
    }

    /** `addTodo` with the generated `id` (not yet in the table) and the
        clock reading `now`: inserts one row and returns it. */
    method AddTodo(id: string, username: string, title: string, description: Option<string>, now: Timestamp)
      returns (todo: Todo)
      requires Valid() && !HasId(rows, id)
      modifies this
      ensures Valid()
      ensures todo == Todo(id, title, description.GetOr(""), false, username, now, now)
      ensures rows == old(rows) + [todo]
    {
      var values := NewTodo(id, title, Some(description.GetOr("")), None, username, Some(now), Some(now));
      todo := WithDefaults(values, now, now);
      rows := rows + [todo];
    }

    /** `updateTodo`: applies `patch` to the row `(id, username)` designates
        and returns the new row, or returns None and changes nothing. */
    method UpdateTodo(id: string, username: string, patch: Patch, now: Timestamp) returns (r: Option<Todo>)
      requires Valid()
      modifies this
      ensures Valid()
      ensures match FindOwned(old(rows), id, username)
        case None => r == None && rows == old(rows)
        case Some(i) => r == Some(Patched(old(rows)[i], patch, now)) && rows == old(rows)[i := r.value]
      ensures OthersUntouched(old(rows), rows, username)
    {
      match FindOwned(rows, id, username)
      case None =>
        r := None;
      case Some(i) =>
        var updated := Patched(rows[i], patch, now);
        ReplaceOwnedKeepsOthers(rows, i, updated, username);
        rows := rows[i := updated];
        r := Some(updated);
    }

    /** `toggleTodo`: reads the row `(id, username)` designates; if there is
        none returns None and changes nothing, otherwise writes the negated
        `completed` back and returns the new row. */
    method ToggleTodo(id: string, username: string, now: Timestamp) returns (r: Option<Todo>)
      requires Valid()
      modifies this
      ensures Valid()
      ensures match FindOwned(old(rows), id, username)
        case None => r == None && rows == old(rows)
        case Some(i) => r == Some(Toggled(old(rows)[i], now)) && rows == old(rows)[i := r.value]
      ensures OthersUntouched(old(rows), rows, username)
    {
      var existing := FindOwned(rows, id, username);
      if existing.None? {
        return None;
      }
      var i := existing.value;
      var updated := rows[i].(completed := !rows[i].completed, updatedAt := now);
      ReplaceOwnedKeepsOthers(rows, i, updated, username);
      rows := rows[i := updated];
      r := Some(updated);
    }

    /** `deleteTodo`: removes the row `(id, username)` designates and returns
        it as it was, or returns None and changes nothing. */
    method DeleteTodo(id: string, username: string) returns (r: Option<Todo>)
      requires Valid()
      modifies this
      ensures Valid()
      ensures match FindOwned(old(rows), id, username)
        case None => r == None && rows == old(rows)
        case Some(i) => r == Some(old(rows)[i]) && rows == old(rows)[..i] + old(rows)[i + 1..]
      ensures !HasId(rows, id) || rows == old(rows)
      ensures OthersUntouched(old(rows), rows, username)
    {
      match FindOwned(rows, id, username)
      case None =>
        r := None;
      case Some(i) =>
        RemoveOwnedKeepsOthers(rows, i, username);
        r := Some(rows[i]);
        rows := rows[..i] + rows[i + 1..];
    }
  }

  /** Two toggles of the same todo in a row: the todo is back to its
      original completion state, and no other row has changed. */
  method ToggleTwice(table: TodoTable, id: string, username: string, now1: Timestamp, now2: Timestamp)
    returns (first: Option<Todo>, second: Option<Todo>)
    requires table.Valid()
    modifies table
    ensures table.Valid()
    ensures first.None? <==> second.None?
    ensures match FindOwned(old(table.rows), id, username)
      case None => table.rows == old(table.rows)
      case Some(i) =>
        && second == Some(old(table.rows)[i].(updatedAt := now2))
        && table.rows == old(table.rows)[i := old(table.rows)[i].(updatedAt := now2)]
  {
    first := table.ToggleTodo(id, username, now1);
    if first.Some? {
      FindOwnedUnique(table.rows, id, username, FindOwned(old(table.rows), id, username).value);
    }
    second := table.ToggleTodo(id, username, now2);
  }
}
