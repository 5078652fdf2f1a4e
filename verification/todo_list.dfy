/** The web list's client state: the optimistic reducer applied before the
    server answers, the status filter and the open count shown, and the
    updaters that reconcile the confirmed list with the server's answer. */
module TodoListState {
  import opened Schema
  import Db

  /** An optimistic action. `UnknownAction` stands for any action type other
      than the four the reducer knows. */
  datatype Action =
    | AddAction(id: string, title: string)
    | ToggleAction(id: string)
    | UpdateAction(id: string, title: string)
    | DeleteAction(id: string)
    | UnknownAction(kind: string)

  /** The placeholder item shown for an add until the server answers. */
  function OptimisticTodo(id: string, title: string, username: string, createdAt: Timestamp, updatedAt: Timestamp)
    : (t: Todo)
    ensures t.id == id && t.title == title && t.username == username
    ensures t.description == "" && !t.completed
  {
    Todo(id, title, "", false, username, createdAt, updatedAt)
  }

  /** Flips `completed` on every item with the id; nothing else moves. */
  function ToggleById(s: seq<Todo>, id: string): (r: seq<Todo>)
    ensures |r| == |s|
    ensures forall i :: 0 <= i < |s| ==>
      r[i] == if s[i].id == id then s[i].(completed := !s[i].completed) else s[i]
  {
    if s == [] then []
    else
      var head := if s[0].id == id then s[0].(completed := !s[0].completed) else s[0];
      [head] + ToggleById(s[1..], id)
  }

  /** Sets the title of every item with the id; nothing else moves. */
  function RetitleById(s: seq<Todo>, id: string, title: string): (r: seq<Todo>)
    ensures |r| == |s|
    ensures forall i :: 0 <= i < |s| ==> r[i] == if s[i].id == id then s[i].(title := title) else s[i]
  {
    if s == [] then []
    else
      var head := if s[0].id == id then s[0].(title := title) else s[0];
      [head] + RetitleById(s[1..], id, title)
  }

  /** `a` is `b` with some items left out, the rest in the same order. */
  predicate IsSubsequence(a: seq<Todo>, b: seq<Todo>)
    decreases |b|
  {
    if a == [] then true
    else if b == [] then false
    else if a[0] == b[0] then IsSubsequence(a[1..], b[1..])
    else IsSubsequence(a, b[1..])
  }

  /** Drops every item with the id and keeps the others in order. */
  function RemoveById(s: seq<Todo>, id: string): (r: seq<Todo>)
    ensures forall t :: multiset(r)[t] == (if t.id == id then 0 else multiset(s)[t])
    ensures IsSubsequence(r, s)
  {
    if s == [] then []
    else
      assert s == [s[0]] + s[1..];
      var rest := RemoveById(s[1..], id);
      if s[0].id == id then
        assert rest == [] || rest[0] != s[0] by {
          if rest != [] {
            assert multiset(rest)[rest[0]] > 0;
          }
        }
        rest
      else
        [s[0]] + rest
  }

  /** The reducer of `useOptimistic`. The two clock readings are the
      `createdAt` and `updatedAt` an added placeholder gets. */
  function Reduce(state: seq<Todo>, action: Action, username: string, createdAt: Timestamp, updatedAt: Timestamp)
    : (r: seq<Todo>)
    ensures action.AddAction? ==>
      && |r| == |state| + 1 && r[1..] == state
      && r[0] == OptimisticTodo(action.id, action.title, username, createdAt, updatedAt)
    ensures action.ToggleAction? ==> r == ToggleById(state, action.id)
    ensures action.UpdateAction? ==> r == RetitleById(state, action.id, action.title)
    ensures action.DeleteAction? ==> r == RemoveById(state, action.id)
    ensures action.UnknownAction? ==> r == state
  {
    match action
    case AddAction(id, title) => [OptimisticTodo(id, title, username, createdAt, updatedAt)] + state
    case ToggleAction(id) => ToggleById(state, id)
    case UpdateAction(id, title) => RetitleById(state, id, title)
    case DeleteAction(id) => RemoveById(state, id)
    case UnknownAction(_) => state
  }

  /** Applying the same toggle twice gives back the list it started from. */
  lemma {:induction false} ToggleTwiceIsIdentity(state: seq<Todo>, id: string, username: string, c: Timestamp, u: Timestamp)
    ensures Reduce(Reduce(state, ToggleAction(id), username, c, u), ToggleAction(id), username, c, u) == state
  {
    var once := ToggleById(state, id);
    var twice := ToggleById(once, id);
    assert |twice| == |state|;
    forall i | 0 <= i < |state| ensures twice[i] == state[i] {
      assert once[i].id == state[i].id;
    }
  }

  /** After a delete no item carries the id, and every other item is still
      there. */
  lemma DeleteRemovesOnlyThatId(state: seq<Todo>, id: string, t: Todo)
    ensures t in RemoveById(state, id) <==> t in state && t.id != id
  {
    var r := RemoveById(state, id);
    assert t in r <==> multiset(r)[t] > 0;
    assert t in state <==> multiset(state)[t] > 0;
  }

  // ---------------------------------------------------------------------
  // What the list shows

  /** The items the selected tab shows, in list order. */
  function Visible(s: seq<Todo>, filter: Status): (r: seq<Todo>)
    ensures forall t :: multiset(r)[t] == (if MatchesStatus(t, filter) then multiset(s)[t] else 0)
    ensures forall t :: t in r ==> MatchesStatus(t, filter)
    ensures IsSubsequence(r, s)
  {
    if s == [] then []
    else
      assert s == [s[0]] + s[1..];
      var rest := Visible(s[1..], filter);
      if MatchesStatus(s[0], filter) then [s[0]] + rest
      else
        assert rest == [] || rest[0] != s[0] by {
          if rest != [] {
            assert rest[0] in rest;
          }
        }
        rest
  }

  /** The "all" tab shows the whole list, in the same order. */
  lemma {:induction false} AllTabShowsEverything(s: seq<Todo>)
    ensures Visible(s, All) == s
  {
    if s != [] {
      AllTabShowsEverything(s[1..]);
    }
  }

  /** "active" and "completed" split the list with nothing shared and
      nothing left over. */
  lemma TabsPartition(s: seq<Todo>)
    ensures multiset(Visible(s, Active)) + multiset(Visible(s, Completed)) == multiset(s)
    ensures forall t :: !(t in Visible(s, Active) && t in Visible(s, Completed))
  {
    var act := Visible(s, Active);
    var done := Visible(s, Completed);
    forall t: Todo ensures (multiset(act) + multiset(done))[t] == multiset(s)[t] {
      if t.completed {
        assert multiset(act)[t] == 0;
      } else {
        assert multiset(done)[t] == 0;
      }
    }
    assert multiset(act) + multiset(done) == multiset(s);
  }

  /** `activeCount`: how many items are not completed. */
  function ActiveCount(s: seq<Todo>): (n: nat)
    ensures n <= |s|
  {
    if s == [] then 0 else (if s[0].completed then 0 else 1) + ActiveCount(s[1..])
  }

  /** The count is the length of the "active" tab, and with the
      "completed" tab it adds up to the whole list. */
  lemma {:induction false} ActiveCountIsActiveTab(s: seq<Todo>)
    ensures ActiveCount(s) == |Visible(s, Active)|
    ensures ActiveCount(s) + |Visible(s, Completed)| == |s|
  {
    if s != [] {
      ActiveCountIsActiveTab(s[1..]);
    }
  }

  // ---------------------------------------------------------------------
  // Reconciling the confirmed list with the server's answer

  /** After an add: the todo the server created goes in front. */
  function AfterAdd(prev: seq<Todo>, saved: Todo): (r: seq<Todo>)
    ensures |r| == |prev| + 1 && r[0] == saved && r[1..] == prev
  {
    [saved] + prev
  }

  /** Replaces every item with the id by `saved`. */
  function ReplaceById(s: seq<Todo>, id: string, saved: Todo): (r: seq<Todo>)
    ensures |r| == |s|
    ensures forall i :: 0 <= i < |s| ==> r[i] == if s[i].id == id then saved else s[i]
  {
    if s == [] then []
    else [if s[0].id == id then saved else s[0]] + ReplaceById(s[1..], id, saved)
  }

  /** After a toggle or an update: the server's row replaces the item with
      the id when the server returned one; otherwise nothing changes. */
  function AfterSave(prev: seq<Todo>, id: string, saved: Option<Todo>): (r: seq<Todo>)
    ensures saved.None? ==> r == prev
    ensures saved.Some? ==> r == ReplaceById(prev, id, saved.value)
  {
    match saved
    case None => prev
    case Some(t) => ReplaceById(prev, id, t)
  }

  /** When the server toggles the same row, the reconciled list is the
      optimistic one with only that row's `updatedAt` replaced. */
  lemma {:induction false} ToggleReconcileAgrees(prev: seq<Todo>, k: nat, now: Timestamp)
    requires UniqueIds(prev) && k < |prev|
    ensures var optimistic := ToggleById(prev, prev[k].id);
      AfterSave(prev, prev[k].id, Some(Db.Toggled(prev[k], now)))
        == optimistic[k := optimistic[k].(updatedAt := now)]
  {
    var saved := Db.Toggled(prev[k], now);
    var optimistic := ToggleById(prev, prev[k].id);
    var a := AfterSave(prev, prev[k].id, Some(saved));
    var b := optimistic[k := optimistic[k].(updatedAt := now)];
    forall i | 0 <= i < |prev| ensures a[i] == b[i] {
      if i != k {
        assert prev[i].id != prev[k].id;
      }
    }
  }

  /** When the server retitles the same row, the reconciled list is the
      optimistic one with only that row's `updatedAt` replaced. */
  lemma {:induction false} UpdateReconcileAgrees(prev: seq<Todo>, k: nat, title: string, now: Timestamp)
    requires UniqueIds(prev) && k < |prev|
    ensures var optimistic := RetitleById(prev, prev[k].id, title);
      AfterSave(prev, prev[k].id, Some(Db.Patched(prev[k], Db.Patch(Some(title), None), now)))
        == optimistic[k := optimistic[k].(updatedAt := now)]
  {
    var saved := Db.Patched(prev[k], Db.Patch(Some(title), None), now);
    var optimistic := RetitleById(prev, prev[k].id, title);
    var a := AfterSave(prev, prev[k].id, Some(saved));
    var b := optimistic[k := optimistic[k].(updatedAt := now)];
    forall i | 0 <= i < |prev| ensures a[i] == b[i] {
      if i != k {
        assert prev[i].id != prev[k].id;
      }
    }
  }
}
