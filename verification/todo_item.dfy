/** One row of the web list and its inline title editor: a small state
    machine over `editing` and `editTitle`. */
module TodoItemEdit {
  import opened Schema
  import opened Text

  /** The arguments of one `onUpdate(id, title)` call. */
  datatype TitleUpdate = TitleUpdate(id: string, title: string)

  /** What `handleSave` hands to `onUpdate`: the trimmed draft, and only when
      it is non-blank and differs from the current title. */
  function SaveOutcome(editTitle: string, todo: Todo): (r: Option<TitleUpdate>)
    ensures r.Some? <==> !IsBlank(editTitle) && Trim(editTitle) != todo.title
    ensures r.Some? ==> r.value.id == todo.id && r.value.title == Trim(editTitle)
    ensures r.Some? ==> r.value.title != "" && IsTrimmed(r.value.title)
  {
    var trimmed := Trim(editTitle);
    if trimmed != "" && trimmed != todo.title then Some(TitleUpdate(todo.id, trimmed)) else None
  }

  /** Saving the current (trimmed) title again, with or without white space
      around it, sends nothing. */
  lemma PaddedSameTitleSendsNothing(todo: Todo, before: string, after: string)
    requires IsTrimmed(todo.title) && IsBlank(before) && IsBlank(after)
    ensures SaveOutcome(before + todo.title + after, todo) == None
  {
    TrimPadded(before, todo.title, after);
  }

  class TodoItemEditor {
    var todo: Todo
    var editing: bool
    var editTitle: string

    /** The draft starts as the todo's title, with editing off. */
    constructor (todo: Todo)
      ensures this.todo == todo && !editing && editTitle == todo.title
    {
      this.todo := todo;
      editing := false;
      editTitle := todo.title;
    }

    /** A re-render with a new `todo` prop: the local state survives. */
    method ReceiveTodo(t: Todo)
      modifies this`todo
      ensures todo == t
    {
      todo := t;
    }

    /** The pencil button, shown while not editing. */
    method StartEditing()
      requires !editing
      modifies this`editing
      ensures editing
    {
      editing := true;
    }

    /** `onChange` of the input, shown while editing. */
    method ChangeTitle(value: string)
      requires editing
      modifies this`editTitle
      ensures editTitle == value
    {
      editTitle := value;
    }

    /** `handleSave` (the check button): leaves edit mode whether or not it
        updates, and keeps the draft. */
    method Save() returns (update: Option<TitleUpdate>)
      requires editing
      modifies this`editing
      ensures !editing
      ensures update == SaveOutcome(editTitle, todo)
    {
      var trimmed := Trim(editTitle);
      update := None;
      if trimmed != "" && trimmed != todo.title {
        update := Some(TitleUpdate(todo.id, trimmed));
      }
      editing := false;
    }

    /** `onKeyDown` of the input: Enter saves, Escape leaves edit mode
        without updating, any other key does nothing. */
    method KeyDown(key: string) returns (update: Option<TitleUpdate>)
      requires editing
      modifies this`editing
      ensures key == "Enter" ==> update == SaveOutcome(editTitle, todo) && !editing
      ensures key == "Escape" ==> update == None && !editing
      ensures key != "Enter" && key != "Escape" ==> update == None && editing
    {
      update := None;
      if key == "Enter" {
        update := Save();
      }
      if key == "Escape" {
        editing := false;
      }
    }

    /** The cancel button: drops the draft and leaves edit mode without
        updating. */
    method Cancel()
      requires editing
      modifies this`editing, this`editTitle
      ensures !editing && editTitle == todo.title
    {
      editTitle := todo.title;
      editing := false;
    }
  }
}
