/** The add form of the web list: one text input and a submit button. */
module AddTodoForm {
  import opened Schema
  import opened Text

  /** What a submit hands to `onAdd`: nothing for a blank input, otherwise
      the trimmed input, which is non-empty. */
  function SubmittedTitle(input: string): (r: Option<string>)
    ensures r.None? <==> IsBlank(input)
    ensures r.Some? ==> r.value == Trim(input) && r.value != "" && IsTrimmed(r.value)
  {
    var trimmed := Trim(input);
    if trimmed == "" then None else Some(trimmed)
  }

  class AddTodo {
    var title: string

    constructor ()
      ensures title == ""
    {
      title := "";
    }

    /** `onChange` of the input. */
    method Change(value: string)
      modifies this
      ensures title == value
    {
      title := value;
    }

    /** The submit button is disabled exactly when a submit would do
        nothing. */
    predicate SubmitDisabled()
      reads this
      ensures SubmitDisabled() <==> SubmittedTitle(title).None?
    {
      Trim(title) == ""
    }

    /** `handleSubmit`: a blank input is ignored and kept; otherwise
        `onAdd` gets the trimmed title once and the input is cleared. */
    method Submit() returns (added: Option<string>)
      modifies this
      ensures added == SubmittedTitle(old(title))
      ensures added.None? ==> title == old(title)
      ensures added.Some? ==> title == ""
    {
      var trimmed := Trim(title);
      if trimmed == "" {
        return None;
      }
      added := Some(trimmed);
      title := "";
    }
  }
}
