/** The start page: a username input whose submit opens that user's list. */
module HomeRoute {
  import opened Schema
  import opened Text

  /** The username a submit navigates to: the trimmed, lower-cased input,
      or nothing when the input is blank. A target is never empty, has no
      white space at either end and is already lower case. */
  function NavigationTarget(input: string): (r: Option<string>)
    ensures r.None? <==> IsBlank(input)
    ensures r.Some? ==> r.value == ToLower(Trim(input))
    ensures r.Some? ==> r.value != "" && IsTrimmed(r.value) && ToLower(r.value) == r.value
  {
    var normalized := ToLower(Trim(input));
    ToLowerKeepsShape(Trim(input));
    if normalized == "" then None else Some(normalized)
  }

  class Home {
    var username: string

    constructor ()
      ensures username == ""
    {
      username := "";
    }

    /** `onChange` of the input. */
    method Change(value: string)
      modifies this
      ensures username == value
    {
      username := value;
    }

    /** The open button is disabled exactly when a submit would not
        navigate. */
    predicate OpenDisabled()
      reads this
      ensures OpenDisabled() <==> NavigationTarget(username).None?
    {
      Trim(username) == ""
    }

    /** `handleSubmit`: navigates to the normalized username, if any; the
        input itself is left as typed. */
    method Submit() returns (navigateTo: Option<string>)
      ensures navigateTo == NavigationTarget(username)
    {
      var trimmed := ToLower(Trim(username));
      if trimmed == "" {
        return None;
      }
      navigateTo := Some(trimmed);
    }
  }
}
