/**
 * The web front end's application store (web/src/stores/app.ts): a global busy
 * flag, the message of the last error, and the colour theme.
 */
module AppStore {
  import opened Wrappers

  datatype Theme = Light | Dark

  /** `theme === 'light' ? 'dark' : 'light'`. */
  function Flip(t: Theme): (r: Theme)
    ensures r != t
  {
    if t == Light then Dark else Light
  }

  /** Toggling twice brings the theme back. */
  lemma FlipTwice(t: Theme)
    ensures Flip(Flip(t)) == t
  {
  }

  /** `!!error`: a message counts only when it is a non-empty string. */
  function ErrorShown(error: Option<string>): (r: bool)
    ensures r <==> error != None && error != Some("")
  {
    error.Some? && |error.value| > 0
  }

  class AppStore {
    var loading: bool
    var error: Option<string>
    var theme: Theme

    constructor ()
      ensures !loading && error.None? && theme == Light && !HasError()
    {
      loading := false;
      error := None;
      theme := Light;
    }

    /** `isLoading`. */
    predicate IsLoading()
      reads this
    {
      loading
    }

    /** `hasError`. */
    predicate HasError()
      reads this
    {
      ErrorShown(error)
    }

    method SetLoading(value: bool)
      modifies this`loading
      ensures IsLoading() == value
    {
      loading := value;
    }

    /** `setError`: an empty message is stored but does not count as an error. */
    method SetError(message: Option<string>)
      modifies this`error
      ensures error == message
      ensures HasError() <==> message.Some? && message.value != ""
    {
      error := message;
    }

    method ClearError()
      modifies this`error
      ensures error.None? && !HasError()
    {
      error := None;
    }

    method ToggleTheme()
      modifies this`theme
      ensures theme != old(theme) && theme == Flip(old(theme))
    {
      theme := Flip(theme);
    }
  }
}
