/**
 * The sign-in page: the field rules, the page to return to, and the submit
 * flow around the context's login. The login request is a parameter: given
 * the username and password it yields the server's answer, or None when it
 * throws. The context's login catches every failure, so the page's own
 * error message is never set.
 */
module LoginPage {
  import opened Wrappers
  import opened JsValues
  import opened FormRules
  import opened AuthResponses
  import opened AuthService
  import opened AuthContext

  const UsernameRules := [Required("Username is required")]
  const PasswordRules := [Required("Password is required"), MinLength(6, "Password must be at least 6 characters")]

  datatype LoginValues = LoginValues(username: string, password: string)

  /** The message under each field. */
  datatype LoginErrors = LoginErrors(username: Option<string>, password: Option<string>)

  function ErrorsOf(v: LoginValues): LoginErrors
  {
    LoginErrors(FirstError(v.username, UsernameRules), FirstError(v.password, PasswordRules))
  }

  /** handleSubmit calls onSubmit only when no field has an error. */
  predicate IsSubmittable(v: LoginValues)
  {
    ErrorsOf(v) == LoginErrors(None, None)
  }

  /** The form goes through exactly with a username and a password of at least six characters. */
  lemma {:induction false} SubmittableIff(v: LoginValues)
    ensures IsSubmittable(v) <==> v.username != "" && |v.password| >= 6
    ensures v.username == "" ==> ErrorsOf(v).username == Some("Username is required")
    ensures v.password == "" ==> ErrorsOf(v).password == Some("Password is required")
    ensures 0 < |v.password| < 6 ==> ErrorsOf(v).password == Some("Password must be at least 6 characters")
  {
    RequiredMinLength(v.password, "Password is required", 6, "Password must be at least 6 characters");
    assert FirstError(v.username, UsernameRules) == None <==> Passes(UsernameRules[0], v.username);
  }

  /** `location.state?.from?.pathname || '/'`. */
  function RedirectTarget(fromPath: Option<string>): (to: string)
    ensures to != ""
    ensures fromPath.Some? && fromPath.value != "" ==> to == fromPath.value
    ensures fromPath.None? ==> to == "/"
  {
    if fromPath.Some? && fromPath.value != "" then fromPath.value else "/"
  }

  class Page {
    var isLoading: bool
    var error: string
    var errors: LoginErrors

    constructor ()
      ensures !isLoading && error == "" && errors == LoginErrors(None, None)
    {
      isLoading := false;
      error := "";
      errors := LoginErrors(None, None);
    }

    /** The submit button is disabled while a sign-in is in flight. */
    predicate SubmitDisabled()
      reads this
    {
      isLoading
    }

    /** The start of onSubmit: loading, with the error cleared, so the button is disabled. */
    method BeginSubmit()
      modifies this
      ensures isLoading && error == "" && SubmitDisabled()
      ensures errors == old(errors)
    {
      isLoading := true;
      error := "";
    }

    /**
     * A submit: the field errors are shown; with none, the context signs in
     * (reading the answer under the server's names) and the page navigates
     * to the redirect target only when that returned true. Loading is false
     * afterwards; an invalid form touches nothing else.
     */
    method Submit(v: LoginValues, fromPath: Option<string>, context: Provider, session: Session,
                  login: (string, string) -> Option<JsObject>)
      returns (navigateTo: Option<string>)
      modifies this, context, session
      ensures errors == ErrorsOf(v)
      ensures !IsSubmittable(v) ==>
        navigateTo == None && isLoading == old(isLoading) && error == old(error)
        && unchanged(context) && unchanged(session)
      ensures IsSubmittable(v) ==>
        var answer := login(v.username, v.password);
        navigateTo == (if answer.Some? then Some(RedirectTarget(fromPath)) else None)
        && !isLoading && error == ""
        && context.user == (if answer.Some? then Some(SessionUserOf(answer.value)) else old(context.user))
        && session.storage == (if answer.Some? then Stored(old(session.storage), answer.value) else old(session.storage))
        && !context.loading
    {
      errors := ErrorsOf(v);
      if errors != LoginErrors(None, None) {
        return None;
      }
      BeginSubmit();
      var success := context.Login(session, login(v.username, v.password));
      navigateTo := if success then Some(RedirectTarget(fromPath)) else None;
      isLoading := false;
    }
  }
}
