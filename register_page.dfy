/**
 * The sign-up page: the field rules, the body sent to the register request
 * and the submit flow around the context's register. The request is a
 * parameter: given the body it yields the server's answer, or None when it
 * throws. As on the sign-in page, the context catches every failure, so the
 * page's own error message is never set.
 */
module RegisterPage {
  import opened Wrappers
  import opened JsValues
  import opened FormRules
  import opened AuthResponses
  import opened AuthService
  import opened AuthContext

  const UsernameRules := [Required("Username is required"), MinLength(3, "Username must be at least 3 characters")]
  const NameRules := [Required("Full name is required")]
  const AvailabilityRules := [Required("Availability is required")]
  const PasswordRules := [Required("Password is required"), MinLength(6, "Password must be at least 6 characters")]

  /** The confirmation is checked against the password as currently typed. */
  function ConfirmRules(password: string): seq<Rule>
  {
    [Required("Please confirm your password"), SameAs(password, "Passwords do not match")]
  }

  /** The values the availability select can take: the placeholder and the four choices. */
  const AvailabilityOptions: seq<string> := ["", "Weekdays", "Weekends", "Evenings", "Flexible"]

  /** The form's values; the optional location field may be missing. */
  datatype RegisterValues = RegisterValues(
    username: string, name: string, location: Option<string>, availability: string,
    password: string, confirmPassword: string)

  datatype RegisterErrors = RegisterErrors(
    username: Option<string>, name: Option<string>, availability: Option<string>,
    password: Option<string>, confirmPassword: Option<string>)

  const NoErrors := RegisterErrors(None, None, None, None, None)

  function ErrorsOf(v: RegisterValues): RegisterErrors
  {
    RegisterErrors(
      FirstError(v.username, UsernameRules), FirstError(v.name, NameRules),
      FirstError(v.availability, AvailabilityRules), FirstError(v.password, PasswordRules),
      FirstError(v.confirmPassword, ConfirmRules(v.password)))
  }

  predicate IsSubmittable(v: RegisterValues)
  {
    ErrorsOf(v) == NoErrors
  }

  /**
   * The form goes through exactly with a username of at least three
   * characters, a name, an availability, a password of at least six
   * characters and a confirmation equal to it.
   */
  lemma {:induction false} SubmittableIff(v: RegisterValues)
    ensures IsSubmittable(v) <==>
      (|v.username| >= 3 && v.name != "" && v.availability != ""
       && |v.password| >= 6 && v.confirmPassword == v.password)
    ensures v.confirmPassword != "" && v.confirmPassword != v.password ==>
      ErrorsOf(v).confirmPassword == Some("Passwords do not match")
  {
    RequiredMinLength(v.username, "Username is required", 3, "Username must be at least 3 characters");
    RequiredMinLength(v.password, "Password is required", 6, "Password must be at least 6 characters");
    assert FirstError(v.name, NameRules) == None <==> Passes(NameRules[0], v.name);
    assert FirstError(v.availability, AvailabilityRules) == None <==> Passes(AvailabilityRules[0], v.availability);
    var c := ConfirmRules(v.password);
    assert FirstError(v.confirmPassword, c) == None <==> Passes(c[0], v.confirmPassword) && Passes(c[1], v.confirmPassword);
  }

  /** From the select, an accepted availability is one of the four real choices. */
  lemma {:induction false} AvailabilityIsAChoice(v: RegisterValues)
    requires IsSubmittable(v) && v.availability in AvailabilityOptions
    ensures v.availability in ["Weekdays", "Weekends", "Evenings", "Flexible"]
  {
    SubmittableIff(v);
  }

  /** The body of the register request. */
  datatype RegisterPayload = RegisterPayload(
    username: string, password: string, name: string, location: string,
    profilePhoto: string, availability: string, isPublic: bool)

  /** The typed fields as entered; location '' when left out, no photo, and a public profile. */
  function PayloadOf(v: RegisterValues): (p: RegisterPayload)
    ensures p.username == v.username && p.password == v.password && p.name == v.name
    ensures p.availability == v.availability
    ensures p.location == (if v.location.Some? then v.location.value else "")
    ensures p.profilePhoto == "" && p.isPublic
  {
    RegisterPayload(v.username, v.password, v.name, v.location.GetOr(""), "", v.availability, true)
  }

  class Page {
    var isLoading: bool
    var error: string
    var errors: RegisterErrors

    constructor ()
      ensures !isLoading && error == "" && errors == NoErrors
    {
      isLoading := false;
      error := "";
      errors := NoErrors;
    }

    /**
     * A submit: the field errors are shown; with none, the payload is sent
     * through the context's register (which reads the answer under the
     * server's names), and the page navigates home only when
     * that returned true. Loading is false afterwards; an invalid form sends
     * nothing and touches nothing else.
     */
    method Submit(v: RegisterValues, context: Provider, session: Session,
                  register: RegisterPayload -> Option<JsObject>)
      returns (sent: Option<RegisterPayload>, navigateTo: Option<string>)
      modifies this, context, session
      ensures errors == ErrorsOf(v)
      ensures !IsSubmittable(v) ==>
        sent == None && navigateTo == None && isLoading == old(isLoading) && error == old(error)
        && unchanged(context) && unchanged(session)
      ensures IsSubmittable(v) ==>
        var answer := register(PayloadOf(v));
        sent == Some(PayloadOf(v))
        && navigateTo == (if answer.Some? then Some("/") else None)
        && !isLoading && error == ""
        && context.user == (if answer.Some? then Some(SessionUserOf(answer.value)) else old(context.user))
        && session.storage == (if answer.Some? then Stored(old(session.storage), answer.value) else old(session.storage))
        && !context.loading
    {
      errors := ErrorsOf(v);
      if errors != NoErrors {
        return None, None;
      }
      isLoading := true;
      error := "";
      var payload := RegisterPayload(v.username, v.password, v.name, v.location.GetOr(""), "", v.availability, true);
      sent := Some(payload);
      var success := context.Register(session, register(payload));
      navigateTo := if success then Some("/") else None;
      isLoading := false;
    }
  }
}
