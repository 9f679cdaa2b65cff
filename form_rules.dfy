/**
 * The field rules of the client's forms as react-hook-form applies them to
 * a text value: `required` rejects the empty string, `minLength` is checked
 * only on a non-empty value, `validate` compares with another field. A
 * field's error is the message of its first rule that fails, in the order
 * required, minLength, validate.
 */
module FormRules {
  import opened Wrappers

  datatype Rule =
    | Required(message: string)
    | MinLength(min: nat, message: string)
    | SameAs(other: string, message: string)

  predicate Passes(rule: Rule, value: string)
  {
    match rule
    case Required(_) => value != ""
    case MinLength(n, _) => value == "" || |value| >= n
    case SameAs(o, _) => value == o
  }

  /** The message shown under the field, None when every rule passes. */
  function FirstError(value: string, rules: seq<Rule>): (r: Option<string>)
    ensures r.None? <==> forall i :: 0 <= i < |rules| ==> Passes(rules[i], value)
    ensures r.Some? ==>
      exists i :: 0 <= i < |rules| && !Passes(rules[i], value) && rules[i].message == r.value
        && forall j :: 0 <= j < i ==> Passes(rules[j], value)
  {
    if rules == [] then None
    else if !Passes(rules[0], value) then Some(rules[0].message)
    else
      var rest := FirstError(value, rules[1..]);
      assert forall i :: 1 <= i < |rules| ==> rules[i] == rules[1..][i - 1];
      rest
  }

  /** A required field with a minimum length accepts exactly the values at least that long. */
  lemma {:induction false} RequiredMinLength(value: string, required: string, n: nat, tooShort: string)
    requires n >= 1
    ensures FirstError(value, [Required(required), MinLength(n, tooShort)]) == None <==> |value| >= n
    ensures value == "" ==> FirstError(value, [Required(required), MinLength(n, tooShort)]) == Some(required)
    ensures 0 < |value| < n ==> FirstError(value, [Required(required), MinLength(n, tooShort)]) == Some(tooShort)
  {
    var rules := [Required(required), MinLength(n, tooShort)];
    if value != "" && |value| < n {
      assert !Passes(rules[1], value);
    }
  }
}
