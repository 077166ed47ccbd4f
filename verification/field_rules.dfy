/** The per-field checks the login and contact validators have in common,
    each yielding the message to show or `None` when the field passes,
    and the step that collects them into a sparse error map. The email
    check `isValidEmail` lives outside this model, so it is a parameter. */
module FieldRules {
  import opened Types
  import JsStrings

  const EmailRequired: string := "Email is required"
  const EmailInvalid: string := "Please enter a valid email"

  /** `if (!value.trim()) errors[key] = message`. The test is written as
      "all whitespace", which `RequiredIsTrimCheck` shows is the same as
      the trimmed value being empty; deciding it that way keeps `Trim` out
      of the validators' proofs. */
  function Required(value: string, message: string): (r: Option<string>)
    ensures r.Some? <==> JsStrings.Blank(value)
    ensures r.Some? ==> r.value == message
  {
    if JsStrings.Blank(value) then Some(message) else None
  }

  /** `Required` fails exactly when `value.trim()` is the empty string. */
  lemma RequiredIsTrimCheck(value: string, message: string)
    ensures Required(value, message).Some? <==> JsStrings.Trim(value) == ""
    ensures Required(value, message) == if JsStrings.Trim(value) == "" then Some(message) else None
  {
    JsStrings.TrimEmptyIffBlank(value);
  }

  /** The two-step email check: required first, then well-formed. */
  function Email(email: string, isValidEmail: string -> bool): (r: Option<string>)
    ensures JsStrings.Blank(email) ==> r == Some(EmailRequired)
    ensures !JsStrings.Blank(email) && !isValidEmail(email) ==> r == Some(EmailInvalid)
    ensures r.None? <==> !JsStrings.Blank(email) && isValidEmail(email)
  {
    match Required(email, EmailRequired)
    case Some(m) => Some(m)
    case None => if !isValidEmail(email) then Some(EmailInvalid) else None
  }

  /** Adds `key: message` to `errors` when the check failed. */
  function Record(errors: map<string, string>, key: string, check: Option<string>): (r: map<string, string>)
    ensures check.Some? ==> key in r && r[key] == check.value
    ensures check.None? ==> r == errors
    ensures r.Keys <= errors.Keys + {key}
    ensures forall k :: k != key && k in errors ==> k in r && r[k] == errors[k]
  {
    match check
    case Some(m) => errors[key := m]
    case None => errors
  }

  /** Reads a field of the form values; a missing field reads as "" (the
      page forms never lose a field, see `UseForm.RunKeepsKeys`). */
  function Field(values: map<string, string>, key: string): string {
    if key in values then values[key] else ""
  }
}
