/** The logic of the contact page (src/pages/Contact/ContactPage.tsx): its
    validator and what its submit callback does with the service outcome.
    The service call itself (a delay and a log line) is left out; its
    settled result is an input. */
module ContactPage {
  import opened Types
  import JsStrings
  import FieldRules
  import UseForm

  datatype SubmitStatus = Idle | Success | Error

  /** The page state beyond the form engine: the status banner. */
  datatype Page = Page(form: UseForm.Form, status: SubmitStatus, statusMessage: string)

  const NameKey: string := "name"
  const EmailKey: string := "email"
  const SubjectKey: string := "subject"
  const MessageKey: string := "message"

  const NameRequired: string := "Name is required"
  const SubjectRequired: string := "Subject is required"
  const MessageRequired: string := "Message is required"
  const MessageTooShort: string := "Message must be at least 10 characters"
  const MinMessageLength: nat := 10

  const DefaultSuccessMessage: string := "Message sent successfully!"
  const FailureMessage: string := "Failed to send message. Please try again."

  /** Four empty fields. */
  function InitialValues(): (v: UseForm.Values)
    ensures v.Keys == {NameKey, EmailKey, SubjectKey, MessageKey}
    ensures forall k :: k in v ==> v[k] == ""
  {
    map[NameKey := "", EmailKey := "", SubjectKey := "", MessageKey := ""]
  }

  function FormData(values: UseForm.Values): ContactFormData {
    ContactFormData(
      FieldRules.Field(values, NameKey), FieldRules.Field(values, EmailKey),
      FieldRules.Field(values, SubjectKey), FieldRules.Field(values, MessageKey))
  }

  /** The message check: required after trimming, then at least ten UTF-16
      code units counted on the untrimmed text. */
  function MessageCheck(message: string): (r: Option<string>)
    ensures JsStrings.Blank(message) ==> r == Some(MessageRequired)
    ensures !JsStrings.Blank(message) && JsStrings.Utf16Length(message) < MinMessageLength
      ==> r == Some(MessageTooShort)
    ensures r.None? <==> !JsStrings.Blank(message) && JsStrings.Utf16Length(message) >= MinMessageLength
  {
    match FieldRules.Required(message, MessageRequired)
    case Some(m) => Some(m)
    case None => if JsStrings.Utf16Length(message) < MinMessageLength then Some(MessageTooShort) else None
  }

  /** Every field passes its rules. */
  predicate AllValid(d: ContactFormData, isValidEmail: string -> bool) {
    && !JsStrings.Blank(d.name)
    && !JsStrings.Blank(d.email) && isValidEmail(d.email)
    && !JsStrings.Blank(d.subject)
    && !JsStrings.Blank(d.message) && JsStrings.Utf16Length(d.message) >= MinMessageLength
  }

  /** The page's `validate`: one key per failing field, with that field's
      first failing rule's message. */
  function Validate(d: ContactFormData, isValidEmail: string -> bool): (errors: UseForm.Errors)
    ensures errors.Keys <= {NameKey, EmailKey, SubjectKey, MessageKey}
    ensures NameKey in errors <==> JsStrings.Blank(d.name)
    ensures NameKey in errors ==> errors[NameKey] == NameRequired
    ensures EmailKey !in errors <==> !JsStrings.Blank(d.email) && isValidEmail(d.email)
    ensures JsStrings.Blank(d.email) ==> errors[EmailKey] == FieldRules.EmailRequired
    ensures !JsStrings.Blank(d.email) && !isValidEmail(d.email) ==> errors[EmailKey] == FieldRules.EmailInvalid
    ensures SubjectKey in errors <==> JsStrings.Blank(d.subject)
    ensures SubjectKey in errors ==> errors[SubjectKey] == SubjectRequired
    ensures MessageKey !in errors
      <==> !JsStrings.Blank(d.message) && JsStrings.Utf16Length(d.message) >= MinMessageLength
    ensures JsStrings.Blank(d.message) ==> errors[MessageKey] == MessageRequired
    ensures !JsStrings.Blank(d.message) && JsStrings.Utf16Length(d.message) < MinMessageLength
      ==> errors[MessageKey] == MessageTooShort
  {
    KeysDistinct();
    var e1 := FieldRules.Record(map[], NameKey, FieldRules.Required(d.name, NameRequired));
    var e2 := FieldRules.Record(e1, EmailKey, FieldRules.Email(d.email, isValidEmail));
    var e3 := FieldRules.Record(e2, SubjectKey, FieldRules.Required(d.subject, SubjectRequired));
    FieldRules.Record(e3, MessageKey, MessageCheck(d.message))
  }

  /** The four keys differ (in their first letter). */
  lemma KeysDistinct()
    ensures NameKey != EmailKey && NameKey != SubjectKey && NameKey != MessageKey
    ensures EmailKey != SubjectKey && EmailKey != MessageKey && SubjectKey != MessageKey
  {
    assert NameKey[0] == 'n' && EmailKey[0] == 'e' && SubjectKey[0] == 's' && MessageKey[0] == 'm';
  }

  /** The validator handed to the form engine. */
  function Validator(isValidEmail: string -> bool): UseForm.Validator {
    values => Validate(FormData(values), isValidEmail)
  }

  /** The map is empty exactly when every field is valid, so a fully
      valid record proceeds to submission. */
  lemma ValidateEmptyIff(d: ContactFormData, isValidEmail: string -> bool)
    ensures |Validate(d, isValidEmail)| == 0 <==> AllValid(d, isValidEmail)
  {
  }

  /** The page as first rendered. */
  function Initial(): (p: Page)
    ensures p.form == UseForm.Create(InitialValues()) && p.status == Idle && p.statusMessage == ""
  {
    Page(UseForm.Create(InitialValues()), Idle, "")
  }

  /** The submit callback once the service has settled. A successful
      response shows its message (or the default) and resets the form; an
      unsuccessful response or a thrown error shows the failure banner and
      keeps what was typed. The page passes the same four empty fields as
      initial values on every render, so the reset empties the form. The
      callback never rejects, so the form
      engine always sees it resolve. */
  function OnSubmitSettled(p: Page, result: Settled<string>): (r: Page)
    ensures result.Responded? && result.response.success ==>
      && r.status == Success
      && r.statusMessage == OrElse(result.response.message, DefaultSuccessMessage)
      && r.form == UseForm.Reset(p.form, InitialValues())
    ensures !(result.Responded? && result.response.success) ==>
      r.status == Error && r.statusMessage == FailureMessage && r.form == p.form
    ensures r.form.values == p.form.values || r.form.values == InitialValues()
    ensures r.form.isSubmitting == p.form.isSubmitting
  {
    match result
    case Responded(response) =>
      if response.success then
        Page(UseForm.Reset(p.form, InitialValues()), Success, OrElse(response.message, DefaultSuccessMessage))
      else
        p.(status := Error, statusMessage := FailureMessage)
    case Threw(_) =>
      p.(status := Error, statusMessage := FailureMessage)
  }
}
