/** The generic form engine (`useForm` of src/hooks/useForm.ts) as an
    immutable record with pure transitions. Field values and messages are
    strings keyed by field name; an absent key is an `undefined` entry.
    The optional validator and the initial values `reset` restores are
    parameters, since the hook reads both from the current render's
    options; the async `handleSubmit` is split into `BeginSubmit` (up to the await of `onSubmit`) and
    `EndSubmit` (its `finally`), with the payload handed to `onSubmit`
    returned from the first step. */
module UseForm {
  import opened Types

  type Values = map<string, string>
  type Errors = map<string, string>
  type Validator = Values -> Errors

  /** The hook's three pieces of state. */
  datatype Form = Form(values: Values, errors: Errors, isSubmitting: bool)

  /** What `handleSubmit` does before any await: either validation fails
      and the form records the errors, or `onSubmit` is started with
      `payload`. */
  datatype SubmitStep = Rejected(form: Form) | Submitting(form: Form, payload: Values)

  /** `m1` and `m2` agree on key `k`: both lack it or both map it to the
      same value. */
  predicate SameOn(m1: map<string, string>, m2: map<string, string>, k: string) {
    && (k in m1 <==> k in m2)
    && (k in m1 ==> m1[k] == m2[k])
  }

  /** `errors[name]` is truthy: present and non-empty. */
  predicate ErrorShown(errors: Errors, name: string) {
    name in errors && errors[name] != ""
  }

  /** The state on the first render: the initial values of that render,
      no errors, not submitting. */
  function Create(initialValues: Values): (f: Form)
    ensures f.values == initialValues
    ensures |f.errors| == 0 && !f.isSubmitting
  {
    Form(initialValues, map[], false)
  }

  /** A change event on field `name`: sets that field's value and, when
      the field shows an error, clears it. Every other field's value and
      error is as before. */
  function HandleChange(f: Form, name: string, value: string): (r: Form)
    ensures r.isSubmitting == f.isSubmitting
    ensures name in r.values && r.values[name] == value
    ensures forall k :: k != name ==> SameOn(r.values, f.values, k)
    ensures !ErrorShown(r.errors, name)
    ensures ErrorShown(f.errors, name) ==> name !in r.errors
    ensures !ErrorShown(f.errors, name) ==> r.errors == f.errors
    ensures forall k :: k != name ==> SameOn(r.errors, f.errors, k)
  {
    var errors := if ErrorShown(f.errors, name) then f.errors - {name} else f.errors;
    f.(values := f.values[name := value], errors := errors)
  }

  /** `setFieldValue(field, value)`: sets one value and nothing else; in
      particular a shown error on that field stays. */
  function SetFieldValue(f: Form, field: string, value: string): (r: Form)
    ensures field in r.values && r.values[field] == value
    ensures forall k :: k != field ==> SameOn(r.values, f.values, k)
    ensures r.errors == f.errors && r.isSubmitting == f.isSubmitting
  {
    f.(values := f.values[field := value])
  }

  /** `handleSubmit`, up to the await. With a validator whose result has
      at least one key, the errors are replaced by that result and
      nothing is submitted; otherwise the form enters the submitting
      state and `onSubmit` receives exactly the current values, with the
      errors left as they were. Values never change here. */
  function BeginSubmit(f: Form, validate: Option<Validator>): (r: SubmitStep)
    ensures r.Rejected? <==> validate.Some? && |validate.value(f.values)| > 0
    ensures r.Rejected? ==> r.form.errors == validate.value(f.values) && r.form.isSubmitting == f.isSubmitting
    ensures r.Submitting? ==> r.payload == f.values && r.form.isSubmitting && r.form.errors == f.errors
    ensures r.form.values == f.values
  {
    match validate
    case Some(v) =>
      var validationErrors := v(f.values);
      if |validationErrors| > 0 then Rejected(f.(errors := validationErrors))
      else Submitting(f.(isSubmitting := true), f.values)
    case None =>
      Submitting(f.(isSubmitting := true), f.values)
  }

  /** The `finally` of `handleSubmit`: whether `onSubmit` resolved or
      rejected, the form leaves the submitting state and nothing else
      changes; the outcome passes through unconverted. */
  function EndSubmit(f: Form, outcome: Outcome<string>): (r: (Form, Outcome<string>))
    ensures !r.0.isSubmitting
    ensures r.0.values == f.values && r.0.errors == f.errors
    ensures r.1 == outcome
  {
    (f.(isSubmitting := false), outcome)
  }

  /** `reset()`: values back to `initialValues`, the initial values the
      caller passes on the render whose `reset` is called (not necessarily
      those of the first render); no errors; the submitting flag is not
      touched. */
  function Reset(f: Form, initialValues: Values): (r: Form)
    ensures r.values == initialValues && |r.errors| == 0
    ensures r.isSubmitting == f.isSubmitting
  {
    f.(values := initialValues, errors := map[])
  }

  /** A submission that passes validation goes false -> true -> false
      around `onSubmit`, however `onSubmit` settles, and comes back with
      the values and errors it started with. */
  lemma SubmitCycle(f: Form, validate: Option<Validator>, outcome: Outcome<string>)
    requires !f.isSubmitting
    requires validate.None? || |validate.value(f.values)| == 0
    ensures BeginSubmit(f, validate).Submitting?
    ensures BeginSubmit(f, validate).form.isSubmitting
    ensures var after := EndSubmit(BeginSubmit(f, validate).form, outcome).0;
      after == f
  {
  }

  /** A user-visible event on the form. */
  datatype Event =
    | Change(name: string, value: string)
    | SetField(name: string, value: string)
    | ResetForm(initialValues: Values)
    | Submit(validate: Option<Validator>)
    | Settle(outcome: Outcome<string>)

  /** The effect of one event. */
  function Step(f: Form, e: Event): Form {
    match e
    case Change(n, v) => HandleChange(f, n, v)
    case SetField(n, v) => SetFieldValue(f, n, v)
    case ResetForm(initialValues) => Reset(f, initialValues)
    case Submit(validate) => BeginSubmit(f, validate).form
    case Settle(outcome) => EndSubmit(f, outcome).0
  }

  /** The effect of a sequence of events, oldest first. */
  function Run(f: Form, events: seq<Event>): Form
    decreases |events|
  {
    if events == [] then f
    else Step(Run(f, events[..|events| - 1]), events[|events| - 1])
  }

  /** Where a field's current value comes from, read off the event
      history alone: the last value written to it since the last reset,
      or the snapshot that reset restored when it came later, or the
      starting values when neither happened. */
  datatype Origin = Written(value: string) | ResetTo(snapshot: Values) | Untouched

  function LastWrite(events: seq<Event>, k: string): Origin
    decreases |events|
  {
    if events == [] then Untouched
    else
      var e := events[|events| - 1];
      if (e.Change? || e.SetField?) && e.name == k then Written(e.value)
      else if e.ResetForm? then ResetTo(e.initialValues)
      else LastWrite(events[..|events| - 1], k)
  }

  /** Every field holds what its history says: the last value given to it
      since the last reset, or its value in the snapshot of the last reset
      if that came after every write, or its starting value if it was
      never touched. No submission event changes a value. */
  lemma {:induction false} RunValues(f: Form, events: seq<Event>, k: string)
    ensures LastWrite(events, k).Written? ==>
      k in Run(f, events).values && Run(f, events).values[k] == LastWrite(events, k).value
    ensures LastWrite(events, k).ResetTo? ==>
      SameOn(Run(f, events).values, LastWrite(events, k).snapshot, k)
    ensures LastWrite(events, k).Untouched? ==> SameOn(Run(f, events).values, f.values, k)
    decreases |events|
  {
    if events != [] {
      RunValues(f, events[..|events| - 1], k);
    }
  }

  /** Every field in `keys` stays present: change and set events only add
      keys, and every reset in the history restores a snapshot holding all
      of `keys` (as a page whose initial values always have the same
      fields does). */
  predicate KeysKept(f: Form, keys: set<string>) {
    keys <= f.values.Keys
  }

  predicate ResetsCover(events: seq<Event>, keys: set<string>) {
    forall i :: 0 <= i < |events| && events[i].ResetForm? ==> keys <= events[i].initialValues.Keys
  }

  lemma {:induction false} RunKeepsKeys(f: Form, events: seq<Event>, keys: set<string>)
    requires KeysKept(f, keys)
    requires ResetsCover(events, keys)
    ensures KeysKept(Run(f, events), keys)
    decreases |events|
  {
    if events != [] {
      var prefix := events[..|events| - 1];
      assert ResetsCover(prefix, keys) by {
        forall i | 0 <= i < |prefix| && prefix[i].ResetForm?
          ensures keys <= prefix[i].initialValues.Keys
        {
          assert prefix[i] == events[i];
        }
      }
      RunKeepsKeys(f, prefix, keys);
      assert events[|events| - 1].ResetForm? ==> keys <= events[|events| - 1].initialValues.Keys;
    }
  }

  /** Read off the event history alone: since the last submit, field `k`
      was edited by a change event or the form was reset. */
  function ErrorClearedSinceSubmit(events: seq<Event>, k: string): bool
    decreases |events|
  {
    if events == [] then false
    else
      var e := events[|events| - 1];
      if (e.Change? && e.name == k) || e.ResetForm? then true
      else if e.Submit? then false
      else ErrorClearedSinceSubmit(events[..|events| - 1], k)
  }

  /** Errors only come from validation: once a field is edited by a change
      event (or the form is reset) no error shows on it until the next
      submit, whatever other fields are edited or set in between. */
  lemma {:induction false} RunErrorsStayCleared(f: Form, events: seq<Event>, k: string)
    requires ErrorClearedSinceSubmit(events, k)
    ensures !ErrorShown(Run(f, events).errors, k)
    decreases |events|
  {
    var e := events[|events| - 1];
    if !((e.Change? && e.name == k) || e.ResetForm?) {
      RunErrorsStayCleared(f, events[..|events| - 1], k);
    }
  }
}
