/** The create/edit task form: its initial values, field edits, and the
    submit guard with its loading flag. */
module TaskForm {
  import opened Base
  import opened Text

  const DEFAULT_PRIORITY: string := "MEDIUM"
  const DEFAULT_STATUS: string := "OPEN"

  /** The form's `formData` state. */
  datatype FormData = FormData(title: string, description: string, priority: string, status: string)

  /** The optional `initialData` prop; any of its fields may be missing. */
  datatype InitialData = InitialData(
    title: Option<string>,
    description: Option<string>,
    priority: Option<string>,
    status: Option<string>)

  /** The initial `formData`: each field is taken from `initialData` when it
      is truthy there, and otherwise falls back to its default. */
  function InitialForm(init: Option<InitialData>): (f: FormData)
    ensures init.None? ==> f == FormData("", "", DEFAULT_PRIORITY, DEFAULT_STATUS)
    ensures init.Some? ==>
      && (Truthy(init.value.title) ==> f.title == init.value.title.value)
      && (Truthy(init.value.description) ==> f.description == init.value.description.value)
      && (Truthy(init.value.priority) ==> f.priority == init.value.priority.value)
      && (Truthy(init.value.status) ==> f.status == init.value.status.value)
    ensures init.Some? && !Truthy(init.value.title) ==> f.title == ""
    ensures init.Some? && !Truthy(init.value.description) ==> f.description == ""
    ensures init.Some? && !Truthy(init.value.priority) ==> f.priority == DEFAULT_PRIORITY
    ensures init.Some? && !Truthy(init.value.status) ==> f.status == DEFAULT_STATUS
    ensures f.priority != "" && f.status != ""
  {
    match init
    case None => FormData("", "", DEFAULT_PRIORITY, DEFAULT_STATUS)
    case Some(d) =>
      FormData(
        OrElse(d.title, ""),
        OrElse(d.description, ""),
        OrElse(d.priority, DEFAULT_PRIORITY),
        OrElse(d.status, DEFAULT_STATUS))
  }

  /** A form seeded from the values it already holds comes back unchanged:
      blank title and description fall back to the blank default, and priority
      and status are never blank. */
  lemma InitialFormReproduces(f: FormData)
    requires f.priority != "" && f.status != ""
    ensures InitialForm(Some(InitialData(Some(f.title), Some(f.description), Some(f.priority), Some(f.status)))) == f
  {
  }

  // ---------------------------------------------------------------------------
  // Field edits

  datatype Field = Title | Description | Priority | Status

  function Get(f: FormData, field: Field): string {
    match field
    case Title => f.title
    case Description => f.description
    case Priority => f.priority
    case Status => f.status
  }

  /** `setFormData({ ...formData, [field]: value })` from an input's change handler. */
  function Edit(f: FormData, field: Field, value: string): (r: FormData)
    ensures Get(r, field) == value
    ensures forall other :: other != field ==> Get(r, other) == Get(f, other)
  {
    match field
    case Title => f.(title := value)
    case Description => f.(description := value)
    case Priority => f.(priority := value)
    case Status => f.(status := value)
  }

  /** Edits to different fields commute; a second edit of a field overrides the first. */
  lemma EditsCommute(f: FormData, a: Field, x: string, b: Field, y: string)
    ensures a != b ==> Edit(Edit(f, a, x), b, y) == Edit(Edit(f, b, y), a, x)
    ensures a == b ==> Edit(Edit(f, a, x), b, y) == Edit(f, b, y)
  {
  }

  // ---------------------------------------------------------------------------
  // Submit

  datatype FormState = FormState(data: FormData, loading: bool)

  /** How the `onSubmit` callback settles. */
  datatype Settled = Resolved | Threw

  /** What one submit does: the data handed to `onSubmit` (if it was called),
      the form state afterwards, and whether the callback's exception escaped. */
  datatype SubmitEffect = SubmitEffect(sent: Option<FormData>, after: FormState, rethrown: bool)

  /** `handleSubmit`: a title that trims to nothing stops the submit before
      anything happens; otherwise `onSubmit` gets the form data as held, and
      `loading` is back to false once it settles, by `finally`. */
  function Submit(st: FormState, callback: Settled): (e: SubmitEffect)
    ensures AllWhitespace(st.data.title) ==> e == SubmitEffect(None, st, false)
    ensures !AllWhitespace(st.data.title) ==>
      && e.sent == Some(st.data)
      && e.after == FormState(st.data, false)
      && (e.rethrown <==> callback == Threw)
  {
    TrimEmpty(st.data.title);
    if Trim(st.data.title) == "" then SubmitEffect(None, st, false)
    else SubmitEffect(Some(st.data), FormState(st.data, false), callback == Threw)
  }
}
