/** The Register page: field edits, the two password rules checked in order
    before any request, and what a submit sends and shows. */
module Register {
  import opened Base
  import opened Text

  const MISMATCH: string := "Passwords do not match"
  const TOO_SHORT: string := "Password must be at least 6 characters"
  const REGISTER_FAILED: string := "Registration failed. Please try again."
  const MIN_PASSWORD_LENGTH: nat := 6
  const LOGIN_ROUTE: string := "/login"

  datatype RegisterForm = RegisterForm(name: string, email: string, password: string, confirmPassword: string)

  /** The `name` attributes of the form's inputs. */
  datatype RegisterField = Name | Email | Password | ConfirmPassword

  function Get(f: RegisterForm, field: RegisterField): string {
    match field
    case Name => f.name
    case Email => f.email
    case Password => f.password
    case ConfirmPassword => f.confirmPassword
  }

  /** `handleChange`: `setFormData({ ...formData, [e.target.name]: e.target.value })`. */
  function Edit(f: RegisterForm, field: RegisterField, value: string): (r: RegisterForm)
    ensures Get(r, field) == value
    ensures forall other :: other != field ==> Get(r, other) == Get(f, other)
  {
    match field
    case Name => f.(name := value)
    case Email => f.(email := value)
    case Password => f.(password := value)
    case ConfirmPassword => f.(confirmPassword := value)
  }

  /** The first rule the form breaks: the confirmation must equal the password,
      then the password must be at least 6 UTF-16 code units long. */
  function Validate(f: RegisterForm): (e: Option<string>)
    ensures f.password != f.confirmPassword ==> e == Some(MISMATCH)
    ensures f.password == f.confirmPassword && Utf16Length(f.password) < MIN_PASSWORD_LENGTH ==> e == Some(TOO_SHORT)
    ensures e.None? <==> f.password == f.confirmPassword && Utf16Length(f.password) >= MIN_PASSWORD_LENGTH
  {
    if f.password != f.confirmPassword then Some(MISMATCH)
    else if Utf16Length(f.password) < MIN_PASSWORD_LENGTH then Some(TOO_SHORT)
    else None
  }

  /** The body posted to the register endpoint: the confirmation is not part of it. */
  datatype Registration = Registration(name: string, email: string, password: string)

  datatype RegisterView = RegisterView(form: RegisterForm, error: string, loading: bool)

  /** What one submit does: the registration posted (if any), the page state
      afterwards, and the route navigated to (if any). */
  datatype SubmitEffect = SubmitEffect(sent: Option<Registration>, after: RegisterView, navigateTo: Option<string>)

  /** `handleSubmit`, given how the register call settles. The error is
      cleared first; a broken rule sets its message and posts nothing; a valid
      form posts name, email and password, then navigates to the login page,
      or shows the server's message (or the fixed fallback) on failure. */
  function Submit(v: RegisterView, reply: Reply<()>): (e: SubmitEffect)
    ensures e.after.form == v.form
    ensures Validate(v.form).Some? ==>
      e == SubmitEffect(None, v.(error := Validate(v.form).value), None)
    ensures Validate(v.form).None? ==>
      && e.sent == Some(Registration(v.form.name, v.form.email, v.form.password))
      && !e.after.loading
    ensures Validate(v.form).None? && reply.Replied? ==>
      e.after.error == "" && e.navigateTo == Some(LOGIN_ROUTE)
    ensures Validate(v.form).None? && reply.Rejected? ==>
      && e.navigateTo.None?
      && (Truthy(reply.message) ==> e.after.error == reply.message.value)
      && (!Truthy(reply.message) ==> e.after.error == REGISTER_FAILED)
  {
    var cleared := v.(error := "");
    match Validate(v.form)
    case Some(message) => SubmitEffect(None, cleared.(error := message), None)
    case None =>
      var sent := Registration(v.form.name, v.form.email, v.form.password);
      match reply
      case Replied(_) => SubmitEffect(Some(sent), cleared.(loading := false), Some(LOGIN_ROUTE))
      case Rejected(m) =>
        SubmitEffect(Some(sent), cleared.(error := OrElse(m, REGISTER_FAILED), loading := false), None)
  }

  /** A short password that also differs from its confirmation is reported
      as a mismatch: that rule is checked first. */
  lemma MismatchReportedFirst(v: RegisterView, reply: Reply<()>)
    requires v.form.password != v.form.confirmPassword
    requires Utf16Length(v.form.password) < MIN_PASSWORD_LENGTH
    ensures Submit(v, reply).after.error == MISMATCH && Submit(v, reply).sent.None?
  {
  }

  /** Whatever error was showing before a submit has no bearing on its outcome. */
  lemma SubmitClearsError(v: RegisterView, stale: string, reply: Reply<()>)
    ensures Submit(v.(error := stale), reply) == Submit(v, reply)
  {
  }
}
