// The signup form: its client-side validation, the clearing of a field's
// error on edit, and the gate in front of the signup request.

module SignupForm {
  import opened Wrappers
  import opened Text
  import Users

  /** The inputs of the form, each named as its `name` attribute. */
  datatype Field = NameField | EmailField | ContactField | PasswordField | ConfirmField | RoleField

  datatype FormData = FormData(
    name: string,
    email: string,
    contactNumber: string,
    password: string,
    confirmPassword: string,
    role: string)

  const EmptyForm := FormData("", "", "", "", "", "user")

  const NameRequired := "Name is required"
  const EmailRequired := "Email is required"
  const EmailInvalid := "Please enter a valid email"
  const ContactRequired := "Contact number is required"
  const ContactInvalid := "Please enter a valid 10-digit contact number"
  const PasswordRequired := "Password is required"
  const PasswordShort := "Password must be at least 6 characters"
  const ConfirmRequired := "Please confirm your password"
  const PasswordsDiffer := "Passwords do not match"

  const MinPasswordLength := 6

  function Value(f: FormData, field: Field): string {
    match field
    case NameField => f.name
    case EmailField => f.email
    case ContactField => f.contactNumber
    case PasswordField => f.password
    case ConfirmField => f.confirmPassword
    case RoleField => f.role
  }

  /** `{...formData, [name]: value}`. */
  function SetValue(f: FormData, field: Field, v: string): (g: FormData)
    ensures Value(g, field) == v
    ensures forall other :: other != field ==> Value(g, other) == Value(f, other)
  {
    match field
    case NameField => f.(name := v)
    case EmailField => f.(email := v)
    case ContactField => f.(contactNumber := v)
    case PasswordField => f.(password := v)
    case ConfirmField => f.(confirmPassword := v)
    case RoleField => f.(role := v)
  }

  // ---------------------------------------------------------------------------
  // The rules, one per field; None means the field passes

  function NameError(f: FormData): Option<string> {
    if Trim(f.name) == [] then Some(NameRequired) else None
  }

  /** Blank is checked on the trimmed value, the pattern on the value as typed. */
  function EmailError(f: FormData): Option<string> {
    if Trim(f.email) == [] then Some(EmailRequired)
    else if !IsAccountEmail(f.email) then Some(EmailInvalid)
    else None
  }

  function ContactError(f: FormData): Option<string> {
    if Trim(f.contactNumber) == [] then Some(ContactRequired)
    else if !IsTenDigits(f.contactNumber) then Some(ContactInvalid)
    else None
  }

  function PasswordError(f: FormData): Option<string> {
    if f.password == [] then Some(PasswordRequired)
    else if |f.password| < MinPasswordLength then Some(PasswordShort)
    else None
  }

  function ConfirmError(f: FormData): Option<string> {
    if f.confirmPassword == [] then Some(ConfirmRequired)
    else if f.password != f.confirmPassword then Some(PasswordsDiffer)
    else None
  }

  /** The rule of one field; the role has none. */
  function FieldError(f: FormData, field: Field): Option<string> {
    match field
    case NameField => NameError(f)
    case EmailField => EmailError(f)
    case ContactField => ContactError(f)
    case PasswordField => PasswordError(f)
    case ConfirmField => ConfirmError(f)
    case RoleField => None
  }

  const AllFields: set<Field> := {NameField, EmailField, ContactField, PasswordField, ConfirmField, RoleField}

  /**
   * `validateForm`: fills the error map field by field. A field has an entry
   * exactly when its rule fails, and the entry is that rule's message; the
   * role has no rule. `ValidateFormRules` spells the rules out.
   */
  function ValidateForm(f: FormData): (errors: map<Field, string>)
    ensures forall field :: field in errors <==> FieldError(f, field).Some?
    ensures forall field | field in errors :: errors[field] == FieldError(f, field).value
    ensures RoleField !in errors
  {
    map field | field in AllFields && FieldError(f, field).Some? :: FieldError(f, field).value
  }

  /** The rule of each field, and the message it leaves in the error map. */
  lemma ValidateFormRules(f: FormData)
    ensures NameField in ValidateForm(f) <==> Trim(f.name) == []
    ensures EmailField in ValidateForm(f) <==> Trim(f.email) == [] || !IsAccountEmail(f.email)
    ensures ContactField in ValidateForm(f) <==> Trim(f.contactNumber) == [] || !IsTenDigits(f.contactNumber)
    ensures PasswordField in ValidateForm(f) <==> |f.password| < MinPasswordLength
    ensures ConfirmField in ValidateForm(f) <==> f.confirmPassword == [] || f.password != f.confirmPassword
    ensures NameField in ValidateForm(f) ==> ValidateForm(f)[NameField] == NameRequired
    ensures EmailField in ValidateForm(f) ==>
              ValidateForm(f)[EmailField] == (if Trim(f.email) == [] then EmailRequired else EmailInvalid)
    ensures ContactField in ValidateForm(f) ==>
              ValidateForm(f)[ContactField] == (if Trim(f.contactNumber) == [] then ContactRequired else ContactInvalid)
    ensures PasswordField in ValidateForm(f) ==>
              ValidateForm(f)[PasswordField] == (if f.password == [] then PasswordRequired else PasswordShort)
    ensures ConfirmField in ValidateForm(f) ==>
              ValidateForm(f)[ConfirmField] == (if f.confirmPassword == [] then ConfirmRequired else PasswordsDiffer)
  {
    var errors := ValidateForm(f);
    assert FieldError(f, NameField) == NameError(f);
    assert FieldError(f, EmailField) == EmailError(f);
    assert FieldError(f, ContactField) == ContactError(f);
    assert FieldError(f, PasswordField) == PasswordError(f);
    assert FieldError(f, ConfirmField) == ConfirmError(f);
  }

  /** The form's error state as the component keeps it: a field maps to its message, or to '' once cleared. */
  predicate Shown(errors: map<Field, string>, field: Field) {
    field in errors && errors[field] != []
  }

  /**
   * `handleChange`: the edited field takes the new value, and its error, if
   * one is shown, is cleared; every other value and error is kept.
   */
  function HandleChange(f: FormData, errors: map<Field, string>, field: Field, v: string)
    : (r: (FormData, map<Field, string>))
    ensures r.0 == SetValue(f, field, v)
    ensures !Shown(r.1, field)
    ensures forall other :: other != field ==> (other in r.1 <==> other in errors)
    ensures forall other :: other != field && other in errors ==> r.1[other] == errors[other]
  {
    (SetValue(f, field, v), if Shown(errors, field) then errors[field := []] else errors)
  }

  /** What a submission does: show the errors, or send these fields to the signup request. */
  datatype Submission =
    | ShowErrors(errors: map<Field, string>)
    | SendSignup(name: string, email: string, contactNumber: string, password: string, role: string)

  /**
   * `handleSubmit` (after it dispatches `clearError`): the request is sent
   * only when the error map is empty, with the values as typed.
   */
  function HandleSubmit(f: FormData): (s: Submission)
    ensures s.SendSignup? <==> ValidateForm(f) == map[]
    ensures s.ShowErrors? ==> s.errors == ValidateForm(f) && s.errors != map[]
    ensures s.SendSignup? ==> s == SendSignup(f.name, f.email, f.contactNumber, f.password, f.role)
  {
    var errors := ValidateForm(f);
    if errors != map[] then ShowErrors(errors)
    else SendSignup(f.name, f.email, f.contactNumber, f.password, f.role)
  }

  /**
   * A form that gets sent has a non-blank name, a ten-digit contact number, a
   * password the user schema accepts and a matching confirmation.
   */
  lemma {:induction false} SentFormPassesRules(f: FormData)
    requires HandleSubmit(f).SendSignup?
    ensures Trim(f.name) != [] && f.password == f.confirmPassword
    ensures Users.ValidContactNumber(f.contactNumber) && Users.ValidPassword(f.password)
  {
    ValidateFormRules(f);
    assert NameField !in ValidateForm(f);
    assert ContactField !in ValidateForm(f);
    assert PasswordField !in ValidateForm(f);
    assert ConfirmField !in ValidateForm(f);
  }

  /** A map with an entry for every field but the role has exactly those keys. */
  lemma {:induction false} KeysAllButRole(m: map<Field, string>)
    requires NameField in m && EmailField in m && ContactField in m && PasswordField in m && ConfirmField in m
    requires RoleField !in m
    ensures m.Keys == {NameField, EmailField, ContactField, PasswordField, ConfirmField}
  {
    forall field | field in m
      ensures field in {NameField, EmailField, ContactField, PasswordField, ConfirmField}
    {
      match field
      case NameField =>
      case EmailField =>
      case ContactField =>
      case PasswordField =>
      case ConfirmField =>
    }
  }

  /** The empty form is never sent: it has an error for every field but the role. */
  lemma EmptyFormBlocked()
    ensures HandleSubmit(EmptyForm).ShowErrors?
    ensures ValidateForm(EmptyForm).Keys == {NameField, EmailField, ContactField, PasswordField, ConfirmField}
  {
    var errors := ValidateForm(EmptyForm);
    ValidateFormRules(EmptyForm);
    assert Trim(EmptyForm.name) == [];
    assert NameField in errors;
    KeysAllButRole(errors);
  }
}
