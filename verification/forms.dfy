/** What the forms share: a per-field error record, where a field may hold at most one
    message, and the edit handler that blanks an edited field's message. */
module Forms {

  /** The error record `errors`: field name to message. A key may be present with `""`
      after an edit. */
  type Errors<F> = map<F, string>

  /** `Object.keys(errors).length === 0` on a freshly validated record. */
  predicate NoErrors<F>(errs: Errors<F>) {
    errs.Keys == {}
  }

  /** The field currently shows a message (`errors[name]` is truthy). */
  predicate Shows<F>(errs: Errors<F>, f: F) {
    f in errs && |errs[f]| > 0
  }

  /** `if (errors[name]) setErrors({...errors, [name]: ''})`: the edited field stops
      showing its message and no other field's entry changes. */
  function ClearError<F(!new)>(errs: Errors<F>, f: F): (r: Errors<F>)
    ensures !Shows(r, f)
    ensures forall g :: g != f ==> (g in r <==> g in errs) && (g in r ==> r[g] == errs[g])
    ensures !Shows(errs, f) ==> r == errs
  {
    if Shows(errs, f) then errs[f := ""] else errs
  }
}

/** The login form (`src/components/Auth/LoginForm.jsx`). */
module LoginForm {
  import opened Optional
  import opened Text
  import opened Forms
  import opened Session
  import AuthService
  import AuthContext

  datatype Field = Username | Password

  const UsernameRequired: string := "El username es requerido"
  const PasswordRequired: string := "La contraseña es requerida"
  const DashboardPath: string := "/dashboard"

  /** The form's state: both inputs, the error record, the unverified-email notice and the
      email a verification mail would be resent to. */
  datatype Form = Form(username: string, password: string, errors: Errors<Field>,
                       needsVerification: bool, email: string)

  const Empty: Form := Form("", "", map[], false, "")

  /** `validateForm`: a username that is blank after trimming and an empty password each
      get their message; nothing else is checked. */
  function Validate(username: string, password: string): (errs: Errors<Field>)
    ensures Username in errs <==> IsBlank(username)
    ensures Password in errs <==> |password| == 0
    ensures Username in errs ==> errs[Username] == UsernameRequired
    ensures Password in errs ==> errs[Password] == PasswordRequired
    ensures NoErrors(errs) <==> !IsBlank(username) && |password| > 0
  {
    var u: Errors<Field> := if IsBlank(username) then map[Username := UsernameRequired] else map[];
    var r := if |password| == 0 then u[Password := PasswordRequired] else u;
    assert Username in r ==> Username in r.Keys;
    assert Password in r ==> Password in r.Keys;
    r
  }

  /** `handleChange`: the edited input takes the new value, its message is blanked, the
      other field's message stays, and the unverified-email notice always goes away. */
  function Change(form: Form, f: Field, v: string): (r: Form)
    ensures f == Username ==> r.username == v && r.password == form.password
    ensures f == Password ==> r.password == v && r.username == form.username
    ensures !Shows(r.errors, f)
    ensures forall g :: g != f ==> (g in r.errors <==> g in form.errors) && (g in r.errors ==> r.errors[g] == form.errors[g])
    ensures !r.needsVerification && r.email == form.email
  {
    var edited := if f == Username then form.(username := v) else form.(password := v);
    edited.(errors := ClearError(form.errors, f), needsVerification := false)
  }

  /** What a submission leaves: the form, the context and storage after the context's
      `login` (unchanged when it was not called), whether `login` was called, and where the
      page navigated. */
  datatype Submission = Submission(form: Form, ctx: AuthContext.Ctx, storage: Storage,
                                   loginCalled: bool, navigateTo: Option<string>)

  /** `handleSubmit`: an invalid form stops before `login`; a successful login goes to the
      dashboard; a failure whose body says the email is unverified shows the notice with
      the body's email (or `""`); any other failure changes nothing in the form. */
  function Submit(form: Form, ctx: AuthContext.Ctx, st: Storage,
                  call: AuthService.Call<AuthService.SessionData>): (s: Submission)
    ensures s.form.errors == Validate(form.username, form.password)
    ensures s.loginCalled <==> NoErrors(Validate(form.username, form.password))
    ensures !s.loginCalled ==>
      s.ctx == ctx && s.storage == st && s.navigateTo == None && s.form.needsVerification == form.needsVerification
    ensures s.navigateTo.Some? <==> s.loginCalled && call.Ok?
    ensures s.navigateTo.Some? ==> s.navigateTo.value == DashboardPath
    ensures s.form.needsVerification != form.needsVerification ==> s.loginCalled && call.Fail?
    ensures s.loginCalled && call.Fail? && call.body.Some? && call.body.value.needsVerification ==>
      s.form.needsVerification && s.form.email == call.body.value.email.GetOr("")
  {
    var errs := Validate(form.username, form.password);
    var checked := form.(errors := errs);
    if !NoErrors(errs) then Submission(checked, ctx, st, false, None)
    else
      var step := AuthContext.Login(ctx, st, call);
      match step.outcome
      case Done(_) => Submission(checked, step.ctx, step.storage, true, Some(DashboardPath))
      case Thrown(e) =>
        if e.needsVerification then
          Submission(checked.(needsVerification := true, email := e.email.GetOr("")), step.ctx, step.storage, true, None)
        else Submission(checked, step.ctx, step.storage, true, None)
  }

  /** `handleResendVerification`: the address the mail is resent to, or none when no
      email is known. */
  function Resend(form: Form): (to: Option<string>)
    ensures to.Some? <==> |form.email| > 0
    ensures to.Some? ==> to.value == form.email
  {
    if |form.email| == 0 then None else Some(form.email)
  }

  /** An unverified account with a known email: submitting a valid form leaves the user
      signed out, shows the notice, and the resend goes to that email. */
  lemma UnverifiedAccountCanResend(form: Form, ctx: AuthContext.Ctx, st: Storage, body: AuthService.ErrorBody)
    requires !IsBlank(form.username) && |form.password| > 0
    requires body.needsVerification && body.email.Some? && |body.email.value| > 0
    ensures var s := Submit(form, ctx, st, AuthService.Fail(Some(body)));
      && s.form.needsVerification
      && Resend(s.form) == body.email
      && s.storage == st && s.ctx == ctx
      && s.navigateTo == None
  {
  }

  /** Once the user edits a field after that failure, the notice is gone again. */
  lemma EditHidesNotice(form: Form, f: Field, v: string)
    ensures !Change(form, f, v).needsVerification
    ensures Resend(Change(form, f, v)) == Resend(form)
  {
  }
}
