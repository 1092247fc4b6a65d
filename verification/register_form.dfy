/** The email pattern `^\S+@\S+\.\S+$` of the register form, stated by its meaning and
    decided by a scan. */
module EmailPattern {
  import opened Text

  predicate NoSpace(s: string) {
    forall k :: 0 <= k < |s| ==> !IsSpace(s[k])
  }

  /** `s[i]` is an `@` and `s[j]` a later `.` with at least one character between them,
      at least one before the `@` and at least one after the `.`. */
  predicate AtThenDot(s: string, i: int, j: int) {
    1 <= i && i + 2 <= j <= |s| - 2 && s[i] == '@' && s[j] == '.'
  }

  /** What the regular expression accepts: no white space anywhere, and the string splits
      as non-empty text, `@`, non-empty text, `.`, non-empty text (the three runs may
      themselves contain `@` and `.`, since `\S` matches them). */
  ghost predicate Matches(s: string) {
    NoSpace(s) && exists i, j :: AtThenDot(s, i, j)
  }

  /** The first index at or after `k` holding `c`, or `|s|` when there is none. */
  function FindFrom(s: string, c: char, k: nat): (r: nat)
    ensures r == |s| || (k <= r < |s| && s[r] == c)
    ensures forall m :: k <= m < r && m < |s| ==> s[m] != c
    decreases |s| - k
  {
    if k >= |s| then |s| else if s[k] == c then k else FindFrom(s, c, k + 1)
  }

  /** The last index before `k` holding `c`, or `-1` when there is none. */
  function FindLast(s: string, c: char, k: int): (r: int)
    requires k <= |s|
    ensures r == -1 || (0 <= r < k && s[r] == c)
    ensures forall m :: r < m < k && 0 <= m ==> s[m] != c
    decreases k
  {
    if k <= 0 then -1 else if s[k - 1] == c then k - 1 else FindLast(s, c, k - 1)
  }

  /** The test as a scan: the first `@` after the first character and the last `.`
      before the last character are at least two apart. */
  predicate Test(s: string) {
    NoSpace(s) && FindFrom(s, '@', 1) + 2 <= FindLast(s, '.', |s| - 1)
  }

  /** The scan accepts exactly the strings the pattern describes. */
  lemma TestIffMatches(s: string)
    ensures Test(s) <==> Matches(s)
  {
    var i := FindFrom(s, '@', 1);
    var j := FindLast(s, '.', |s| - 1);
    if Test(s) {
      assert AtThenDot(s, i, j);
    }
    if Matches(s) {
      var i', j' :| AtThenDot(s, i', j');
      assert i <= i';
      assert j' <= j;
    }
  }

  /** A matching address is never blank. */
  lemma MatchIsNotBlank(s: string)
    ensures Matches(s) ==> !IsBlank(s)
  {
    if Matches(s) {
      var i, j :| AtThenDot(s, i, j);
      assert !IsSpace(s[i]);
      assert !AllSpace(s);
    }
  }

  lemma Examples()
    ensures Matches("ana@mail.com")
    ensures !Matches("ana@mail")
    ensures !Matches("a na@mail.com")
    ensures !Matches("@mail.com")
  {
    assert AtThenDot("ana@mail.com", 3, 8);
    assert !IsSpace(' ') ==> false;
    assert " "[0] == ' ';
    assert "a na@mail.com"[1] == ' ';
    TestIffMatches("ana@mail");
    TestIffMatches("@mail.com");
  }
}

/** The registration form (`src/components/Auth/RegisterForm.jsx`). */
module RegisterForm {
  import opened Optional
  import opened Text
  import opened Forms
  import opened Session
  import EmailPattern
  import AuthService
  import AuthContext

  datatype Field = Username | Name | Email | Password | Confirm

  const UsernameRequired: string := "El username es requerido"
  const UsernameShort: string := "El username debe tener al menos 3 caracteres"
  const NameRequired: string := "El nombre es requerido"
  const EmailRequired: string := "El email es requerido"
  const EmailInvalid: string := "Email inválido"
  const PasswordRequired: string := "La contraseña es requerida"
  const PasswordShort: string := "La contraseña debe tener al menos 6 caracteres"
  const ConfirmRequired: string := "Debes confirmar la contraseña"
  const ConfirmMismatch: string := "Las contraseñas no coinciden"
  const LoginPath: string := "/login"

  datatype Form = Form(username: string, name: string, email: string, password: string, confirm: string,
                       errors: Errors<Field>, showSuccess: bool)

  const Empty: Form := Form("", "", "", "", "", map[], false)

  /** Blank after trimming is "required"; otherwise fewer than three UTF-16 code units,
      counted on the untrimmed input, is "too short". */
  function CheckUsername(u: string): (m: Option<string>)
    ensures m.None? <==> !IsBlank(u) && Utf16Length(u) >= 3
    ensures m == Some(UsernameRequired) <==> IsBlank(u)
    ensures m == Some(UsernameShort) <==> !IsBlank(u) && Utf16Length(u) < 3
  {
    if IsBlank(u) then Some(UsernameRequired) else if Utf16Length(u) < 3 then Some(UsernameShort) else None
  }

  /** Two emoji make four UTF-16 code units, so they pass the three-character minimum. */
  lemma TwoEmojiUsernameAccepted()
    ensures CheckUsername("\U{1F600}\U{1F600}") == None
  {
    assert Utf16Length("\U{1F600}\U{1F600}") == 4;
  }

  function CheckName(n: string): (m: Option<string>)
    ensures m.None? <==> !IsBlank(n)
    ensures m.Some? ==> m.value == NameRequired
  {
    if IsBlank(n) then Some(NameRequired) else None
  }

  /** Blank is "required"; otherwise the pattern decides. */
  function CheckEmail(e: string): (m: Option<string>)
    ensures m.None? <==> EmailPattern.Matches(e)
    ensures m == Some(EmailRequired) <==> IsBlank(e)
    ensures m == Some(EmailInvalid) <==> !IsBlank(e) && !EmailPattern.Matches(e)
  {
    EmailPattern.TestIffMatches(e);
    EmailPattern.MatchIsNotBlank(e);
    if IsBlank(e) then Some(EmailRequired) else if !EmailPattern.Test(e) then Some(EmailInvalid) else None
  }

  function CheckPassword(p: string): (m: Option<string>)
    ensures m.None? <==> Utf16Length(p) >= 6
    ensures m == Some(PasswordRequired) <==> |p| == 0
    ensures m == Some(PasswordShort) <==> 0 < |p| && Utf16Length(p) < 6
  {
    if |p| == 0 then Some(PasswordRequired) else if Utf16Length(p) < 6 then Some(PasswordShort) else None
  }

  /** The mismatch message appears only once a confirmation has been typed. */
  function CheckConfirm(p: string, c: string): (m: Option<string>)
    ensures m.None? <==> |c| > 0 && c == p
    ensures m == Some(ConfirmRequired) <==> |c| == 0
    ensures m == Some(ConfirmMismatch) <==> |c| > 0 && c != p
  {
    if |c| == 0 then Some(ConfirmRequired) else if p != c then Some(ConfirmMismatch) else None
  }

  const AllFields: set<Field> := {Username, Name, Email, Password, Confirm}

  /** The message one field's check produces, if any. */
  function Check(f: Form, k: Field): Option<string> {
    match k
    case Username => CheckUsername(f.username)
    case Name => CheckName(f.name)
    case Email => CheckEmail(f.email)
    case Password => CheckPassword(f.password)
    case Confirm => CheckConfirm(f.password, f.confirm)
  }

  /** `validateForm`: each field gets the message of its own check, if any, and at most
      one, since the record has one entry per field. */
  function Validate(f: Form): (errs: Errors<Field>)
    ensures forall k :: k in errs <==> Check(f, k).Some?
    ensures forall k :: k in errs ==> errs[k] == Check(f, k).value
  {
    map k | k in AllFields && Check(f, k).Some? :: Check(f, k).value
  }

  /** The form is accepted exactly when every field is acceptable on its own terms. */
  lemma ValidIff(f: Form)
    ensures NoErrors(Validate(f)) <==>
      && !IsBlank(f.username) && Utf16Length(f.username) >= 3
      && !IsBlank(f.name)
      && EmailPattern.Matches(f.email)
      && Utf16Length(f.password) >= 6
      && f.confirm == f.password
  {
    var errs := Validate(f);
    if !NoErrors(errs) {
      var k :| k in errs.Keys;
      match k
      case Username =>
      case Name =>
      case Email =>
      case Password =>
      case Confirm =>
    } else {
      assert Username !in errs && Name !in errs && Email !in errs && Password !in errs && Confirm !in errs;
    }
  }

  /** `handleChange`: the edited input takes the value and only its message is blanked. */
  function Change(form: Form, k: Field, v: string): (r: Form)
    ensures !Shows(r.errors, k)
    ensures forall g :: g != k ==> (g in r.errors <==> g in form.errors) && (g in r.errors ==> r.errors[g] == form.errors[g])
    ensures k == Username ==> r.username == v && r.(username := form.username, errors := form.errors) == form
    ensures k == Name ==> r.name == v && r.(name := form.name, errors := form.errors) == form
    ensures k == Email ==> r.email == v && r.(email := form.email, errors := form.errors) == form
    ensures k == Password ==> r.password == v && r.(password := form.password, errors := form.errors) == form
    ensures k == Confirm ==> r.confirm == v && r.(confirm := form.confirm, errors := form.errors) == form
  {
    var edited := match k
      case Username => form.(username := v)
      case Name => form.(name := v)
      case Email => form.(email := v)
      case Password => form.(password := v)
      case Confirm => form.(confirm := v);
    edited.(errors := ClearError(form.errors, k))
  }

  datatype Submission = Submission(form: Form, storage: Storage, ctx: AuthContext.Ctx,
                                   registerCalled: bool, navigateTo: Option<string>)

  /** `handleSubmit`: an invalid form never calls `register`; after a successful
      registration the five inputs are emptied, the success notice is shown and the page
      later goes to the login page; a failure keeps what was typed. */
  function Submit(form: Form, ctx: AuthContext.Ctx, st: Storage, call: AuthService.Call<string>): (s: Submission)
    ensures s.form.errors == Validate(form)
    ensures s.registerCalled <==> NoErrors(Validate(form))
    ensures s.ctx == ctx && s.storage == st
    ensures s.registerCalled && call.Ok? ==>
      s.form == Empty.(errors := Validate(form), showSuccess := true) && s.navigateTo == Some(LoginPath)
    ensures !(s.registerCalled && call.Ok?) ==>
      s.form == form.(errors := Validate(form)) && s.navigateTo == None
  {
    var errs := Validate(form);
    var checked := form.(errors := errs);
    if !NoErrors(errs) then Submission(checked, st, ctx, false, None)
    else
      var step := AuthContext.Register(ctx, st, call);
      if step.outcome.Done? then
        Submission(Empty.(errors := errs, showSuccess := true), step.storage, step.ctx, true, Some(LoginPath))
      else Submission(checked, step.storage, step.ctx, true, None)
  }

  /** The emptied form, submitted again, is refused with every field's "required" message. */
  lemma EmptyFormNeedsEverything()
    ensures Validate(Empty) == map[Username := UsernameRequired, Name := NameRequired, Email := EmailRequired,
                                   Password := PasswordRequired, Confirm := ConfirmRequired]
  {
    assert AllSpace("");
  }
}
