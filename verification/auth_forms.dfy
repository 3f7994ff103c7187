/** The client-side checks of the register and login forms: field validation, the
    unanchored e-mail pattern `\S+@\S+\.\S+`, input handling and the login redirect. */
module AuthForms {
  import opened Wrappers
  import opened JsText

  const NameRequired := "Name is required"
  const EmailRequired := "Email is required"
  const EmailInvalid := "Email is invalid"
  const PasswordRequired := "Password is required"
  const PasswordTooShort := "Password must be at least 8 characters"
  const MinPasswordLength := 8

  /** The named inputs of the forms. */
  datatype Field = Name | Email | Password

  /** `formData` and `validationErrors`: objects keyed by input name. */
  type Form = map<Field, string>
  type Errors = map<Field, string>

  /** A field's text; a missing field reads as `undefined`, which is as falsy as "". */
  function Value(form: Form, f: Field): string {
    if f in form then form[f] else ""
  }

  // ---------------------------------------------------------------------------
  // The e-mail pattern

  /** `\S+@\S+\.\S+` matches with its `@` at `j` and its `.` at `k`. */
  predicate DotAfter(s: string, j: int, k: int) {
    && 0 < j && j + 1 < k && k + 1 < |s|
    && s[j] == '@' && s[k] == '.'
    && !IsSpace(s[j - 1]) && !IsSpace(s[k + 1])
    && forall t :: j < t < k ==> !IsSpace(s[t])
  }

  predicate AtStartsMatch(s: string, j: int) {
    exists k :: j < k < |s| && DotAfter(s, j, k)
  }

  /** The regular expression finds a match somewhere in `s` (it is not anchored). */
  predicate EmailLike(s: string) {
    exists j :: 0 < j < |s| && AtStartsMatch(s, j)
  }

  /** `/\S+@\S+\.\S+/.test(s)`, by scanning each `@` and the whitespace-free run after it. */
  method TestEmail(s: string) returns (b: bool)
    ensures b <==> EmailLike(s)
  {
    var j := 1;
    while j < |s|
      invariant 1 <= j
      invariant forall j' :: 0 <= j' < j ==> !AtStartsMatch(s, j')
    {
      if s[j] == '@' && !IsSpace(s[j - 1]) {
        var k := j + 1;
        while k < |s| && !IsSpace(s[k])
          invariant j + 1 <= k <= |s|
          invariant forall t :: j < t < k ==> !IsSpace(s[t])
          invariant forall k' :: j < k' < k ==> !DotAfter(s, j, k')
        {
          if k > j + 1 && s[k] == '.' && k + 1 < |s| && !IsSpace(s[k + 1]) {
            assert DotAfter(s, j, k);
            assert AtStartsMatch(s, j);
            return true;
          }
          k := k + 1;
        }
        forall k' | k <= k' ensures !DotAfter(s, j, k') {
          if k' > k && k < |s| { assert j < k < k' && IsSpace(s[k]); }
        }
      }
      j := j + 1;
    }
    forall j' ensures !AtStartsMatch(s, j') {
      if j' >= j { assert forall k :: !DotAfter(s, j', k); }
    }
    return false;
  }

  // ---------------------------------------------------------------------------
  // Validation

  /** The e-mail rule both forms share: required, then the pattern. */
  function EmailError(email: string): (r: Option<string>)
    ensures r.None? <==> EmailLike(email)
    ensures r.Some? ==> r.value == if email == "" then EmailRequired else EmailInvalid
  {
    if email == "" then Some(EmailRequired)
    else if !EmailLike(email) then Some(EmailInvalid)
    else None
  }

  function Put(e: Errors, f: Field, o: Option<string>): Errors {
    if o.Some? then e[f := o.value] else e
  }

  /** `validateForm` of the register form. */
  function ValidateRegister(form: Form): (e: Errors)
    ensures Name in e <==> Value(form, Name) == ""
    ensures Name in e ==> e[Name] == NameRequired
    ensures Email in e <==> !EmailLike(Value(form, Email))
    ensures Email in e ==> e[Email] == if Value(form, Email) == "" then EmailRequired else EmailInvalid
    ensures Password in e <==> |Value(form, Password)| < MinPasswordLength
    ensures Password in e ==> e[Password] == if Value(form, Password) == "" then PasswordRequired else PasswordTooShort
  {
    var name := Value(form, Name);
    var password := Value(form, Password);
    var e := Put(map[], Name, if name == "" then Some(NameRequired) else None);
    var e := Put(e, Email, EmailError(Value(form, Email)));
    Put(e, Password,
      if password == "" then Some(PasswordRequired)
      else if |password| < MinPasswordLength then Some(PasswordTooShort)
      else None)
  }

  /** `validateForm` of the login form: the same e-mail rule, and a password is only required. */
  function ValidateLogin(form: Form): (e: Errors)
    ensures Name !in e
    ensures Email in e <==> !EmailLike(Value(form, Email))
    ensures Email in e ==> e[Email] == if Value(form, Email) == "" then EmailRequired else EmailInvalid
    ensures Password in e <==> Value(form, Password) == ""
    ensures Password in e ==> e[Password] == PasswordRequired
  {
    var e := Put(map[], Email, EmailError(Value(form, Email)));
    Put(e, Password, if Value(form, Password) == "" then Some(PasswordRequired) else None)
  }

  /** `handleSubmit` of the register form: the form is sent only when validation found nothing. */
  function SubmitRegister(form: Form): (r: Option<Form>)
    ensures r.Some? <==>
      Value(form, Name) != "" && EmailLike(Value(form, Email)) && |Value(form, Password)| >= MinPasswordLength
    ensures r.Some? ==> r.value == form
  {
    if |ValidateRegister(form)| == 0 then Some(form) else None
  }

  /** `handleSubmit` of the login form. */
  function SubmitLogin(form: Form): (r: Option<Form>)
    ensures r.Some? <==> EmailLike(Value(form, Email)) && Value(form, Password) != ""
    ensures r.Some? ==> r.value == form
  {
    if |ValidateLogin(form)| == 0 then Some(form) else None
  }

  /** `handleChange`: the named field takes the typed value; a shown error for that field is
      blanked, but its key stays. */
  function HandleChange(form: Form, errors: Errors, f: Field, value: string): (r: (Form, Errors))
    ensures Value(r.0, f) == value
    ensures forall g :: g != f ==> Value(r.0, g) == Value(form, g) && (g in form <==> g in r.0)
    ensures r.1.Keys == errors.Keys
    ensures f in r.1 ==> r.1[f] == ""
    ensures forall g :: g in errors && g != f ==> r.1[g] == errors[g]
  {
    (form[f := value], if f in errors && errors[f] != "" then errors[f := ""] else errors)
  }

  /** `location.state?.from?.pathname || "/"`. */
  function RedirectTarget(from: Option<string>): (r: string)
    ensures r != ""
    ensures Truthy(from) ==> r == from.value
    ensures !Truthy(from) ==> r == "/"
  {
    if Truthy(from) then from.value else "/"
  }

  // ---------------------------------------------------------------------------
  // Properties

  /** Each field is validated on its own: typing into one field never changes whether, or
      with what message, another field is flagged. */
  lemma FieldsValidatedIndependently(form: Form, f: Field, g: Field, value: string)
    requires f != g
    ensures var after := ValidateRegister(HandleChange(form, map[], f, value).0);
      (g in after <==> g in ValidateRegister(form)) && (g in after ==> after[g] == ValidateRegister(form)[g])
    ensures var after := ValidateLogin(HandleChange(form, map[], f, value).0);
      (g in after <==> g in ValidateLogin(form)) && (g in after ==> after[g] == ValidateLogin(form)[g])
  {
  }

  /** A password long enough for registration always passes login's password rule, and a
      registration-valid form is login-valid. */
  lemma RegisterStricterThanLogin(form: Form)
    requires SubmitRegister(form).Some?
    ensures SubmitLogin(form).Some?
  {
  }

  /** A seven-character password passes login but not registration. */
  lemma SevenCharacterPassword()
    ensures var form := map[Name := "A", Email := "a@b.c", Password := "1234567"];
      SubmitLogin(form).Some? && SubmitRegister(form).None?
      && ValidateRegister(form) == map[Password := PasswordTooShort]
  {
    var form := map[Name := "A", Email := "a@b.c", Password := "1234567"];
    EmailExamples();
    assert Value(form, Email) == "a@b.c";
    assert |Value(form, Password)| == 7;
  }

  /** The pattern is unanchored and needs text on each side of `@` and of the dot after it. */
  lemma EmailExamples()
    ensures EmailLike("a@b.c")
    ensures EmailLike("x a@b.c y")
    ensures !EmailLike("a@b")
    ensures !EmailLike("a@.c")
    ensures !EmailLike("")
  {
    assert DotAfter("a@b.c", 1, 3) && AtStartsMatch("a@b.c", 1);
    assert DotAfter("x a@b.c y", 3, 5) && AtStartsMatch("x a@b.c y", 3);
    forall j | 0 < j < 3 ensures !AtStartsMatch("a@b", j) {
      assert forall k :: j < k < 3 ==> "a@b"[k] != '.' || k + 1 >= 3;
    }
    forall j | 0 < j < 4 ensures !AtStartsMatch("a@.c", j) {
      assert forall k :: j < k < 4 && "a@.c"[k] == '.' ==> k == 2;
    }
  }
}
