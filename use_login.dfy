/** The login form hook: the two fields, the error record shown under them,
    the client-side validation and the submission guard. */
module UseLogin {
  import opened Common
  import opened Text

  const EmailRequired := "L'email est requis"
  const PasswordRequired := "Le mot de passe est requis"

  /** The two fields of `formData`, keyed in the error record by their names. */
  datatype FormField = Email | Password

  function Key(field: FormField): string
  {
    match field
    case Email => "email"
    case Password => "password"
  }

  /** What `handleSubmit` hands to the `loginUser` thunk. */
  datatype LoginRequest = LoginRequest(email: string, password: string)

  /** The record `validate` builds: one entry per empty field. */
  function ValidationErrors(email: string, password: string): (r: map<string, string>)
    ensures "email" in r <==> email == []
    ensures "password" in r <==> password == []
    ensures "email" in r ==> r["email"] == EmailRequired
    ensures "password" in r ==> r["password"] == PasswordRequired
    ensures r.Keys <= {"email", "password"}
  {
    var withEmail: map<string, string> := if email == [] then map["email" := EmailRequired] else map[];
    if password == [] then withEmail["password" := PasswordRequired] else withEmail
  }

  /** `validate`'s answer: the record it built has no key. */
  lemma ValidatesIffBothFilled(email: string, password: string)
    ensures |ValidationErrors(email, password)| == 0 <==> email != [] && password != []
  {
    var r := ValidationErrors(email, password);
    if email == [] {
      assert "email" in r;
    } else if password == [] {
      assert "password" in r;
    } else {
      assert r.Keys == {};
    }
  }

  /** `isFormValid`: both fields hold something other than white space. */
  predicate FormValid(email: string, password: string)
  {
    Trim(email) != [] && Trim(password) != []
  }

  /** A form the submit button accepts always passes `validate`. */
  lemma FormValidPassesValidation(email: string, password: string)
    requires FormValid(email, password)
    ensures ValidationErrors(email, password) == map[]
  {
    var r := ValidationErrors(email, password);
    assert r.Keys == {};
  }

  /** The converse fails: white space passes `validate` but leaves the
      button disabled. */
  lemma BlankPassesValidationOnly()
    ensures ValidationErrors(" ", " ") == map[] && !FormValid(" ", " ")
  {
    assert IsBlank(" ");
    var r := ValidationErrors(" ", " ");
    assert r.Keys == {};
  }

  /** The hook's local state. */
  class LoginForm {
    var email: string
    var password: string
    var errors: map<string, string>

    constructor ()
      ensures email == [] && password == [] && errors == map[]
    {
      email, password, errors := [], [], map[];
    }

    function IsFormValid(): bool
      reads this
    {
      FormValid(email, password)
    }

    /** `validate`: replaces the error record and reports whether it is empty. */
    method Validate() returns (ok: bool)
      modifies this
      ensures email == old(email) && password == old(password)
      ensures errors == ValidationErrors(email, password)
      ensures ok <==> email != [] && password != []
    {
      errors := ValidationErrors(email, password);
      ValidatesIffBothFilled(email, password);
      ok := |errors| == 0;
    }

    /** `handleChange(field)`: stores the new value and blanks that field's
        error if one was showing; the other field and its error stay. */
    method HandleChange(field: FormField, value: string)
      modifies this
      ensures field.Email? ==> email == value && password == old(password)
      ensures field.Password? ==> password == value && email == old(email)
      ensures Key(field) in old(errors) && old(errors)[Key(field)] != [] ==> errors == old(errors)[Key(field) := []]
      ensures !(Key(field) in old(errors) && old(errors)[Key(field)] != []) ==> errors == old(errors)
    {
      if field.Email? {
        email := value;
      } else {
        password := value;
      }
      var key := Key(field);
      if key in errors && errors[key] != [] {
        errors := errors[key := []];
      }
    }

    /** `handleSubmit`: validates, and dispatches the login only when
        validation passed. */
    method HandleSubmit() returns (dispatched: Option<LoginRequest>)
      modifies this
      ensures email == old(email) && password == old(password)
      ensures errors == ValidationErrors(email, password)
      ensures dispatched.None? <==> email == [] || password == []
      ensures dispatched.Some? ==> dispatched.value == LoginRequest(email, password)
    {
      var ok := Validate();
      if !ok {
        return None;
      }
      dispatched := Some(LoginRequest(email, password));
    }
  }
}
