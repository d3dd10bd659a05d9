/**
 * frontend/src/pages/register.jsx: the sign-up form's checks, in their order, and what a
 * submit leads to. The register call is a parameter holding its outcome; its failure message
 * is the one the auth service throws.
 */
module RegisterPage {
  import opened Wrappers
  import opened Text
  import opened JsValues
  import opened Email
  import opened Client
  import AuthService

  datatype Form = Form(firstName: string, lastName: string, email: string, password: string, confirmPassword: string)

  /** The four checks of validate, in the order they are made. */
  datatype Problem = MissingName | InvalidEmail | ShortPassword | PasswordMismatch

  /** The message shown for each failed check. */
  function Message(p: Problem): string {
    match p
    case MissingName => "Please provide your first and last name."
    case InvalidEmail => "Please provide a valid email address."
    case ShortPassword => "Password must be at least 8 characters."
    case PasswordMismatch => "Passwords do not match."
  }

  /** validate: the first check that fails, or None. */
  function Validate(f: Form): (problem: Option<Problem>)
  {
    if Trim(f.firstName) == "" || Trim(f.lastName) == "" then Some(MissingName)
    else if Trim(f.email) == "" || !IsValidEmail(f.email) then Some(InvalidEmail)
    else if Utf16Length(f.password) < 8 then Some(ShortPassword)
    else if f.password != f.confirmPassword then Some(PasswordMismatch)
    else None
  }

  /**
   * A form passes exactly when both names are non-blank, the untrimmed email matches the
   * rule, the password has at least 8 code units and equals its confirmation; each failure
   * reports the earliest check.
   */
  lemma ValidateCases(f: Form)
    ensures Validate(f).None? <==>
      !IsBlank(f.firstName) && !IsBlank(f.lastName) && IsValidEmail(f.email)
      && Utf16Length(f.password) >= 8 && f.password == f.confirmPassword
    ensures IsBlank(f.firstName) || IsBlank(f.lastName) ==> Validate(f) == Some(MissingName)
    ensures !IsBlank(f.firstName) && !IsBlank(f.lastName) && !IsValidEmail(f.email) ==>
      Validate(f) == Some(InvalidEmail)
    ensures !IsBlank(f.firstName) && !IsBlank(f.lastName) && IsValidEmail(f.email) && Utf16Length(f.password) < 8 ==>
      Validate(f) == Some(ShortPassword)
    ensures (!IsBlank(f.firstName) && !IsBlank(f.lastName) && IsValidEmail(f.email) && Utf16Length(f.password) >= 8
      && f.password != f.confirmPassword) ==> Validate(f) == Some(PasswordMismatch)
  {
    if IsValidEmail(f.email) {
      ValidEmailIsTrimmed(f.email);
    }
  }

  datatype Outcome =
    | Invalid(message: string)
    /** `navigate('/login', { state: { message } })`. */
    | SignedUp(to: string, message: string)
    | Rejected(message: string)

  /** The object handleSubmit passes to the register service. */
  function Submitted(f: Form): Object {
    [("firstName", Str(f.firstName)), ("lastName", Str(f.lastName)), ("email", Str(f.email)), ("password", Str(f.password))]
  }

  /**
   * handleSubmit: the request (the register payload the service posts) and the outcome.
   * `registered` is None when the call succeeds, the axios error otherwise.
   */
  function HandleSubmit(f: Form, registered: Option<ClientError>): (r: (Option<Object>, Outcome))
  {
    match Validate(f)
    case Some(problem) => (None, Invalid(Message(problem)))
    case None =>
      var request := Some(AuthService.RegisterPayload(Submitted(f)));
      match registered
      case None => (request, SignedUp("/login", "Registration successful. Please sign in."))
      case Some(e) =>
        var thrown := AuthService.RegisterError(e);
        (request, Rejected(if thrown != "" then thrown else "Registration failed. Please try again."))
  }

  /**
   * No request is made for an invalid form, which shows the first failing check; a valid
   * one posts the register payload of its values and leads to /login on success and to an
   * error message on failure.
   */
  lemma SubmitOnlyWhenValid(f: Form, registered: Option<ClientError>)
    ensures HandleSubmit(f, registered).0.None? <==> Validate(f).Some?
    ensures Validate(f).Some? ==> HandleSubmit(f, registered).1 == Invalid(Message(Validate(f).value))
    ensures Validate(f).None? ==> HandleSubmit(f, registered).0 == Some(AuthService.RegisterPayload(Submitted(f)))
    ensures Validate(f).None? && registered.None? ==>
      HandleSubmit(f, registered).1 == SignedUp("/login", "Registration successful. Please sign in.")
    ensures Validate(f).None? && registered.Some? ==> HandleSubmit(f, registered).1.Rejected?
  {
  }

  /** The request posts the form's values, untrimmed, under the server's names. */
  lemma SubmittedUnderServerNames(f: Form)
    ensures var p := AuthService.RegisterPayload(Submitted(f));
      && Prop(p, "first_name") == Str(f.firstName) && Prop(p, "last_name") == Str(f.lastName)
      && Prop(p, "email") == Str(f.email) && Prop(p, "password") == Str(f.password)
  {
    var s := Submitted(f);
    assert "firstName"[0] != "lastName"[0] && "lastName"[0] != "email"[0] && "email"[0] != "password"[0];
    assert "firstName"[0] != "email"[0] && "firstName"[0] != "password"[0] && "lastName"[0] != "password"[0];
    PropAt(s, 0);
    PropAt(s, 1);
    PropAt(s, 2);
    PropAt(s, 3);
    AuthService.PayloadsRename(s);
  }

  /** A failed registration shows the service's message, and the page's fallback only when that is empty. */
  lemma FailureMessage(f: Form, e: ClientError)
    requires Validate(f).None?
    ensures HandleSubmit(f, Some(e)).1 ==
      Rejected(if AuthService.RegisterError(e) != "" then AuthService.RegisterError(e) else "Registration failed. Please try again.")
  {
  }
}
