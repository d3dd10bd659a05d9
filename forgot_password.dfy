/**
 * frontend/src/pages/forgotPassword.jsx: the two-step reset page. Step 1 requests a code for
 * an email; step 2 sends the code with a new password. The page's state is a class whose
 * fields are the component's state; each handler is a method that runs to completion with
 * the outcome of its awaited service call given as a parameter. A disabled input or button
 * does not fire its handler, so those handlers leave the state as it is.
 */
module ForgotPassword {
  import opened Wrappers
  import opened Text
  import opened JsValues
  import opened BrowserStorage
  import opened Client
  import AuthService

  /** The code field's change handler: `replace(/\D/g, '').slice(0, 6)`. */
  function SanitiseCode(input: string): (code: string)
    ensures AllDigits(code) && |code| <= 6
    ensures |code| <= |KeepDigits(input)| && code == KeepDigits(input)[..|code|]
    ensures |code| == 6 <==> |KeepDigits(input)| >= 6
  {
    Take(KeepDigits(input), 6)
  }

  /** Sanitising a sanitised code changes nothing. */
  lemma SanitiseIdempotent(input: string)
    ensures SanitiseCode(SanitiseCode(input)) == SanitiseCode(input)
  {
    KeepDigitsOfDigits(SanitiseCode(input));
  }

  /** A digit-only code is as long in code units as in characters: `code.length` is |code|. */
  lemma DigitsAreOneUnitEach(code: string)
    requires AllDigits(code)
    ensures Utf16Length(code) == |code|
  {
    Utf16LengthOfBmp(code);
  }

  /** The two checks handleResetPassword makes before any request, in their order. */
  function LocalCheck(newPassword: string, confirmPassword: string): (error: Option<string>)
  {
    if Utf16Length(newPassword) < 8 then Some("Password must be at least 8 characters")
    else if newPassword != confirmPassword then Some("Passwords do not match")
    else None
  }

  /**
   * A reset passes the local checks exactly when the new password has at least 8 code units
   * and equals its confirmation; a short password is reported first, whatever the confirmation.
   */
  lemma LocalCheckCases(newPassword: string, confirmPassword: string)
    ensures LocalCheck(newPassword, confirmPassword).None? <==>
      Utf16Length(newPassword) >= 8 && newPassword == confirmPassword
    ensures Utf16Length(newPassword) < 8 ==>
      LocalCheck(newPassword, confirmPassword) == Some("Password must be at least 8 characters")
    ensures Utf16Length(newPassword) >= 8 && newPassword != confirmPassword ==>
      LocalCheck(newPassword, confirmPassword) == Some("Passwords do not match")
    ensures LocalCheck(newPassword, confirmPassword).None? ==> |newPassword| >= 4 && confirmPassword != ""
  {
  }

  /** `navigate('/login', { replace: true, state: { message } })`. */
  datatype Navigation = Navigation(to: string, replace: bool, message: JsValue)

  /** The message shown for a failed call: the thrown error's message, or the page's own default. */
  function Shown(thrown: string, fallback: string): (m: string)
    ensures thrown != "" ==> m == thrown
    ensures thrown == "" ==> m == fallback
  {
    if thrown != "" then thrown else fallback
  }

  /** What the mount effect does to the email field. */
  datatype MountChange = Unchanged | Unlocked | Locked(email: string)

  /**
   * With a stored token and a stored user whose `email` is truthy, the email becomes that
   * value, as a string and trimmed, and is locked; a stored user that does not parse leaves
   * the field unlocked. `parse` is `JSON.parse`, None when it throws.
   */
  function MountEffect(items: Items, parse: string -> Option<JsValue>): (change: MountChange)
    ensures change.Unlocked? <==> Present(items, "user") && parse(items["user"]).None?
    ensures change.Locked? <==>
      && Present(items, "token") && Present(items, "user") && parse(items["user"]).Some?
      && Truthy(Field(parse(items["user"]).value, "email"))
    ensures change.Locked? ==> Trim(change.email) == change.email
    ensures change.Locked? ==> change.email == Trim(ToStr(Field(parse(items["user"]).value, "email")))
  {
    if !Present(items, "user") then Unchanged
    else
      match parse(items["user"])
      case None => Unlocked
      case Some(user) =>
        if Present(items, "token") && Truthy(Field(user, "email")) then
          TrimIdempotent(ToStr(Field(user, "email")));
          Locked(Trim(ToStr(Field(user, "email"))))
        else Unchanged
  }

  class ResetPage {
    var step: int
    var email: string
    var code: string
    var newPassword: string
    var confirmPassword: string
    var error: string
    var success: JsValue
    var loading: bool
    var emailLocked: bool

    /** The page is on one of its two steps and the code field holds at most six digits. */
    predicate Valid()
      reads this
    {
      (step == 1 || step == 2) && AllDigits(code) && |code| <= 6
    }

    /** The initial state of every `useState`. */
    constructor ()
      ensures Valid()
      ensures step == 1 && email == "" && code == "" && newPassword == "" && confirmPassword == ""
      ensures error == "" && success == Str("") && !loading && !emailLocked
    {
      step, email, code, newPassword, confirmPassword := 1, "", "", "", "";
      error, success, loading, emailLocked := "", Str(""), false, false;
    }

    /** The send button: not loading and an email that is not blank. */
    predicate SendEnabled()
      reads this
    {
      !loading && !IsBlank(email)
    }

    /** The reset button: not loading, a non-blank email, a six-unit code and both passwords typed. */
    predicate ResetEnabled()
      reads this
    {
      !loading && !IsBlank(email) && Utf16Length(code) == 6 && newPassword != "" && confirmPassword != ""
    }

    /** Whether the email input takes changes: in step 1 a locked email is disabled too. */
    predicate EmailEditable()
      reads this
    {
      !loading && !(step == 1 && emailLocked)
    }

    /** The mount effect: the stored login's email, trimmed, becomes the locked email. */
    method Prefill(items: Items, parse: string -> Option<JsValue>)
      modifies this`email, this`emailLocked
      ensures MountEffect(items, parse).Unchanged? ==> email == old(email) && emailLocked == old(emailLocked)
      ensures MountEffect(items, parse).Unlocked? ==> email == old(email) && !emailLocked
      ensures MountEffect(items, parse).Locked? ==> email == MountEffect(items, parse).email && emailLocked
    {
      match MountEffect(items, parse) {
        case Unchanged =>
        case Unlocked => emailLocked := false;
        case Locked(stored) => email, emailLocked := stored, true;
      }
    }

    /** The email input's change handler. */
    method EditEmail(value: string)
      modifies this`email
      ensures email == if old(EmailEditable()) then value else old(email)
    {
      if EmailEditable() {
        email := value;
      }
    }

    /** The code input's change handler: the typed text, sanitised. */
    method EditCode(input: string)
      requires Valid()
      modifies this`code
      ensures Valid()
      ensures code == if loading then old(code) else SanitiseCode(input)
    {
      if !loading {
        code := SanitiseCode(input);
      }
    }

    /** The two password inputs' change handlers. */
    method EditPasswords(newValue: string, confirmValue: string)
      modifies this`newPassword, this`confirmPassword
      ensures newPassword == (if loading then old(newPassword) else newValue)
      ensures confirmPassword == (if loading then old(confirmPassword) else confirmValue)
    {
      if !loading {
        newPassword, confirmPassword := newValue, confirmValue;
      }
    }

    /**
     * handleSendCode: the trimmed email is requested (the returned `request`), whatever it is;
     * `reply` is the outcome of requestPasswordReset. Success moves to step 2 with the server's
     * message or the default; failure stays on the step and shows the thrown message.
     */
    method SendCode(reply: Reply<JsValue>) returns (request: string)
      requires Valid()
      modifies this`error, this`success, this`loading, this`step
      ensures Valid()
      ensures request == Trim(email)
      ensures (step, success, error) == AfterSend(reply, old(step))
      ensures !loading
    {
      error, success, loading := "", Str(""), true;
      request := Trim(email);
      var after := AfterSend(reply, step);
      step, success, error := after.0, after.1, after.2;
      loading := false;
    }

    /**
     * handleResetPassword: a short or unconfirmed password is refused with its message and no
     * request; otherwise the trimmed email and code and the new password, as given, go to
     * resetPassword (`reply` is its outcome), and what follows is `AfterReset(reply)`.
     */
    method ResetPassword(reply: Reply<JsValue>) returns (request: Option<Object>, navigation: Option<Navigation>)
      modifies this`error, this`success, this`loading
      ensures success == Str("")
      ensures LocalCheck(newPassword, confirmPassword).Some? ==>
        && request.None? && navigation.None?
        && error == LocalCheck(newPassword, confirmPassword).value && loading == old(loading)
      ensures LocalCheck(newPassword, confirmPassword).None? ==>
        && request == Some(ResetForm(email, code, newPassword))
        && (navigation, error) == AfterReset(reply)
        && !loading
    {
      var form := ResetForm(email, code, newPassword);
      error, success := "", Str("");
      var refused := LocalCheck(newPassword, confirmPassword);
      if refused.Some? {
        error := refused.value;
        return None, None;
      }
      loading := true;
      request := Some(form);
      navigation, error := AfterReset(reply).0, AfterReset(reply).1;
      loading := false;
    }

    /** 'Resend code': back to step 1, unless a call is in flight. */
    method Resend()
      requires Valid()
      modifies this`step
      ensures Valid()
      ensures step == if loading then old(step) else 1
    {
      if !loading {
        step := 1;
      }
    }
  }

  /** What follows requestPasswordReset's outcome, from step `step`: the step, the success message and the error. */
  function AfterSend(reply: Reply<JsValue>, step: int): (r: (int, JsValue, string))
  {
    match reply
    case Done(result) => (2, Or(Field(result, "message"), Str("If this email exists, a verification code has been sent.")), "")
    case Failed(e) => (step, Str(""), Shown(AuthService.RequestResetError(e), "Failed to send verification code"))
  }

  /**
   * A sent code moves to step 2 with the server's message or the page's own and no error; a
   * failure stays on the step with no success message and the thrown message, or 'Failed to
   * send verification code' when that is empty.
   */
  lemma AfterSendCases(reply: Reply<JsValue>, step: int)
    ensures AfterSend(reply, step).0 == 2 <==> reply.Done? || step == 2
    ensures reply.Done? ==>
      && AfterSend(reply, step).2 == ""
      && (Truthy(Field(reply.value, "message")) ==> AfterSend(reply, step).1 == Field(reply.value, "message"))
      && (!Truthy(Field(reply.value, "message")) ==>
            AfterSend(reply, step).1 == Str("If this email exists, a verification code has been sent."))
    ensures reply.Failed? ==>
      && AfterSend(reply, step).0 == step && AfterSend(reply, step).1 == Str("")
      && AfterSend(reply, step).2 == (if AuthService.RequestResetError(reply.error) != "" then AuthService.RequestResetError(reply.error)
                                      else "Failed to send verification code")
  {
  }

  /** What follows resetPassword's outcome: the navigation, and the message shown. */
  function AfterReset(reply: Reply<JsValue>): (r: (Option<Navigation>, string))
  {
    match reply
    case Done(result) =>
      (Some(Navigation("/login", true, Or(Field(result, "message"), Str("Password reset successful. Please sign in.")))), "")
    case Failed(e) => (None, Shown(AuthService.ResetError(e), "Failed to reset password"))
  }

  /**
   * A successful reset goes to /login, replacing the history entry, with the server's message
   * or the page's own, and shows no error; a failure stays on the page with the thrown message,
   * or 'Failed to reset password' when that is empty.
   */
  lemma AfterResetCases(reply: Reply<JsValue>)
    ensures AfterReset(reply).0.Some? <==> reply.Done?
    ensures reply.Done? ==>
      && AfterReset(reply).0.value.to == "/login" && AfterReset(reply).0.value.replace && AfterReset(reply).1 == ""
      && (Truthy(Field(reply.value, "message")) ==> AfterReset(reply).0.value.message == Field(reply.value, "message"))
      && (!Truthy(Field(reply.value, "message")) ==>
            AfterReset(reply).0.value.message == Str("Password reset successful. Please sign in."))
    ensures reply.Failed? && AuthService.ResetError(reply.error) != "" ==> AfterReset(reply).1 == AuthService.ResetError(reply.error)
    ensures reply.Failed? && AuthService.ResetError(reply.error) == "" ==> AfterReset(reply).1 == "Failed to reset password"
  {
  }

  /** The object handleResetPassword hands to resetPassword: email and code trimmed. */
  function ResetForm(email: string, code: string, newPassword: string): (form: Object)
  {
    ResetFields(Trim(email), Trim(code), newPassword)
  }

  function ResetFields(email: string, code: string, newPassword: string): Object {
    [("email", Str(email)), ("code", Str(code)), ("newPassword", Str(newPassword))]
  }

  /** The service posts each of the three values under its server name. */
  lemma ResetFieldsPosted(email: string, code: string, newPassword: string)
    ensures var p := AuthService.ResetPayload(ResetFields(email, code, newPassword));
      Prop(p, "email") == Str(email) && Prop(p, "code") == Str(code) && Prop(p, "new_password") == Str(newPassword)
  {
    var f := ResetFields(email, code, newPassword);
    assert "email"[0] != "code"[0] && "code"[0] != "newPassword"[0] && "email"[0] != "newPassword"[0];
    PropAt(f, 0);
    PropAt(f, 1);
    PropAt(f, 2);
    AuthService.PayloadsRename(f);
  }

  /**
   * The server receives the email and code trimmed and the new password untouched, under
   * `new_password`; a code typed through the field has nothing to trim.
   */
  lemma ResetRequestValues(email: string, code: string, newPassword: string)
    ensures var p := AuthService.ResetPayload(ResetForm(email, code, newPassword));
      && Prop(p, "email") == Str(Trim(email)) && Prop(p, "code") == Str(Trim(code))
      && Prop(p, "new_password") == Str(newPassword)
    ensures AllDigits(code) ==> Trim(code) == code
  {
    ResetFieldsPosted(Trim(email), Trim(code), newPassword);
    if AllDigits(code) {
      DigitsHaveNoSpace(code);
      TrimOfNoSpace(code);
    }
  }

  lemma DigitsHaveNoSpace(code: string)
    requires AllDigits(code)
    ensures NoSpace(code)
  {
  }

  /**
   * With the reset button enabled on a valid page the code is exactly six digits, so the
   * button needs six digits among what was typed into the field.
   */
  lemma EnabledResetHasSixDigits(page: ResetPage, input: string)
    requires page.Valid() && page.ResetEnabled()
    ensures |page.code| == 6 && AllDigits(page.code)
    ensures page.code == SanitiseCode(input) ==> |KeepDigits(input)| >= 6
  {
    DigitsAreOneUnitEach(page.code);
  }
}
