/**
 * frontend/src/pages/adminUsers.jsx: the admin's user dialogs. The edit and add forms are
 * checked in a fixed order before any request; the request carries trimmed names and email.
 * The page's state is a class; each save runs to completion with the outcomes of its two
 * awaited calls (the write, then the reload of the list) given as parameters.
 */
module AdminUsers {
  import opened Wrappers
  import opened Text
  import opened JsValues
  import opened Email
  import opened Client

  /**
   * A dialog's form. The values are whatever `openEdit` copied from the user or the inputs
   * typed, so a field may hold a value that is not a string.
   */
  datatype UserForm = UserForm(firstName: JsValue, lastName: JsValue, email: JsValue, password: JsValue,
                               role: JsValue, status: JsValue)

  /** The add form as `openAdd` resets it; a new edit form before `openEdit` is the same without a password. */
  const BlankForm := UserForm(Str(""), Str(""), Str(""), Str(""), Str("user"), Str("active"))

  /** `String(v || '').trim()`, as both dialogs read a field for checking. */
  function FieldText(v: JsValue): (t: string)
    ensures !Truthy(v) ==> t == ""
    ensures v.Str? ==> t == Trim(v.s)
  {
    var w := Or(v, Str(""));
    assert !Truthy(v) ==> ToStr(w) == "";
    assert v.Str? ==> ToStr(w) == v.s;
    TrimEmpty();
    Trim(ToStr(w))
  }

  /** The checks of the two dialogs, in the order they are made. */
  datatype Problem = InvalidEmail | MissingName | ShortPassword

  function Message(p: Problem): string {
    match p
    case InvalidEmail => "Please enter a valid email."
    case MissingName => "First and last name are required."
    case ShortPassword => "Password must be at least 8 characters."
  }

  /** handleEditSave's checks: the trimmed email, then both names. */
  function ValidateEdit(form: UserForm): (problem: Option<Problem>)
  {
    var email := FieldText(form.email);
    if email == "" || !IsValidEmail(email) then Some(InvalidEmail)
    else if FieldText(form.firstName) == "" || FieldText(form.lastName) == "" then Some(MissingName)
    else None
  }

  /** handleAddSave's checks: those of the edit dialog, then the password. */
  function ValidateAdd(form: UserForm): (problem: Option<Problem>)
  {
    match ValidateEdit(form)
    case Some(p) => Some(p)
    case None =>
      var password := ToStr(Or(form.password, Str("")));
      if Trim(password) == "" || Utf16Length(password) < 8 then Some(ShortPassword) else None
  }

  /**
   * An edit passes exactly when the trimmed email is valid and neither name is blank; the
   * email is checked first.
   */
  lemma ValidateEditCases(form: UserForm)
    ensures ValidateEdit(form).None? <==>
      IsValidEmail(FieldText(form.email)) && FieldText(form.firstName) != "" && FieldText(form.lastName) != ""
    ensures !IsValidEmail(FieldText(form.email)) ==> ValidateEdit(form) == Some(InvalidEmail)
    ensures IsValidEmail(FieldText(form.email)) && (FieldText(form.firstName) == "" || FieldText(form.lastName) == "") ==>
      ValidateEdit(form) == Some(MissingName)
  {
    if IsValidEmail(FieldText(form.email)) {
      ValidEmailIsTrimmed(FieldText(form.email));
    }
  }

  /**
   * An addition passes exactly when the edit checks pass and the password, as a string, is
   * not blank and has at least 8 code units; the password is checked last.
   */
  lemma ValidateAddCases(form: UserForm)
    ensures ValidateEdit(form).Some? ==> ValidateAdd(form) == ValidateEdit(form)
    ensures ValidateAdd(form).None? <==>
      && ValidateEdit(form).None?
      && !IsBlank(ToStr(Or(form.password, Str("")))) && Utf16Length(ToStr(Or(form.password, Str("")))) >= 8
    ensures ValidateEdit(form).None? && !Truthy(form.password) ==> ValidateAdd(form) == Some(ShortPassword)
  {
    TrimEmpty();
  }

  /** The object of the patch or post once the names are trimmed with `.trim()`. */
  function UserFields(firstName: string, lastName: string, email: string, password: Option<JsValue>,
                      role: JsValue, status: JsValue): Object
  {
    if password.Some? then
      [("first_name", Str(firstName)), ("last_name", Str(lastName)), ("email", Str(email)),
       ("password", password.value), ("role", role), ("status", status)]
    else
      [("first_name", Str(firstName)), ("last_name", Str(lastName)), ("email", Str(email)),
       ("role", role), ("status", status)]
  }

  /**
   * The request body, or None when `.trim()` throws because a name is not a string (the
   * TypeError is caught like a failed request). `withPassword` is the add dialog's.
   */
  function Payload(form: UserForm, withPassword: bool): (p: Option<Object>)
    ensures p.Some? <==> form.firstName.Str? && form.lastName.Str?
  {
    if !form.firstName.Str? || !form.lastName.Str? then None
    else Some(UserFields(Trim(form.firstName.s), Trim(form.lastName.s), FieldText(form.email),
                         if withPassword then Some(form.password) else None, form.role, form.status))
  }

  /** Each field reaches the server under its own name: names and email trimmed, the rest as given. */
  lemma UserFieldsPosted(firstName: string, lastName: string, email: string, password: Option<JsValue>,
                         role: JsValue, status: JsValue)
    ensures var o := UserFields(firstName, lastName, email, password, role, status);
      && Prop(o, "first_name") == Str(firstName) && Prop(o, "last_name") == Str(lastName)
      && Prop(o, "email") == Str(email) && Prop(o, "role") == role && Prop(o, "status") == status
      && Prop(o, "password") == (if password.Some? then password.value else Undefined)
    ensures |UserFields(firstName, lastName, email, password, role, status)| == if password.Some? then 6 else 5
  {
    var o := UserFields(firstName, lastName, email, password, role, status);
    PropAt(o, 0);
    PropAt(o, 1);
    PropAt(o, 2);
    PropAt(o, 3);
    PropAt(o, 4);
    if password.Some? {
      PropAt(o, 5);
    } else {
      assert forall k | 0 <= k < |o| :: o[k].0 != "password";
      PropShape(o, "password");
    }
  }

  /**
   * The request sends the names and the email trimmed, role and status as they are, and (from
   * the add dialog only) the password unmodified.
   */
  lemma PayloadTrimmed(form: UserForm, withPassword: bool)
    requires form.firstName.Str? && form.lastName.Str?
    ensures var p := Payload(form, withPassword).value;
      && Prop(p, "first_name") == Str(Trim(form.firstName.s)) && Prop(p, "last_name") == Str(Trim(form.lastName.s))
      && Prop(p, "email") == Str(FieldText(form.email))
      && Prop(p, "role") == form.role && Prop(p, "status") == form.status
      && Prop(p, "password") == (if withPassword then form.password else Undefined)
  {
    UserFieldsPosted(Trim(form.firstName.s), Trim(form.lastName.s), FieldText(form.email),
                     if withPassword then Some(form.password) else None, form.role, form.status);
  }

  /** openEdit's copy of a user: missing or empty values fall back to '', 'user' and 'active'. */
  function EditFormOf(user: JsValue): (form: UserForm)
    ensures form.password == Undefined
    ensures !Truthy(Field(user, "first_name")) ==> form.firstName == Str("")
    ensures !Truthy(Field(user, "last_name")) ==> form.lastName == Str("")
    ensures !Truthy(Field(user, "email")) ==> form.email == Str("")
    ensures !Truthy(Field(user, "role")) ==> form.role == Str("user")
    ensures !Truthy(Field(user, "status")) ==> form.status == Str("active")
    ensures Truthy(Field(user, "role")) ==> form.role == Field(user, "role")
    ensures Truthy(Field(user, "status")) ==> form.status == Field(user, "status")
  {
    UserForm(Or(Field(user, "first_name"), Str("")), Or(Field(user, "last_name"), Str("")),
             Or(Field(user, "email"), Str("")), Undefined,
             Or(Field(user, "role"), Str("user")), Or(Field(user, "status"), Str("active")))
  }

  /**
   * What a save does: the request body it sends, and afterwards the message, the list and
   * whether the dialog closes. The write (`written` is its error) follows the checks, and the
   * reload of the list (`reloaded`) follows a successful write.
   */
  datatype Saved = Saved(request: Option<Object>, message: JsValue, users: seq<JsValue>, close: bool)

  function Save(problem: Option<Problem>, payload: Option<Object>, written: Option<ClientError>,
                reloaded: Reply<seq<JsValue>>, message: JsValue, users: seq<JsValue>,
                done: string, failed: string): (s: Saved)
  {
    if problem.Some? then Saved(None, Str(Message(problem.value)), users, false)
    else if payload.None? then Saved(None, Str(failed), users, false)
    else if written.Some? then Saved(payload, ServerErrorOr(written.value, failed), users, false)
    else if reloaded.Failed? then Saved(payload, ServerErrorOr(reloaded.error, failed), users, false)
    else Saved(payload, Str(done), reloaded.value, true)
  }

  /**
   * A failed check sends nothing and shows its message. Otherwise the body is sent (unless
   * `.trim()` threw first); the dialog closes only after the write and the reload both
   * succeed, and only then does the list change; every failure shows the server's error or
   * the fallback.
   */
  lemma SaveCases(problem: Option<Problem>, payload: Option<Object>, written: Option<ClientError>,
                  reloaded: Reply<seq<JsValue>>, message: JsValue, users: seq<JsValue>, done: string, failed: string)
    ensures var s := Save(problem, payload, written, reloaded, message, users, done, failed);
      && (problem.Some? ==> s == Saved(None, Str(Message(problem.value)), users, false))
      && (problem.None? ==> s.request == payload)
      && (s.close <==> problem.None? && payload.Some? && written.None? && reloaded.Done?)
      && (s.close ==> s.message == Str(done) && s.users == reloaded.value)
      && (!s.close ==> s.users == users)
      && (problem.None? && payload.None? ==> s.message == Str(failed))
      && (problem.None? && payload.Some? && written.Some? ==> s.message == ServerErrorOr(written.value, failed))
  {
  }

  /** handleEditSave's save: nothing at all without an editing user, otherwise the edit dialog's checks and body. */
  function EditSaved(user: JsValue, form: UserForm, written: Option<ClientError>, reloaded: Reply<seq<JsValue>>,
                     message: JsValue, users: seq<JsValue>): Saved
  {
    if !Truthy(user) then Saved(None, message, users, false)
    else Save(ValidateEdit(form), Payload(form, false), written, reloaded, message, users,
              "User updated successfully.", "Failed to update user.")
  }

  /** handleAddSave's save: the add dialog's checks, and a body carrying the password. */
  function AddSaved(form: UserForm, written: Option<ClientError>, reloaded: Reply<seq<JsValue>>,
                    message: JsValue, users: seq<JsValue>): Saved
  {
    Save(ValidateAdd(form), Payload(form, true), written, reloaded, message, users,
         "User created successfully.", "Failed to create user.")
  }

  /** Without an editing user the edit save sends nothing and changes nothing. */
  lemma EditSavedNeedsUser(user: JsValue, form: UserForm, written: Option<ClientError>, reloaded: Reply<seq<JsValue>>,
                           message: JsValue, users: seq<JsValue>)
    requires !Truthy(user)
    ensures EditSaved(user, form, written, reloaded, message, users) == Saved(None, message, users, false)
  {
  }

  /** A valid edit form sends its body, which carries no password. */
  lemma EditSavedSendsNoPassword(user: JsValue, form: UserForm, written: Option<ClientError>, reloaded: Reply<seq<JsValue>>,
                                 message: JsValue, users: seq<JsValue>)
    requires Truthy(user) && ValidateEdit(form).None? && form.firstName.Str? && form.lastName.Str?
    ensures var request := EditSaved(user, form, written, reloaded, message, users).request;
      request.Some? && Prop(request.value, "password") == Undefined
  {
    var p := Payload(form, false);
    assert EditSaved(user, form, written, reloaded, message, users).request == p;
    PayloadTrimmed(form, false);
  }

  /** A valid add form sends its body with the password as typed. */
  lemma AddSavedSendsPassword(form: UserForm, written: Option<ClientError>, reloaded: Reply<seq<JsValue>>,
                              message: JsValue, users: seq<JsValue>)
    requires ValidateAdd(form).None? && form.firstName.Str? && form.lastName.Str?
    ensures var request := AddSaved(form, written, reloaded, message, users).request;
      request.Some? && Prop(request.value, "password") == form.password
  {
    var p := Payload(form, true);
    assert AddSaved(form, written, reloaded, message, users).request == p;
    PayloadTrimmed(form, true);
  }

  class AdminUsersPage {
    var users: seq<JsValue>
    var message: JsValue
    var showEdit: bool
    var editingUser: JsValue
    var showAdd: bool
    var addForm: UserForm
    var editForm: UserForm

    constructor ()
      ensures users == [] && message == Str("") && !showEdit && editingUser == Null && !showAdd
      ensures addForm == BlankForm && editForm == BlankForm.(password := Undefined)
    {
      users, message, showEdit, editingUser, showAdd := [], Str(""), false, Null, false;
      addForm, editForm := BlankForm, BlankForm.(password := Undefined);
    }

    /** openEdit: the dialog opens on the user, with its values copied and defaulted. */
    method OpenEdit(user: JsValue)
      modifies this`editingUser, this`editForm, this`showEdit
      ensures editingUser == user && editForm == EditFormOf(user) && showEdit
    {
      editingUser, editForm, showEdit := user, EditFormOf(user), true;
    }

    /** openAdd: the add dialog opens on a blank form. */
    method OpenAdd()
      modifies this`addForm, this`showAdd
      ensures addForm == BlankForm && showAdd
    {
      addForm, showAdd := BlankForm, true;
    }

    method CloseEdit()
      modifies this`showEdit, this`editingUser
      ensures !showEdit && editingUser == Null
    {
      showEdit, editingUser := false, Null;
    }

    /**
     * handleEditSave, as `EditSaved` states it: the body is patched onto the editing user's
     * id, and the dialog closes only once the save is complete.
     */
    method EditSave(written: Option<ClientError>, reloaded: Reply<seq<JsValue>>)
      returns (request: Option<(JsValue, Object)>)
      modifies this`users, this`message, this`showEdit, this`editingUser
      ensures var saved := EditSaved(old(editingUser), old(editForm), written, reloaded, old(message), old(users));
        && request == (if saved.request.Some? then Some((Field(old(editingUser), "id"), saved.request.value)) else None)
        && message == saved.message && users == saved.users
        && (saved.close ==> !showEdit && editingUser == Null)
        && (!saved.close ==> showEdit == old(showEdit) && editingUser == old(editingUser))
    {
      var saved := EditSaved(editingUser, editForm, written, reloaded, message, users);
      request := if saved.request.Some? then Some((Field(editingUser, "id"), saved.request.value)) else None;
      message, users := saved.message, saved.users;
      if saved.close {
        CloseEdit();
      }
    }

    /** handleAddSave: the save runs on the add form's checks and body, with no user needed. */
    method AddSave(written: Option<ClientError>, reloaded: Reply<seq<JsValue>>)
      returns (request: Option<Object>)
      modifies this`users, this`message, this`showAdd
      ensures var saved := AddSaved(old(addForm), written, reloaded, old(message), old(users));
        && request == saved.request && message == saved.message && users == saved.users
        && showAdd == (if saved.close then false else old(showAdd))
    {
      var saved := AddSaved(addForm, written, reloaded, message, users);
      request, message, users := saved.request, saved.message, saved.users;
      if saved.close {
        showAdd := false;
      }
    }
  }
}
