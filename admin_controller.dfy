/**
 * backend/src/controllers/adminController.js: the admin handlers that validate and write.
 * Every handler runs its checks in a fixed order, answers 400 on the first that fails without
 * touching the store, performs its writes, and only then appends its audit entry. A failure of
 * the store is the `fault` of the request: its queries are counted from 0.
 */
module AdminController {
  import opened Wrappers
  import opened Text
  import opened JsValues
  import opened Email
  import opened Store
  import opened Http
  import opened SqlUpdate
  import opened AdminModel

  /** `{ first_name, last_name, email, role, status } = req.body || {}`. */
  function Body(req: Request): JsValue {
    Or(req.body, Obj([]))
  }

  /** A present name that is falsy or blank after `String(...).trim()`. */
  predicate NameBad(v: JsValue) {
    v != Undefined && (!Truthy(v) || IsBlank(ToStr(v)))
  }

  predicate EmailBad(v: JsValue) {
    v != Undefined && (Trim(ToStr(v)) == "" || !IsValidEmail(Trim(ToStr(v))))
  }

  /** `['user', 'admin'].includes(role)`: strict equality. */
  predicate KnownRole(v: JsValue) {
    v == Str("user") || v == Str("admin")
  }

  predicate KnownStatus(v: JsValue) {
    v == Str("active") || v == Str("disabled")
  }

  /** The five fields updateUserDetails reads. */
  predicate DetailField(c: string) {
    c == "first_name" || c == "last_name" || c == "email" || c == "role" || c == "status"
  }

  /** `if (present) o[key] = v`. */
  function SetIf(o: Object, present: bool, key: string, v: JsValue): Object {
    if present then SetProp(o, key, v) else o
  }

  /** `String(v).trim()`. */
  function Trimmed(v: JsValue): JsValue {
    Str(Trim(ToStr(v)))
  }

  /** The trimmed value of a present field; an absent one stays undefined. */
  function TrimmedIfPresent(v: JsValue): JsValue {
    if v == Undefined then Undefined else Trimmed(v)
  }

  /** `updates`, built from the values to store: each defined one is set, in this order. */
  function UpdatesOf(first: JsValue, last: JsValue, email: JsValue, role: JsValue, status: JsValue): Object {
    var u1 := SetIf([], first != Undefined, "first_name", first);
    var u2 := SetIf(u1, last != Undefined, "last_name", last);
    var u3 := SetIf(u2, email != Undefined, "email", email);
    var u4 := SetIf(u3, role != Undefined, "role", role);
    SetIf(u4, status != Undefined, "status", status)
  }

  /** The `updates` object: the present fields, the names and the email trimmed. */
  function DetailUpdates(body: JsValue): Object {
    UpdatesOf(TrimmedIfPresent(Field(body, "first_name")), TrimmedIfPresent(Field(body, "last_name")),
      TrimmedIfPresent(Field(body, "email")), Field(body, "role"), Field(body, "status"))
  }

  /** Each of the five keys holds its value. */
  lemma UpdatesOfHolds(first: JsValue, last: JsValue, email: JsValue, role: JsValue, status: JsValue)
    ensures var u := UpdatesOf(first, last, email, role, status);
      && Prop(u, "first_name") == first && Prop(u, "last_name") == last && Prop(u, "email") == email
      && Prop(u, "role") == role && Prop(u, "status") == status
  {
    UpdatesOfFirst(first, last, email, role, status);
    UpdatesOfLast(first, last, email, role, status);
    UpdatesOfEmail(first, last, email, role, status);
    UpdatesOfRole(first, last, email, role, status);
    UpdatesOfStatus(first, last, email, role, status);
  }

  /** Setting another key, or nothing, leaves c as it was. */
  lemma SetIfOther(o: Object, present: bool, key: string, v: JsValue, c: string)
    requires !present || c != key
    ensures Prop(SetIf(o, present, key, v), c) == Prop(o, c)
  {
  }

  /** Setting c when v is defined, or nothing when it is not, on an object without c gives v. */
  lemma SetIfSame(o: Object, key: string, v: JsValue)
    requires Prop(o, key) == Undefined
    ensures Prop(SetIf(o, v != Undefined, key, v), key) == v
  {
  }

  lemma UpdatesOfFirst(first: JsValue, last: JsValue, email: JsValue, role: JsValue, status: JsValue)
    ensures Prop(UpdatesOf(first, last, email, role, status), "first_name") == first
  {
    var u0: Object := [];
    var u1 := SetIf(u0, first != Undefined, "first_name", first);
    var u2 := SetIf(u1, last != Undefined, "last_name", last);
    var u3 := SetIf(u2, email != Undefined, "email", email);
    var u4 := SetIf(u3, role != Undefined, "role", role);
    SetIfSame(u0, "first_name", first);
    SetIfOther(u1, last != Undefined, "last_name", last, "first_name");
    SetIfOther(u2, email != Undefined, "email", email, "first_name");
    SetIfOther(u3, role != Undefined, "role", role, "first_name");
    SetIfOther(u4, status != Undefined, "status", status, "first_name");
  }

  lemma UpdatesOfLast(first: JsValue, last: JsValue, email: JsValue, role: JsValue, status: JsValue)
    ensures Prop(UpdatesOf(first, last, email, role, status), "last_name") == last
  {
    var u0: Object := [];
    var u1 := SetIf(u0, first != Undefined, "first_name", first);
    var u2 := SetIf(u1, last != Undefined, "last_name", last);
    var u3 := SetIf(u2, email != Undefined, "email", email);
    var u4 := SetIf(u3, role != Undefined, "role", role);
    SetIfOther(u0, first != Undefined, "first_name", first, "last_name");
    SetIfSame(u1, "last_name", last);
    SetIfOther(u2, email != Undefined, "email", email, "last_name");
    SetIfOther(u3, role != Undefined, "role", role, "last_name");
    SetIfOther(u4, status != Undefined, "status", status, "last_name");
  }

  lemma UpdatesOfEmail(first: JsValue, last: JsValue, email: JsValue, role: JsValue, status: JsValue)
    ensures Prop(UpdatesOf(first, last, email, role, status), "email") == email
  {
    var u0: Object := [];
    var u1 := SetIf(u0, first != Undefined, "first_name", first);
    var u2 := SetIf(u1, last != Undefined, "last_name", last);
    var u3 := SetIf(u2, email != Undefined, "email", email);
    var u4 := SetIf(u3, role != Undefined, "role", role);
    SetIfOther(u0, first != Undefined, "first_name", first, "email");
    SetIfOther(u1, last != Undefined, "last_name", last, "email");
    SetIfSame(u2, "email", email);
    SetIfOther(u3, role != Undefined, "role", role, "email");
    SetIfOther(u4, status != Undefined, "status", status, "email");
  }

  lemma UpdatesOfRole(first: JsValue, last: JsValue, email: JsValue, role: JsValue, status: JsValue)
    ensures Prop(UpdatesOf(first, last, email, role, status), "role") == role
  {
    var u0: Object := [];
    var u1 := SetIf(u0, first != Undefined, "first_name", first);
    var u2 := SetIf(u1, last != Undefined, "last_name", last);
    var u3 := SetIf(u2, email != Undefined, "email", email);
    var u4 := SetIf(u3, role != Undefined, "role", role);
    SetIfOther(u0, first != Undefined, "first_name", first, "role");
    SetIfOther(u1, last != Undefined, "last_name", last, "role");
    SetIfOther(u2, email != Undefined, "email", email, "role");
    SetIfSame(u3, "role", role);
    SetIfOther(u4, status != Undefined, "status", status, "role");
  }

  lemma UpdatesOfStatus(first: JsValue, last: JsValue, email: JsValue, role: JsValue, status: JsValue)
    ensures Prop(UpdatesOf(first, last, email, role, status), "status") == status
  {
    var u0: Object := [];
    var u1 := SetIf(u0, first != Undefined, "first_name", first);
    var u2 := SetIf(u1, last != Undefined, "last_name", last);
    var u3 := SetIf(u2, email != Undefined, "email", email);
    var u4 := SetIf(u3, role != Undefined, "role", role);
    SetIfOther(u0, first != Undefined, "first_name", first, "status");
    SetIfOther(u1, last != Undefined, "last_name", last, "status");
    SetIfOther(u2, email != Undefined, "email", email, "status");
    SetIfOther(u3, role != Undefined, "role", role, "status");
    SetIfSame(u4, "status", status);
  }

  /** No other key is set. */
  lemma UpdatesOfNothingElse(first: JsValue, last: JsValue, email: JsValue, role: JsValue, status: JsValue, c: string)
    requires !DetailField(c)
    ensures Prop(UpdatesOf(first, last, email, role, status), c) == Undefined
  {
  }

  /** Every entry of `updates` is defined. */
  lemma UpdatesOfDefined(first: JsValue, last: JsValue, email: JsValue, role: JsValue, status: JsValue)
    ensures AllDefined(UpdatesOf(first, last, email, role, status))
  {
    var u1 := SetIf([], first != Undefined, "first_name", first);
    var u2 := SetIf(u1, last != Undefined, "last_name", last);
    var u3 := SetIf(u2, email != Undefined, "email", email);
    var u4 := SetIf(u3, role != Undefined, "role", role);
    if first != Undefined { SetPropDefined([], "first_name", first); }
    if last != Undefined { SetPropDefined(u1, "last_name", last); }
    if email != Undefined { SetPropDefined(u2, "email", email); }
    if role != Undefined { SetPropDefined(u3, "role", role); }
    if status != Undefined { SetPropDefined(u4, "status", status); }
  }

  /** The checks of updateUserDetails; the first failing one alone decides the message. */
  function ValidateDetails(body: JsValue): (r: Result<Object>)
    ensures r.Err? && r.error.message == "First name is required" <==> NameBad(Field(body, "first_name"))
    ensures r.Err? && r.error.message == "Last name is required" <==>
      !NameBad(Field(body, "first_name")) && NameBad(Field(body, "last_name"))
    ensures r.Err? && r.error.message == "Valid email is required" <==>
      !NameBad(Field(body, "first_name")) && !NameBad(Field(body, "last_name")) && EmailBad(Field(body, "email"))
    ensures r.Err? && r.error.message == "Invalid role" <==>
      (&& !NameBad(Field(body, "first_name")) && !NameBad(Field(body, "last_name"))
       && !EmailBad(Field(body, "email"))
       && Field(body, "role") != Undefined && !KnownRole(Field(body, "role")))
    ensures r.Err? && r.error.message == "Invalid status" <==>
      (&& !NameBad(Field(body, "first_name")) && !NameBad(Field(body, "last_name"))
       && !EmailBad(Field(body, "email"))
       && (Field(body, "role") == Undefined || KnownRole(Field(body, "role")))
       && Field(body, "status") != Undefined && !KnownStatus(Field(body, "status")))
    ensures r.Ok? ==> r.value == DetailUpdates(body)
  {
    var first, last, email := Field(body, "first_name"), Field(body, "last_name"), Field(body, "email");
    var role, status := Field(body, "role"), Field(body, "status");
    if NameBad(first) then Err(Error("", "First name is required"))
    else if NameBad(last) then Err(Error("", "Last name is required"))
    else if EmailBad(email) then Err(Error("", "Valid email is required"))
    else if role != Undefined && !KnownRole(role) then Err(Error("", "Invalid role"))
    else if status != Undefined && !KnownStatus(status) then Err(Error("", "Invalid status"))
    else Ok(DetailUpdates(body))
  }

  /** The catch of the user updates: MISSING_COLUMNS is a 400 with its message, the rest a 500. */
  function CatchUpdate(e: Error, message: string): (r: Response)
    ensures e.code == "MISSING_COLUMNS" ==> r == Fail(400, e.message)
    ensures e.code != "MISSING_COLUMNS" ==> r == Fail(500, message)
  {
    if e.code == "MISSING_COLUMNS" then Fail(400, e.message) else Fail(500, message)
  }

  function Audit(req: Request, action: string, details: JsValue): AuditEntry {
    AuditRow(req.userId, action, details, req.ip, req.userAgent)
  }

  /** The update, then its audit entry, then the success message; the first failure is caught. */
  function UpdateThenAudit(req: Request, db: Db, fault: Fault, updates: Object, action: string,
                           details: JsValue, ok: string, failure: string): (r: (Response, Db))
  {
    var (d1, e1) := UpdateUser(db, req.id, updates, fault.At(0));
    if e1.Some? then (CatchUpdate(e1.value, failure), d1)
    else
      var (d2, e2) := AddAuditLog(d1, Audit(req, action, details), fault.At(1));
      if e2.Some? then (CatchUpdate(e2.value, failure), d2)
      else (Response(200, MessageJson(ok)), d2)
  }

  /** updateUserDetails. */
  function UpdateUserDetails(req: Request, db: Db, fault: Fault): (r: (Response, Db))
  {
    match ValidateDetails(Body(req))
    case Err(e) => (Fail(400, e.message), db)
    case Ok(updates) =>
      if updates == [] then (Fail(400, "No valid fields provided"), db)
      else UpdateThenAudit(req, db, fault, updates, "user_update",
        Obj([("userId", req.id), ("updates", Obj(updates))]), "User updated", "Failed to update user")
  }

  /** Only the fields present in the body are written, the names and the email trimmed. */
  lemma DetailUpdatesOnlyPresent(body: JsValue)
    ensures var u := DetailUpdates(body);
      && Prop(u, "first_name") == TrimmedIfPresent(Field(body, "first_name"))
      && Prop(u, "last_name") == TrimmedIfPresent(Field(body, "last_name"))
      && Prop(u, "email") == TrimmedIfPresent(Field(body, "email"))
      && Prop(u, "role") == Field(body, "role")
      && Prop(u, "status") == Field(body, "status")
      && (forall c | !DetailField(c) :: Prop(u, c) == Undefined)
  {
    var first, last, email := TrimmedIfPresent(Field(body, "first_name")), TrimmedIfPresent(Field(body, "last_name")),
      TrimmedIfPresent(Field(body, "email"));
    var role, status := Field(body, "role"), Field(body, "status");
    UpdatesOfHolds(first, last, email, role, status);
    forall c | !DetailField(c) ensures Prop(UpdatesOf(first, last, email, role, status), c) == Undefined {
      UpdatesOfNothingElse(first, last, email, role, status, c);
    }
  }

  /** A trimmed present name that passed its check is a non-blank string with nothing to trim. */
  lemma TrimmedNameClean(v: JsValue)
    requires !NameBad(v) && v != Undefined
    ensures TrimmedIfPresent(v).Str? && !IsBlank(TrimmedIfPresent(v).s)
    ensures Trim(TrimmedIfPresent(v).s) == TrimmedIfPresent(v).s
  {
    TrimIdempotent(ToStr(v));
  }

  /** An accepted body gives non-blank trimmed names, a valid trimmed email and a known role and status. */
  lemma AcceptedDetailsAreClean(body: JsValue)
    requires ValidateDetails(body).Ok?
    ensures var u := DetailUpdates(body);
      && (Prop(u, "first_name") != Undefined ==>
            (Prop(u, "first_name").Str? && !IsBlank(Prop(u, "first_name").s)
             && Trim(Prop(u, "first_name").s) == Prop(u, "first_name").s))
      && (Prop(u, "last_name") != Undefined ==>
            (Prop(u, "last_name").Str? && !IsBlank(Prop(u, "last_name").s)
             && Trim(Prop(u, "last_name").s) == Prop(u, "last_name").s))
      && (Prop(u, "email") != Undefined ==> (Prop(u, "email").Str? && IsValidEmail(Prop(u, "email").s)))
      && (Prop(u, "role") != Undefined ==> KnownRole(Prop(u, "role")))
      && (Prop(u, "status") != Undefined ==> KnownStatus(Prop(u, "status")))
  {
    DetailUpdatesOnlyPresent(body);
    if Field(body, "first_name") != Undefined { TrimmedNameClean(Field(body, "first_name")); }
    if Field(body, "last_name") != Undefined { TrimmedNameClean(Field(body, "last_name")); }
  }

  /** A body with none of the five fields is refused and nothing is written. */
  lemma NoFieldsRefused(req: Request, db: Db, fault: Fault)
    requires Field(Body(req), "first_name") == Undefined && Field(Body(req), "last_name") == Undefined
    requires Field(Body(req), "email") == Undefined && Field(Body(req), "role") == Undefined
    requires Field(Body(req), "status") == Undefined
    ensures UpdateUserDetails(req, db, fault) == (Fail(400, "No valid fields provided"), db)
  {
  }

  /** Every updated value is defined, so updateUser issues its query. */
  lemma DetailUpdatesDefined(body: JsValue, id: JsValue)
    requires DetailUpdates(body) != []
    ensures BuildUpdate(DetailUpdates(body), id).Some?
  {
    var u := DetailUpdates(body);
    UpdatesOfDefined(TrimmedIfPresent(Field(body, "first_name")), TrimmedIfPresent(Field(body, "last_name")),
      TrimmedIfPresent(Field(body, "email")), Field(body, "role"), Field(body, "status"));
    assert Prop(u, u[0].0) == u[0].1;
    NoQueryWhenAllUndefined(u, id);
  }

  /**
   * The audit entry is appended exactly when the handler answers 200; a failed update leaves
   * the audit log as it was and, when the audit insert did not fail, the users too.
   */
  lemma UpdateThenAuditOrder(req: Request, db: Db, fault: Fault, updates: Object, action: string,
                             details: JsValue, ok: string, failure: string)
    ensures var (resp, d) := UpdateThenAudit(req, db, fault, updates, action, details, ok, failure);
      && (resp.status == 200 <==> d.audit == db.audit + [Audit(req, action, details)])
      && (resp.status != 200 ==> d.audit == db.audit)
      && (resp.status == 200 ==> resp.body == MessageJson(ok))
      && (resp.status != 200 && fault.At(1).None? ==> d == db)
  {
  }

  /** For updateUserDetails: a refusal writes nothing, and the audit entry follows only a 200. */
  lemma UpdateUserDetailsAudit(req: Request, db: Db, fault: Fault)
    ensures var (resp, d) := UpdateUserDetails(req, db, fault);
      && (resp.status == 200 <==> d.audit == db.audit + [Audit(req, "user_update",
            Obj([("userId", req.id), ("updates", Obj(DetailUpdates(Body(req))))]))])
      && (resp.status != 200 ==> d.audit == db.audit)
      && (ValidateDetails(Body(req)).Err? ==> resp.status == 400 && d == db)
  {
    if ValidateDetails(Body(req)).Ok? && DetailUpdates(Body(req)) != [] {
      UpdateThenAuditOrder(req, db, fault, DetailUpdates(Body(req)), "user_update",
        Obj([("userId", req.id), ("updates", Obj(DetailUpdates(Body(req))))]), "User updated", "Failed to update user");
    }
  }

  /** Which store failure answers what: MISSING_COLUMNS is a 400, every other failure a 500. */
  lemma UpdateUserDetailsFailures(req: Request, db: Db, e: Error)
    requires ValidateDetails(Body(req)).Ok? && DetailUpdates(Body(req)) != []
    ensures e.code == BadFieldCode ==>
      UpdateUserDetails(req, db, FailAt(0, e)).0 == Fail(400, MissingColumns.message)
    ensures e.code != BadFieldCode && e.code != "MISSING_COLUMNS" ==>
      UpdateUserDetails(req, db, FailAt(0, e)) == (Fail(500, "Failed to update user"), db)
  {
    DetailUpdatesDefined(Body(req), req.id);
    UpdateUserErrors(db, req.id, DetailUpdates(Body(req)), Some(e));
  }

  /** updateUserRole and updateUserStatus: one field, which must be one of the two known values. */
  function UpdateOneField(req: Request, db: Db, fault: Fault, field: string, known: bool, invalid: string,
                          action: string, ok: string, failure: string): (r: (Response, Db))
  {
    match Destructure(req.body, field)
    case None => (Fail(500, failure), db)
    case Some(v) =>
      if !Truthy(v) || !known then (Fail(400, invalid), db)
      else UpdateThenAudit(req, db, fault, [(field, v)], action,
        Obj([("userId", req.id), (field, v)]), ok, failure)
  }

  /** An accepted truthy value is written to the user's field and audited with the user's id. */
  lemma UpdateOneFieldAccepts(req: Request, db: Db, u: int, field: string, known: bool, invalid: string,
                              action: string, ok: string, failure: string)
    requires req.body.Obj? && known && Truthy(Prop(req.body.entries, field))
    requires u in db.users && KeyMatches(req.id, u) && field in UserColumns(db)
    ensures var (resp, d) := UpdateOneField(req, db, Healthy, field, known, invalid, action, ok, failure);
      && resp == Response(200, MessageJson(ok))
      && u in d.users && field in d.users[u] && d.users[u][field] == Prop(req.body.entries, field)
      && d.audit == db.audit + [Audit(req, action, Obj([("userId", req.id), (field, Prop(req.body.entries, field))]))]
  {
    var v := Prop(req.body.entries, field);
    var fields: Object := [(field, v)];
    assert Keys(fields) == [field];
    UpdateUserSetsFields(db, u, req.id, fields);
  }

  function UpdateUserRole(req: Request, db: Db, fault: Fault): (r: (Response, Db))
  {
    var role := Destructure(req.body, "role");
    UpdateOneField(req, db, fault, "role", role.Some? && KnownRole(role.value), "Invalid role",
      "role_change", "Role updated", "Failed to update role")
  }

  function UpdateUserStatus(req: Request, db: Db, fault: Fault): (r: (Response, Db))
  {
    var status := Destructure(req.body, "status");
    UpdateOneField(req, db, fault, "status", status.Some? && KnownStatus(status.value), "Invalid status",
      "status_change", "Status updated", "Failed to update status")
  }

  /** A role outside {user, admin} is a 400 that writes nothing, audit included. */
  lemma UpdateUserRoleRejects(req: Request, db: Db, fault: Fault)
    requires req.body.Obj? && !KnownRole(Prop(req.body.entries, "role"))
    ensures UpdateUserRole(req, db, fault) == (Fail(400, "Invalid role"), db)
  {
  }

  /** A known role is written to the user and audited as a role change. */
  lemma UpdateUserRoleAccepts(req: Request, db: Db, u: int)
    requires req.body.Obj? && KnownRole(Prop(req.body.entries, "role"))
    requires u in db.users && KeyMatches(req.id, u) && "role" in UserColumns(db)
    ensures var (resp, d) := UpdateUserRole(req, db, Healthy);
      && resp == Response(200, MessageJson("Role updated"))
      && u in d.users && "role" in d.users[u] && d.users[u]["role"] == Prop(req.body.entries, "role")
      && d.audit == db.audit + [Audit(req, "role_change",
           Obj([("userId", req.id), ("role", Prop(req.body.entries, "role"))]))]
  {
    UpdateOneFieldAccepts(req, db, u, "role", Destructure(req.body, "role").Some? && KnownRole(Destructure(req.body, "role").value), "Invalid role",
      "role_change", "Role updated", "Failed to update role");
  }

  /** A status outside {active, disabled} is a 400 that writes nothing, audit included. */
  lemma UpdateUserStatusRejects(req: Request, db: Db, fault: Fault)
    requires req.body.Obj? && !KnownStatus(Prop(req.body.entries, "status"))
    ensures UpdateUserStatus(req, db, fault) == (Fail(400, "Invalid status"), db)
  {
  }

  /** A known status is written to the user and audited as a status change. */
  lemma UpdateUserStatusAccepts(req: Request, db: Db, u: int)
    requires req.body.Obj? && KnownStatus(Prop(req.body.entries, "status"))
    requires u in db.users && KeyMatches(req.id, u) && "status" in UserColumns(db)
    ensures var (resp, d) := UpdateUserStatus(req, db, Healthy);
      && resp == Response(200, MessageJson("Status updated"))
      && u in d.users && "status" in d.users[u] && d.users[u]["status"] == Prop(req.body.entries, "status")
      && d.audit == db.audit + [Audit(req, "status_change",
           Obj([("userId", req.id), ("status", Prop(req.body.entries, "status"))]))]
  {
    UpdateOneFieldAccepts(req, db, u, "status", Destructure(req.body, "status").Some? && KnownStatus(Destructure(req.body, "status").value), "Invalid status",
      "status_change", "Status updated", "Failed to update status");
  }

  /** The guards of deleteUser: `Number(id)` must be a non-zero number other than the caller's. */
  function DeleteGuard(req: Request): (r: Result<int>)
    ensures r.Ok? <==> NumberTruthy(ToNumber(req.id)) && ToNumber(req.userId) != ToNumber(req.id)
    ensures r.Ok? ==> ToNumber(req.id) == Int(r.value)
  {
    var target := ToNumber(req.id);
    if !NumberTruthy(target) then Err(Error("", "Invalid user id"))
    else if ToNumber(req.userId) == target then Err(Error("", "You cannot delete your own account"))
    else Ok(target.i)
  }

  /**
   * deleteUser as written: past its guards it calls `Admin.deleteUser`, which the admin model
   * does not export, so the call throws a TypeError without a code and the catch answers 500.
   */
  function DeleteUserAsWritten(req: Request, db: Db, fault: Fault): (r: (Response, Db))
  {
    match DeleteGuard(req)
    case Err(e) => (Fail(400, e.message), db)
    case Ok(target) => (Fail(500, "Failed to delete user"), db)
  }

  /** As written, no request deletes a user: every one that passes the guards is a 500. */
  lemma DeleteUserAsWrittenNeverDeletes(req: Request, db: Db, fault: Fault)
    ensures DeleteUserAsWritten(req, db, fault).1 == db
    ensures DeleteGuard(req).Ok? ==> DeleteUserAsWritten(req, db, fault).0 == Fail(500, "Failed to delete user")
  {
  }

  /** deleteUser with the delete it expects: NOT_FOUND is a 404, then the audit entry. */
  function DeleteUserHandler(req: Request, db: Db, fault: Fault): (r: (Response, Db))
  {
    match DeleteGuard(req)
    case Err(e) => (Fail(400, e.message), db)
    case Ok(target) =>
      var (d1, e1) := DeleteUser(db, target, fault.At(0));
      if e1.Some? then (if e1.value.code == "NOT_FOUND" then Fail(404, "User not found") else Fail(500, "Failed to delete user"), d1)
      else
        var (d2, e2) := AddAuditLog(d1, Audit(req, "user_delete", Obj([("userId", Num(target))])), fault.At(1));
        if e2.Some? then (if e2.value.code == "NOT_FOUND" then Fail(404, "User not found") else Fail(500, "Failed to delete user"), d2)
        else (Response(200, MessageJson("User deleted")), d2)
  }

  /** The three refusals and the success of the delete. */
  lemma DeleteUserCases(req: Request, db: Db)
    ensures !NumberTruthy(ToNumber(req.id)) ==> DeleteUserHandler(req, db, Healthy) == (Fail(400, "Invalid user id"), db)
    ensures NumberTruthy(ToNumber(req.id)) && ToNumber(req.userId) == ToNumber(req.id) ==>
      DeleteUserHandler(req, db, Healthy) == (Fail(400, "You cannot delete your own account"), db)
    ensures DeleteGuard(req).Ok? && DeleteGuard(req).value !in db.users ==>
      DeleteUserHandler(req, db, Healthy) == (Fail(404, "User not found"), db)
    ensures DeleteGuard(req).Ok? && DeleteGuard(req).value in db.users ==>
      var (resp, d) := DeleteUserHandler(req, db, Healthy);
      && resp == Response(200, MessageJson("User deleted"))
      && d.users.Keys == db.users.Keys - {DeleteGuard(req).value}
      && |d.audit| == |db.audit| + 1
  {
  }

  /** The keys updateSettings may persist. */
  predicate AllowedSettingKey(key: string) {
    key == "defaults" || key == "features" || key == "maintenance" || key == "security"
  }

  /** `Object.keys(value)`: an object's keys, the indexes of a string or an array, nothing otherwise. */
  function BodyKeys(v: JsValue): (ks: seq<string>)
  {
    match v
    case Obj(entries) => Keys(entries)
    case Str(s) => seq(|s|, i requires 0 <= i < |s| => NatToString(i))
    case Arr(items) => seq(|items|, i requires 0 <= i < |items| => NatToString(i))
    case _ => []
  }

  /** The settings writes from the k-th query of the request on: one per allowed key, stopping at an error. */
  function SaveSettings(db: Db, updates: JsValue, keys: seq<string>, userId: JsValue,
                        stringify: JsValue -> string, fault: Fault, k: nat): (r: (Db, Option<Error>, nat))
    ensures r.2 >= k
    decreases |keys|
  {
    if keys == [] then (db, None, k)
    else if AllowedSettingKey(keys[0]) then
      var (d, e) := UpdateSetting(db, keys[0], Field(updates, keys[0]), userId, stringify, fault.At(k));
      if e.Some? then (d, e, k + 1) else SaveSettings(d, updates, keys[1..], userId, stringify, fault, k + 1)
    else SaveSettings(db, updates, keys[1..], userId, stringify, fault, k)
  }

  function KeyList(keys: seq<string>): JsValue {
    Arr(seq(|keys|, i requires 0 <= i < |keys| => Str(keys[i])))
  }

  /** updateSettings: the writes, the audit entry listing every submitted key, then the fresh settings. */
  function UpdateSettingsResult(req: Request, db: Db, fault: Fault, stringify: JsValue -> string,
                                parse: string -> Option<JsValue>): (r: (Response, Db))
  {
    var updates := Body(req);
    var keys := BodyKeys(updates);
    var (d1, e1, k) := SaveSettings(db, updates, keys, req.userId, stringify, fault, 0);
    if e1.Some? then (Fail(500, "Failed to update settings"), d1)
    else
      var (d2, e2) := AddAuditLog(d1, Audit(req, "settings_update", Obj([("keys", KeyList(keys))])), fault.At(k));
      if e2.Some? || fault.At(k + 1).Some? then (Fail(500, "Failed to update settings"), d2)
      else (Response(200, Obj(SettingsBelow(d2.settings, parse, d2.nextSetting))), d2)
  }

  /** updateSettings: the loop over the body's keys, writing the allowed ones. */
  method UpdateSettings(req: Request, db: Db, fault: Fault, stringify: JsValue -> string,
                        parse: string -> Option<JsValue>) returns (resp: Response, d: Db)
    ensures (resp, d) == UpdateSettingsResult(req, db, fault, stringify, parse)
  {
    var updates := Body(req);
    var keys := BodyKeys(updates);
    d := db;
    var k := 0;
    var i := 0;
    while i < |keys|
      invariant 0 <= i <= |keys|
      invariant SaveSettings(db, updates, keys, req.userId, stringify, fault, 0)
        == SaveSettings(d, updates, keys[i..], req.userId, stringify, fault, k)
    {
      assert keys[i..][1..] == keys[i + 1..];
      if AllowedSettingKey(keys[i]) {
        var step := UpdateSetting(d, keys[i], Field(updates, keys[i]), req.userId, stringify, fault.At(k));
        var e := step.1;
        d := step.0;
        k := k + 1;
        if e.Some? {
          return Fail(500, "Failed to update settings"), d;
        }
      }
      i := i + 1;
    }
    var audited := AddAuditLog(d, Audit(req, "settings_update", Obj([("keys", KeyList(keys))])), fault.At(k));
    d := audited.0;
    if audited.1.Some? || fault.At(k + 1).Some? {
      return Fail(500, "Failed to update settings"), d;
    }
    resp := Response(200, Obj(SettingsBelow(d.settings, parse, d.nextSetting)));
  }

  /** Without a store failure the writes change only the settings rows, never which rows exist. */
  lemma {:induction false} SaveSettingsHealthy(db: Db, updates: JsValue, keys: seq<string>, userId: JsValue,
                                               stringify: JsValue -> string, k: nat)
    ensures var (d, e, n) := SaveSettings(db, updates, keys, userId, stringify, Healthy, k);
      e.None? && d.settings.Keys == db.settings.Keys && d == db.(settings := d.settings)
    decreases |keys|
  {
    if keys != [] {
      if AllowedSettingKey(keys[0]) {
        var (d1, e1) := UpdateSetting(db, keys[0], Field(updates, keys[0]), userId, stringify, None);
        UpdateSettingOnlyThatKey(db, keys[0], Field(updates, keys[0]), userId, stringify);
        SaveSettingsHealthy(d1, updates, keys[1..], userId, stringify, k + 1);
      } else {
        SaveSettingsHealthy(db, updates, keys[1..], userId, stringify, k);
      }
    }
  }

  /** What settings row `id` holds after the writes of `keys`, when no store failure occurs. */
  predicate SavedRow(before: Setting, after: Setting, keys: seq<string>, updates: JsValue, stringify: JsValue -> string) {
    if AllowedSettingKey(before.key) && before.key in keys then
      after.key == before.key && after.value == stringify(Field(updates, before.key))
    else after == before
  }

  /** One write, then the rest: the row's fate under all the keys. */
  lemma SavedRowStep(before: Setting, mid: Setting, after: Setting, keys: seq<string>, updates: JsValue,
                     stringify: JsValue -> string)
    requires keys != []
    requires AllowedSettingKey(keys[0]) && before.key == keys[0] ==>
      mid.key == before.key && mid.value == stringify(Field(updates, keys[0]))
    requires !(AllowedSettingKey(keys[0]) && before.key == keys[0]) ==> mid == before
    requires SavedRow(mid, after, keys[1..], updates, stringify)
    ensures SavedRow(before, after, keys, updates, stringify)
  {
    assert keys == [keys[0]] + keys[1..];
  }

  /** One key of the save: only the row of an allowed key changes, and only in its value. */
  lemma SaveSettingStep(db: Db, updates: JsValue, key: string, userId: JsValue, stringify: JsValue -> string, id: int)
    requires id in db.settings
    ensures var mid := if AllowedSettingKey(key)
        then UpdateSetting(db, key, Field(updates, key), userId, stringify, None).0 else db;
      && id in mid.settings
      && (AllowedSettingKey(key) && db.settings[id].key == key ==>
            mid.settings[id].key == db.settings[id].key && mid.settings[id].value == stringify(Field(updates, key)))
      && (!(AllowedSettingKey(key) && db.settings[id].key == key) ==> mid.settings[id] == db.settings[id])
  {
    if AllowedSettingKey(key) {
      UpdateSettingOnlyThatKey(db, key, Field(updates, key), userId, stringify);
    }
  }

  /**
   * Without a store failure, a settings row whose key is not allowed, or not submitted, keeps
   * its value; an allowed submitted key's row takes the serialised submitted value.
   */
  lemma {:induction false} SaveSettingsRow(db: Db, updates: JsValue, keys: seq<string>, userId: JsValue,
                                           stringify: JsValue -> string, k: nat, id: int)
    requires id in db.settings
    ensures id in SaveSettings(db, updates, keys, userId, stringify, Healthy, k).0.settings
    ensures SavedRow(db.settings[id], SaveSettings(db, updates, keys, userId, stringify, Healthy, k).0.settings[id],
                     keys, updates, stringify)
    decreases |keys|
  {
    if keys != [] {
      var rest := keys[1..];
      var mid := if AllowedSettingKey(keys[0])
        then UpdateSetting(db, keys[0], Field(updates, keys[0]), userId, stringify, None).0 else db;
      var n := if AllowedSettingKey(keys[0]) then k + 1 else k;
      assert SaveSettings(db, updates, keys, userId, stringify, Healthy, k)
        == SaveSettings(mid, updates, rest, userId, stringify, Healthy, n);
      var before := db.settings[id];
      SaveSettingStep(db, updates, keys[0], userId, stringify, id);
      SaveSettingsRow(mid, updates, rest, userId, stringify, n, id);
      SavedRowStep(before, mid.settings[id],
        SaveSettings(mid, updates, rest, userId, stringify, Healthy, n).0.settings[id], keys, updates, stringify);
    }
  }

  lemma SaveSettingsOnlyAllowed(db: Db, updates: JsValue, keys: seq<string>, userId: JsValue,
                                stringify: JsValue -> string, k: nat)
    ensures var d := SaveSettings(db, updates, keys, userId, stringify, Healthy, k).0;
      forall id | id in db.settings :: id in d.settings && SavedRow(db.settings[id], d.settings[id], keys, updates, stringify)
  {
    forall id | id in db.settings
      ensures var d := SaveSettings(db, updates, keys, userId, stringify, Healthy, k).0;
        id in d.settings && SavedRow(db.settings[id], d.settings[id], keys, updates, stringify)
    {
      SaveSettingsRow(db, updates, keys, userId, stringify, k, id);
    }
  }

  /** Without a store failure the audit entry lists every submitted key, ignored ones included. */
  lemma UpdateSettingsAuditsAllKeys(req: Request, db: Db, stringify: JsValue -> string,
                                    parse: string -> Option<JsValue>)
    ensures var (resp, d) := UpdateSettingsResult(req, db, Healthy, stringify, parse);
      && resp.status == 200 && d.settings.Keys == db.settings.Keys
      && d.audit == db.audit + [Audit(req, "settings_update", Obj([("keys", KeyList(BodyKeys(Body(req))))]))]
      && (forall id | id in db.settings && !AllowedSettingKey(db.settings[id].key) :: d.settings[id] == db.settings[id])
  {
    SaveSettingsHealthy(db, Body(req), BodyKeys(Body(req)), req.userId, stringify, 0);
    SaveSettingsOnlyAllowed(db, Body(req), BodyKeys(Body(req)), req.userId, stringify, 0);
  }

  /** addIpRule: a truthy ip and a type of allow or deny, then the insert and its audit entry. */
  function AddIpRuleHandler(req: Request, db: Db, fault: Fault): (r: (Response, Db))
  {
    match (Destructure(req.body, "ip"), Destructure(req.body, "type"), Destructure(req.body, "description"))
    case (Some(ip), Some(ruleType), Some(description)) =>
      if !Truthy(ip) || !Truthy(ruleType) || (ruleType != Str("allow") && ruleType != Str("deny")) then
        (Fail(400, "Invalid IP rule"), db)
      else
        var (d1, r1) := AddIpRule(db, ip, ruleType, description, req.userId, fault.At(0));
        if r1.Err? then (Fail(500, "Failed to add IP rule"), d1)
        else
          var details := Obj([("id", Num(r1.value)), ("ip", ip), ("type", ruleType)]);
          var (d2, e2) := AddAuditLog(d1, Audit(req, "ip_rule_add", details), fault.At(1));
          if e2.Some? then (Fail(500, "Failed to add IP rule"), d2)
          else (Response(201, Obj([("id", Num(r1.value))])), d2)
    case _ => (Fail(500, "Failed to add IP rule"), db)
  }

  /** A rule is added exactly when ip is truthy and type is allow or deny; it answers 201 with the new id. */
  lemma AddIpRuleCases(req: Request, db: Db)
    requires req.body.Obj?
    ensures var ip, ruleType := Prop(req.body.entries, "ip"), Prop(req.body.entries, "type");
      var (resp, d) := AddIpRuleHandler(req, db, Healthy);
      && (resp.status == 201 <==> Truthy(ip) && (ruleType == Str("allow") || ruleType == Str("deny")))
      && (resp.status != 201 ==> resp == Fail(400, "Invalid IP rule") && d == db)
      && (resp.status == 201 ==>
            && resp.body == Obj([("id", Num(db.nextRule))])
            && d.ipRules[db.nextRule].ip == ip && d.ipRules[db.nextRule].ruleType == ruleType
            && |d.audit| == |db.audit| + 1)
  {
  }
}
