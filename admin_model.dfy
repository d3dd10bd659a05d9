/**
 * backend/src/models/adminModel.js: user updates against the users schema, the session
 * counter, the audit log, system settings and IP rules.
 */
module AdminModel {
  import opened Wrappers
  import opened Text
  import opened JsValues
  import opened Store
  import opened SqlUpdate

  const BadFieldCode := "ER_BAD_FIELD_ERROR"

  /** The error updateUser throws in place of a bad-field error. */
  const MissingColumns := Error("MISSING_COLUMNS", "Missing user columns. Run DB setup to add role/status fields.")

  function UserColumns(db: Db): set<string> {
    if "users" in db.columns then db.columns["users"] else {}
  }

  /** A column of a row; a column the row lacks reads as NULL. */
  function Col(row: Row, c: string): JsValue {
    if c in row then row[c] else Null
  }

  /** The first of the keys that is not a column, if any. */
  function FirstUnknown(keys: seq<string>, columns: set<string>): (r: Option<string>)
    ensures r.Some? ==> r.value in keys && r.value !in columns
    ensures r.None? ==> forall k | k in keys :: k in columns
  {
    if keys == [] then None
    else if keys[0] !in columns then Some(keys[0])
    else FirstUnknown(keys[1..], columns)
  }

  function UnknownColumn(c: string): Error {
    Error(BadFieldCode, "Unknown column '" + c + "' in 'field list'")
  }

  /** updateUser: nothing when no field is defined; a bad-field error becomes MISSING_COLUMNS. */
  function UpdateUser(db: Db, userId: JsValue, fields: Object, err: Option<Error>): (r: (Db, Option<Error>))
    ensures r.1.Some? ==> r.0 == db
    ensures r.0.audit == db.audit
  {
    match BuildUpdate(fields, userId)
    case None => (db, None)
    case Some(statement) =>
      var keys := DefinedKeys(fields, Keys(fields));
      var failure :=
        if err.Some? then err
        else match FirstUnknown(keys, UserColumns(db))
          case Some(c) => Some(UnknownColumn(c))
          case None => None;
      if failure.Some? then (db, Some(if failure.value.code == BadFieldCode then MissingColumns else failure.value))
      else match Lookup(db.users, userId)
        case Some(u) => (db.(users := db.users[u := ApplyAssignments(db.users[u], keys, statement.1)]), None)
        case None => (db, None)
  }

  /** With every field undefined no query is issued, so nothing changes and nothing fails. */
  lemma UpdateUserNothingDefined(db: Db, userId: JsValue, fields: Object, err: Option<Error>)
    requires forall k | 0 <= k < |fields| :: fields[k].1 == Undefined
    ensures UpdateUser(db, userId, fields, err) == (db, None)
  {
    forall k | 0 <= k < |fields| ensures Prop(fields, fields[k].0) == Undefined {
      PropShape(fields, fields[k].0);
    }
    NoQueryWhenAllUndefined(fields, userId);
  }

  /** Failures: a defined field that is not a users column, or any bad-field error, is MISSING_COLUMNS;
      every other error is thrown as it is. No row changes in either case. */
  lemma UpdateUserErrors(db: Db, userId: JsValue, fields: Object, err: Option<Error>)
    requires BuildUpdate(fields, userId).Some?
    ensures var (d, e) := UpdateUser(db, userId, fields, err);
      && (err.Some? && err.value.code == BadFieldCode ==> e == Some(MissingColumns) && d == db)
      && (err.Some? && err.value.code != BadFieldCode ==> e == err && d == db)
      && ((err.None? && exists c | c in Keys(fields) :: Prop(fields, c) != Undefined && c !in UserColumns(db))
          ==> e == Some(MissingColumns) && d == db)
      && ((err.None? && forall c | c in Keys(fields) && Prop(fields, c) != Undefined :: c in UserColumns(db))
          ==> e.None?)
  {
    DefinedKeysExact(fields);
  }

  /** A successful update gives the user's row every defined field and changes no other user. */
  lemma UpdateUserSetsFields(db: Db, u: int, userId: JsValue, fields: Object)
    requires u in db.users && KeyMatches(userId, u)
    requires forall c | c in Keys(fields) && Prop(fields, c) != Undefined :: c in UserColumns(db)
    requires BuildUpdate(fields, userId).Some?
    ensures var (d, e) := UpdateUser(db, userId, fields, None);
      && e.None? && d.users.Keys == db.users.Keys
      && (forall c | c in Keys(fields) && Prop(fields, c) != Undefined :: c in d.users[u] && d.users[u][c] == Prop(fields, c))
      && (forall c | c in db.users[u] && (c !in Keys(fields) || Prop(fields, c) == Undefined) ::
            c in d.users[u] && d.users[u][c] == db.users[u][c])
      && (forall v | v in db.users && v != u :: d.users[v] == db.users[v])
  {
    DefinedKeysExact(fields);
    assert Lookup(db.users, userId) == Some(u);
    UpdatedRow(db.users[u], fields, userId);
  }

  /** `session_version + 1` in SQL: NULL stays NULL. */
  function PlusOne(v: JsValue): JsValue {
    if v.Num? then Num(v.n + 1) else Null
  }

  function IncrementSessionVersion(db: Db, userId: JsValue, err: Option<Error>): (r: (Db, Option<Error>))
    ensures r.1.Some? ==> r.0 == db
  {
    if err.Some? then (db, err)
    else if "session_version" !in UserColumns(db) then (db, Some(UnknownColumn("session_version")))
    else match Lookup(db.users, userId)
      case Some(u) =>
        var row := db.users[u];
        (db.(users := db.users[u := row["session_version" := PlusOne(Col(row, "session_version"))]]), None)
      case None => (db, None)
  }

  /** The counter of that one user goes up by exactly one; every other column and user is unchanged. */
  lemma IncrementSessionVersionOnlyThatUser(db: Db, u: int, n: int)
    requires u in db.users && "session_version" in UserColumns(db)
    requires "session_version" in db.users[u] && db.users[u]["session_version"] == Num(n)
    ensures var (d, e) := IncrementSessionVersion(db, Num(u), None);
      && e.None? && d.users.Keys == db.users.Keys
      && d.users[u]["session_version"] == Num(n + 1)
      && (forall c | c in db.users[u] && c != "session_version" :: d.users[u][c] == db.users[u][c])
      && (forall v | v in db.users && v != u :: d.users[v] == db.users[v])
      && d.(users := db.users) == db
  {
    assert Lookup(db.users, Num(u)) == Some(u);
  }

  /** `Number.isNaN(Number(limit)) ? 50 : Math.min(Number(limit), 200)`. */
  function AuditLimit(limit: JsValue): (n: int)
  {
    match ToNumber(limit)
    case NaN => 50
    case Int(i) => if i < 200 then i else 200
  }

  lemma AuditLimitClamp(limit: JsValue)
    ensures AuditLimit(limit) <= 200
    ensures ToNumber(limit).NaN? ==> AuditLimit(limit) == 50
    ensures ToNumber(limit).Int? ==> AuditLimit(limit) == if ToNumber(limit).i < 200 then ToNumber(limit).i else 200
  {
  }

  /** An absent limit reads 50 entries; a numeral string reads that many, at most 200. */
  lemma AuditLimitOfQuery(n: nat)
    ensures AuditLimit(Undefined) == 50
    ensures AuditLimit(Str(NatToString(n))) == if n < 200 then n else 200
  {
    NumberOfIntToString(n);
  }

  function Reverse<T>(s: seq<T>): (r: seq<T>)
    ensures |r| == |s| && forall k | 0 <= k < |s| :: r[k] == s[|s| - 1 - k]
  {
    if s == [] then [] else Reverse(s[1..]) + [s[0]]
  }

  /**
   * `ORDER BY created_at DESC LIMIT ?`: the newest entries first, as many as the clamped limit.
   * Entries are kept in insertion order and timestamps are not modelled, so entries that share
   * a created_at come out newest-inserted first; MySQL promises no order among them.
   */
  function GetAuditLogs(db: Db, limit: JsValue, err: Option<Error>): (r: Result<seq<AuditEntry>>)
    ensures r.Ok? ==> |r.value| <= 200 && |r.value| <= |db.audit|
    ensures r.Ok? ==> forall k | 0 <= k < |r.value| :: r.value[k] == db.audit[|db.audit| - 1 - k]
    ensures err.None? ==> (r.Ok? <==> AuditLimit(limit) >= 0)
    ensures err.None? && r.Ok? && AuditLimit(limit) <= |db.audit| ==> |r.value| == AuditLimit(limit)
    ensures err.None? && r.Ok? && AuditLimit(limit) > |db.audit| ==> |r.value| == |db.audit|
  {
    var n := AuditLimit(limit);
    if err.Some? then Err(err.value)
    else if n < 0 then Err(Error("ER_PARSE_ERROR", "You have an error in your SQL syntax"))
    else
      var newest := Reverse(db.audit);
      Ok(if n < |newest| then newest[..n] else newest)
  }

  /** addAuditLog: details are stored only when truthy; a missing actor, ip or user agent is NULL. */
  function AuditRow(actor: JsValue, action: string, details: JsValue, ip: JsValue, userAgent: JsValue): (e: AuditEntry)
    ensures e.action == action
    ensures e.details == (if Truthy(details) then details else Null)
    ensures e.actor == (if Truthy(actor) then actor else Null)
    ensures e.ip == (if Truthy(ip) then ip else Null)
    ensures e.userAgent == (if Truthy(userAgent) then userAgent else Null)
  {
    AuditEntry(Or(actor, Null), action, if Truthy(details) then details else Null, Or(ip, Null), Or(userAgent, Null))
  }

  function AddAuditLog(db: Db, entry: AuditEntry, err: Option<Error>): (r: (Db, Option<Error>))
    ensures err.Some? ==> r == (db, err)
    ensures err.None? ==> r.1.None? && r.0 == db.(audit := db.audit + [entry])
  {
    if err.Some? then (db, err) else (db.(audit := db.audit + [entry]), None)
  }

  /** The columns of the full getUsers query, after id. */
  const UserListColumns: seq<string> :=
    ["email", "first_name", "last_name", "role", "status", "force_password_reset",
     "failed_login_count", "lock_until", "last_login_ip", "last_login_at"]

  function FullUserRow(id: int, row: Row): Object {
    [("id", Num(id))] + seq(|UserListColumns|, k requires 0 <= k < |UserListColumns| =>
      (UserListColumns[k], Col(row, UserListColumns[k])))
  }

  /** The fallback row: id and email, and the listed defaults for the rest. */
  function FallbackUserRow(id: int, row: Row): Object {
    [("id", Num(id)), ("email", Col(row, "email")), ("first_name", Str("")), ("last_name", Str("")),
     ("role", Str("user")), ("status", Str("active")), ("force_password_reset", Num(0)),
     ("failed_login_count", Num(0)), ("lock_until", Null), ("last_login_ip", Null), ("last_login_at", Null)]
  }

  /** Whether getUsers falls back: its full query hit a missing column. */
  predicate UsersFallBack(db: Db, err: Option<Error>) {
    (err.Some? && err.value.code == BadFieldCode) || FirstUnknown(UserListColumns, UserColumns(db)).Some?
  }

  /** getUsers, highest id first; a bad-field error switches to the id-and-email query, whose own
      error `fallbackErr` is rethrown. */
  function GetUsers(db: Db, err: Option<Error>, fallbackErr: Option<Error>): (r: Result<seq<JsValue>>)
    ensures err.Some? && err.value.code != BadFieldCode ==> r == Err(err.value)
    ensures !UsersFallBack(db, err) && err.None? ==> r.Ok? && |r.value| == |IdsBelow(db.users, db.nextUser)|
    ensures UsersFallBack(db, err) && !(err.Some? && err.value.code != BadFieldCode) ==>
      (r.Err? <==> fallbackErr.Some?) && (fallbackErr.Some? ==> r == Err(fallbackErr.value))
  {
    if err.Some? && err.value.code != BadFieldCode then Err(err.value)
    else
      var ids := IdsBelow(db.users, db.nextUser);
      var fallback := UsersFallBack(db, err);
      if fallback && fallbackErr.Some? then Err(fallbackErr.value)
      else
        Ok(seq(|ids|, k requires 0 <= k < |ids| =>
          Obj(if fallback then FallbackUserRow(ids[k], db.users[ids[k]]) else FullUserRow(ids[k], db.users[ids[k]]))))
  }

  /** A successful fallback lists every user once, highest id first, each as its id-and-email row with the defaults. */
  lemma GetUsersFallbackDefaults(db: Db, err: Option<Error>, fallbackErr: Option<Error>)
    requires Valid(db) && UsersFallBack(db, err) && !(err.Some? && err.value.code != BadFieldCode)
    requires fallbackErr.None?
    ensures var r := GetUsers(db, err, fallbackErr);
      var ids := IdsBelow(db.users, db.nextUser);
      && r.Ok? && |r.value| == |ids| == |db.users|
      && (forall id | id in db.users :: id in ids)
      && (forall k | 0 <= k < |ids| :: r.value[k] == Obj(FallbackUserRow(ids[k], db.users[ids[k]])))
  {
    IdsCoverTable(db.users, db.nextUser);
  }

  /** The id scan of a valid table lists every row once. */
  lemma IdsCoverTable<V>(m: map<int, V>, next: int)
    requires IdsUnder(m, next)
    ensures |IdsBelow(m, next)| == |m|
    ensures forall id | id in m :: id in IdsBelow(m, next)
  {
    var ids := IdsBelow(m, next);
    var s := set k | 0 <= k < |ids| :: ids[k];
    assert s == m.Keys;
    DistinctCard(ids);
  }

  lemma {:induction false} DistinctCard(ids: seq<int>)
    requires Decreasing(ids)
    ensures |set k | 0 <= k < |ids| :: ids[k]| == |ids|
  {
    if ids != [] {
      assert Decreasing(ids[1..]) by {
        forall a, b | 0 <= a < b < |ids[1..]| ensures ids[1..][a] > ids[1..][b] {
          assert ids[1..][a] == ids[a + 1] && ids[1..][b] == ids[b + 1];
        }
      }
      DistinctCard(ids[1..]);
      var tail := set k | 0 <= k < |ids[1..]| :: ids[1..][k];
      var all := set k | 0 <= k < |ids| :: ids[k];
      assert all == tail + {ids[0]};
      assert ids[0] !in tail;
    }
  }

  /** `JSON.parse(value)`, or the raw text when it is not JSON. */
  function ParsedOrRaw(value: string, parse: string -> Option<JsValue>): JsValue {
    match parse(value)
    case Some(v) => v
    case None => Str(value)
  }

  /** The settings object after the rows with ids below n. */
  function SettingsBelow(settings: map<int, Setting>, parse: string -> Option<JsValue>, n: int): (o: Object)
    decreases n
  {
    if n <= 1 then []
    else
      var o := SettingsBelow(settings, parse, n - 1);
      if n - 1 in settings then SetProp(o, settings[n - 1].key, ParsedOrRaw(settings[n - 1].value, parse)) else o
  }

  /** getSettings: one property per row, filled in row order. */
  method GetSettings(db: Database, parse: string -> Option<JsValue>) returns (o: Object)
    ensures o == SettingsBelow(db.settings, parse, db.nextSetting)
  {
    o := [];
    var id := 1;
    while id < db.nextSetting
      invariant 1 <= id && (id <= db.nextSetting || id == 1)
      invariant o == SettingsBelow(db.settings, parse, id)
    {
      if id in db.settings {
        o := SetProp(o, db.settings[id].key, ParsedOrRaw(db.settings[id].value, parse));
      }
      id := id + 1;
    }
  }

  /** Every row's key maps to its parsed value, or to its raw text when parsing fails; no other key appears. */
  lemma {:induction false} SettingsBelowValues(settings: map<int, Setting>, parse: string -> Option<JsValue>, n: int)
    requires UniqueSettingKeys(settings)
    ensures forall id | id in settings && 1 <= id < n ::
      Prop(SettingsBelow(settings, parse, n), settings[id].key) == ParsedOrRaw(settings[id].value, parse)
    ensures forall key | (forall id | id in settings && 1 <= id < n :: settings[id].key != key) ::
      Prop(SettingsBelow(settings, parse, n), key) == Undefined
    decreases n
  {
    if n > 1 {
      SettingsBelowValues(settings, parse, n - 1);
    }
  }

  /** updateSetting: an UPDATE, so a key with no row is not created. */
  function UpdateSetting(db: Db, key: string, value: JsValue, updatedBy: JsValue,
                         stringify: JsValue -> string, err: Option<Error>): (r: (Db, Option<Error>))
    ensures r.1.Some? ==> r.0 == db
    ensures r.1.None? ==> r.0 == db.(settings := r.0.settings)
  {
    if err.Some? then (db, err)
    else
      var settings := map id | id in db.settings ::
        if db.settings[id].key == key then Setting(key, stringify(value), Or(updatedBy, Null)) else db.settings[id];
      (db.(settings := settings), None)
  }

  /** Only the row with that key changes, and it takes the serialised value and the updater. */
  lemma UpdateSettingOnlyThatKey(db: Db, key: string, value: JsValue, updatedBy: JsValue, stringify: JsValue -> string)
    ensures var (d, e) := UpdateSetting(db, key, value, updatedBy, stringify, None);
      && e.None? && d.settings.Keys == db.settings.Keys
      && (forall id | id in db.settings :: if db.settings[id].key == key
            then d.settings[id].value == stringify(value) && d.settings[id].updatedBy == Or(updatedBy, Null)
            else d.settings[id] == db.settings[id])
  {
  }

  /** addIpRule: the new rule's id, with NULL for a missing description or creator. */
  function AddIpRule(db: Db, ip: JsValue, ruleType: JsValue, description: JsValue, createdBy: JsValue,
                     err: Option<Error>): (r: (Db, Result<int>))
    ensures err.Some? ==> r == (db, Err(err.value))
    ensures err.None? ==> (
      && r.1 == Ok(db.nextRule) && db.nextRule in r.0.ipRules
      && r.0.ipRules[db.nextRule] == IpRule(ip, ruleType, Or(description, Null), Or(createdBy, Null)))
  {
    if err.Some? then (db, Err(err.value))
    else
      var id := db.nextRule;
      (db.(ipRules := db.ipRules[id := IpRule(ip, ruleType, Or(description, Null), Or(createdBy, Null))],
           nextRule := id + 1), Ok(id))
  }

  const UserNotFound := Error("NOT_FOUND", "User not found")

  /**
   * The delete the admin controller expects of `Admin.deleteUser`, which this model file does
   * not define: DELETE FROM users WHERE id, with NOT_FOUND when no row had that id.
   */
  function DeleteUser(db: Db, userId: int, err: Option<Error>): (r: (Db, Option<Error>))
    ensures r.1.Some? ==> r.0 == db
  {
    if err.Some? then (db, err)
    else if userId in db.users then (db.(users := db.users - {userId}), None)
    else (db, Some(UserNotFound))
  }

  lemma DeleteUserRemovesExactlyOne(db: Db, userId: int)
    ensures var (d, e) := DeleteUser(db, userId, None);
      && (e.None? <==> userId in db.users)
      && (e.Some? ==> e.value.code == "NOT_FOUND")
      && d.users.Keys == db.users.Keys - {userId}
      && (forall v | v in d.users :: d.users[v] == db.users[v])
  {
  }
}
