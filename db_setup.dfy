/**
 * backend/src/utils/dbSetup.js: the start-up migration. Nine user columns are added when
 * missing, three tables are created when missing, and four settings are seeded when missing,
 * in that order; the first store error stops the run and is passed to the caller. Each
 * "ensure" step is a pure statement of its effect on a `Db` and a method performing it on a
 * `Database` in place.
 */
module DbSetup {
  import opened Wrappers
  import opened JsValues
  import opened Store

  /** A table that `ALTER TABLE` names but the schema does not hold. */
  function NoSuchTable(table: string): Error {
    Error("ER_NO_SUCH_TABLE", "Table '" + table + "' doesn't exist")
  }

  /** ensureColumn: when the column is absent it is added, and every existing row of the users
      table takes its DEFAULT; when it is present nothing happens. */
  function EnsureColumnQuery(db: Db, table: string, column: string, default: JsValue, err: Option<Error>)
    : (r: (Db, Option<Error>))
    ensures err.Some? ==> r == (db, err)
    ensures err.None? && table in db.columns && column in db.columns[table] ==> r == (db, None)
    ensures err.None? && table !in db.columns ==> r == (db, Some(NoSuchTable(table)))
    ensures err.None? && table in db.columns && column !in db.columns[table] ==>
      && r.1 == None
      && r.0.columns == db.columns[table := db.columns[table] + {column}]
      && (forall id | id in db.users :: id in r.0.users &&
            r.0.users[id] == if table == "users" then db.users[id][column := default] else db.users[id])
  {
    if err.Some? then (db, err)
    else if table in db.columns && column in db.columns[table] then (db, None)
    else if table !in db.columns then (db, Some(NoSuchTable(table)))
    else
      var users := if table == "users" then map id | id in db.users :: db.users[id][column := default]
                   else db.users;
      (db.(columns := db.columns[table := db.columns[table] + {column}], users := users), None)
  }

  /** ensureTable: CREATE TABLE IF NOT EXISTS leaves an existing table as it is. */
  function EnsureTableQuery(db: Db, table: string, cols: set<string>, err: Option<Error>): (r: (Db, Option<Error>))
    ensures err.Some? ==> r == (db, err)
    ensures err.None? && table in db.columns ==> r == (db, None)
    ensures err.None? && table !in db.columns ==> r == (db.(columns := db.columns[table := cols]), None)
  {
    if err.Some? then (db, err)
    else if table in db.columns then (db, None)
    else (db.(columns := db.columns[table := cols]), None)
  }

  predicate HasSetting(settings: map<int, Setting>, key: string) {
    exists id | id in settings :: settings[id].key == key
  }

  /** ensureSetting: a missing key is inserted with the value; a present key is never touched. */
  function EnsureSettingQuery(db: Db, key: string, value: string, err: Option<Error>): (r: (Db, Option<Error>))
    ensures err.Some? ==> r == (db, err)
    ensures err.None? && HasSetting(db.settings, key) ==> r == (db, None)
    ensures err.None? && !HasSetting(db.settings, key) ==>
      r == (db.(settings := db.settings[db.nextSetting := Setting(key, value, Null)],
                nextSetting := db.nextSetting + 1), None)
  {
    if err.Some? then (db, err)
    else if HasSetting(db.settings, key) then (db, None)
    else (db.(settings := db.settings[db.nextSetting := Setting(key, value, Null)],
              nextSetting := db.nextSetting + 1), None)
  }

  /** One await of setupDatabase. */
  datatype Step =
    | AddColumn(table: string, column: string, default: JsValue)
    | CreateTable(name: string, cols: set<string>)
    | SeedSetting(key: string, value: string)

  function Apply(db: Db, s: Step, err: Option<Error>): (Db, Option<Error>) {
    match s
    case AddColumn(t, c, v) => EnsureColumnQuery(db, t, c, v, err)
    case CreateTable(t, cols) => EnsureTableQuery(db, t, cols, err)
    case SeedSetting(k, v) => EnsureSettingQuery(db, k, v, err)
  }

  const AuditLogsColumns: set<string> :=
    {"id", "actor_user_id", "action", "details", "ip", "user_agent", "created_at"}
  const SystemSettingsColumns: set<string> := {"id", "key", "value", "updated_by", "updated_at"}
  const IpRulesColumns: set<string> := {"id", "ip", "rule_type", "description", "created_by", "created_at"}

  /** The JSON texts `JSON.stringify` produces for the four seeded settings. */
  const DefaultsJson := "{\"priority\":\"Medium\",\"status\":\"Pending\",\"dueDays\":7}"
  const FeaturesJson := "{\"comments\":true,\"attachments\":true,\"notifications\":true}"
  const MaintenanceJson := "{\"enabled\":false,\"message\":\"System maintenance in progress.\"}"
  const SecurityJson := "{\"lockAfterFailed\":5,\"lockMinutes\":15}"

  /** setupDatabase's steps in their order: the user columns, then the tables, then the settings. */
  const ColumnSteps: seq<Step> := AccountColumnSteps + LoginColumnSteps
  const AccountColumnSteps: seq<Step> := [
    AddColumn("users", "role", Str("user")),
    AddColumn("users", "status", Str("active")),
    AddColumn("users", "force_password_reset", Num(0)),
    AddColumn("users", "failed_login_count", Num(0)),
    AddColumn("users", "lock_until", Null)
  ]
  const LoginColumnSteps: seq<Step> := [
    AddColumn("users", "session_version", Num(0)),
    AddColumn("users", "last_login_ip", Null),
    AddColumn("users", "last_login_at", Null),
    AddColumn("users", "last_login_user_agent", Null)
  ]
  const TableSteps: seq<Step> := [
    CreateTable("audit_logs", AuditLogsColumns),
    CreateTable("system_settings", SystemSettingsColumns),
    CreateTable("ip_rules", IpRulesColumns)
  ]
  const SettingSteps: seq<Step> := [
    SeedSetting("defaults", DefaultsJson),
    SeedSetting("features", FeaturesJson),
    SeedSetting("maintenance", MaintenanceJson),
    SeedSetting("security", SecurityJson)
  ]
  const SetupSteps: seq<Step> := ColumnSteps + TableSteps + SettingSteps

  /** Runs the steps from index k on; the first error ends the run. */
  function Run(db: Db, steps: seq<Step>, fault: Fault, k: nat): (r: (Db, Option<Error>))
    decreases |steps|
  {
    if steps == [] then (db, None)
    else
      var (d, e) := Apply(db, steps[0], fault.At(k));
      if e.Some? then (d, e) else Run(d, steps[1..], fault, k + 1)
  }

  function Setup(db: Db, fault: Fault): (Db, Option<Error>) {
    Run(db, SetupSteps, fault, 0)
  }

  /** A step that has already been applied, without error, changes nothing when applied again. */
  lemma ApplyTwice(db: Db, s: Step)
    requires Apply(db, s, None).1 == None
    ensures Apply(Apply(db, s, None).0, s, None) == (Apply(db, s, None).0, None)
  {
    var d := Apply(db, s, None).0;
    match s
    case AddColumn(t, c, v) =>
    case CreateTable(t, cols) =>
    case SeedSetting(k, v) =>
      if !HasSetting(db.settings, k) {
        assert d.settings[db.nextSetting].key == k;
      }
  }

  /** A step that fails leaves the state as it found it. */
  lemma ApplyErrorKeepsState(db: Db, s: Step, err: Option<Error>)
    requires Apply(db, s, err).1.Some?
    ensures Apply(db, s, err).0 == db
  {
  }

  /**
   * A step's effect is not undone by the other steps of the run, so each one finds its own
   * work done the second time: table and column sets only grow, and settings keys stay.
   */
  predicate Covers(d: Db, s: Step) {
    match s
    case AddColumn(t, c, v) => t in d.columns && c in d.columns[t]
    case CreateTable(t, cols) => t in d.columns
    case SeedSetting(k, v) => HasSetting(d.settings, k)
  }

  ghost predicate Grows(a: Db, b: Db) {
    && (forall t | t in a.columns :: t in b.columns && a.columns[t] <= b.columns[t])
    && (forall k | HasSetting(a.settings, k) :: HasSetting(b.settings, k))
  }

  /** Every step keeps the tables' ids under their counters and the settings keys unique. */
  lemma ApplyValid(db: Db, s: Step, err: Option<Error>)
    requires Valid(db)
    ensures Valid(Apply(db, s, err).0)
  {
    match s
    case AddColumn(t, c, v) =>
    case CreateTable(t, cols) =>
    case SeedSetting(k, v) =>
  }

  lemma ApplyGrows(db: Db, s: Step, err: Option<Error>)
    requires Valid(db)
    ensures Grows(db, Apply(db, s, err).0)
    ensures Apply(db, s, err).1.None? ==> Covers(Apply(db, s, err).0, s)
  {
    match s
    case AddColumn(t, c, v) => ColumnGrows(db, t, c, v, err);
    case CreateTable(t, cols) => TableGrows(db, t, cols, err);
    case SeedSetting(k, v) => SettingGrows(db, k, v, err);
  }

  lemma ColumnGrows(db: Db, t: string, c: string, v: JsValue, err: Option<Error>)
    ensures Grows(db, EnsureColumnQuery(db, t, c, v, err).0)
    ensures EnsureColumnQuery(db, t, c, v, err).1.None? ==> Covers(EnsureColumnQuery(db, t, c, v, err).0, AddColumn(t, c, v))
  {
  }

  lemma TableGrows(db: Db, t: string, cols: set<string>, err: Option<Error>)
    ensures Grows(db, EnsureTableQuery(db, t, cols, err).0)
    ensures EnsureTableQuery(db, t, cols, err).1.None? ==> Covers(EnsureTableQuery(db, t, cols, err).0, CreateTable(t, cols))
  {
  }

  lemma SettingGrows(db: Db, k: string, v: string, err: Option<Error>)
    requires Valid(db)
    ensures Grows(db, EnsureSettingQuery(db, k, v, err).0)
    ensures EnsureSettingQuery(db, k, v, err).1.None? ==> Covers(EnsureSettingQuery(db, k, v, err).0, SeedSetting(k, v))
  {
    var d := EnsureSettingQuery(db, k, v, err).0;
    if err.None? && !HasSetting(db.settings, k) {
      forall key | HasSetting(db.settings, key) ensures HasSetting(d.settings, key) {
        var id :| id in db.settings && db.settings[id].key == key;
        assert d.settings[id] == db.settings[id];
      }
      assert d.settings[db.nextSetting].key == k;
    }
  }

  lemma ApplyCovered(db: Db, s: Step)
    requires Covers(db, s)
    ensures Apply(db, s, None) == (db, None)
  {
  }

  lemma CoversGrows(a: Db, b: Db, s: Step)
    requires Covers(a, s) && Grows(a, b)
    ensures Covers(b, s)
  {
    match s
    case AddColumn(t, c, v) =>
    case CreateTable(t, cols) =>
    case SeedSetting(k, v) =>
  }

  lemma {:induction false} RunGrows(db: Db, steps: seq<Step>, k: nat)
    requires Valid(db)
    ensures Grows(db, Run(db, steps, Healthy, k).0)
    decreases |steps|
  {
    if steps != [] {
      var (d, e) := Apply(db, steps[0], None);
      ApplyGrows(db, steps[0], None);
      ApplyValid(db, steps[0], None);
      if e.None? {
        RunGrows(d, steps[1..], k + 1);
      }
    }
  }

  /** A run without error leaves every one of its steps covered. */
  lemma {:induction false} RunCovers(db: Db, steps: seq<Step>, k: nat)
    requires Valid(db)
    requires Run(db, steps, Healthy, k).1.None?
    ensures forall i | 0 <= i < |steps| :: Covers(Run(db, steps, Healthy, k).0, steps[i])
    decreases |steps|
  {
    if steps != [] {
      var (d, e) := Apply(db, steps[0], None);
      ApplyGrows(db, steps[0], None);
      ApplyValid(db, steps[0], None);
      RunCovers(d, steps[1..], k + 1);
      RunGrows(d, steps[1..], k + 1);
      var end := Run(db, steps, Healthy, k).0;
      forall i | 0 <= i < |steps| ensures Covers(end, steps[i]) {
        if i == 0 {
          CoversGrows(d, end, steps[0]);
        } else {
          assert steps[i] == steps[1..][i - 1];
        }
      }
    }
  }

  /** Steps that are all covered change nothing. */
  lemma {:induction false} RunCovered(db: Db, steps: seq<Step>, k: nat)
    requires forall i | 0 <= i < |steps| :: Covers(db, steps[i])
    ensures Run(db, steps, Healthy, k) == (db, None)
    decreases |steps|
  {
    if steps != [] {
      ApplyCovered(db, steps[0]);
      forall i | 0 <= i < |steps[1..]| ensures Covers(db, steps[1..][i]) {
        assert steps[1..][i] == steps[i + 1];
      }
      RunCovered(db, steps[1..], k + 1);
    }
  }

  /** An error stops the run with the state the earlier steps left. */
  lemma {:induction false} RunErrorStops(db: Db, steps: seq<Step>, k: nat)
    requires Valid(db)
    requires Run(db, steps, Healthy, k).1.Some?
    ensures Run(Run(db, steps, Healthy, k).0, steps, Healthy, k) == Run(db, steps, Healthy, k)
    decreases |steps|
  {
    var (d, e) := Apply(db, steps[0], None);
    if e.Some? {
      ApplyErrorKeepsState(db, steps[0], None);
    } else {
      ApplyGrows(db, steps[0], None);
      ApplyValid(db, steps[0], None);
      RunErrorStops(d, steps[1..], k + 1);
      var end := Run(db, steps, Healthy, k).0;
      RunGrows(d, steps[1..], k + 1);
      CoversGrows(d, end, steps[0]);
      ApplyCovered(end, steps[0]);
    }
  }

  /** Running setupDatabase twice leaves the database as running it once does. */
  lemma SetupIdempotent(db: Db)
    requires Valid(db)
    ensures Setup(Setup(db, Healthy).0, Healthy) == Setup(db, Healthy)
  {
    var (d, e) := Setup(db, Healthy);
    if e.None? {
      RunCovers(db, SetupSteps, 0);
      RunCovered(d, SetupSteps, 0);
    } else {
      RunErrorStops(db, SetupSteps, 0);
    }
  }

  /** A failing query stops the run at its step: what earlier steps did stays, nothing later runs. */
  lemma {:induction false} FailureStopsRun(db: Db, steps: seq<Step>, k: nat, j: nat, error: Error)
    requires k <= j < k + |steps|
    requires Run(db, steps[..j - k], Healthy, k).1.None?
    ensures Run(db, steps, FailAt(j, error), k) == (Run(db, steps[..j - k], Healthy, k).0, Some(error))
    decreases |steps|
  {
    if j > k {
      var (d, e) := Apply(db, steps[0], None);
      assert steps[..j - k][0] == steps[0];
      assert steps[..j - k][1..] == steps[1..][..j - (k + 1)];
      FailureStopsRun(d, steps[1..], k + 1, j, error);
    }
  }

  /** No step other than the i-th adds column c to users. */
  predicate OnlyStepAdding(steps: seq<Step>, i: int, c: string) {
    forall j | 0 <= j < |steps| && j != i :: !(steps[j].AddColumn? && steps[j].table == "users" && steps[j].column == c)
  }

  /** What no step but the i-th does, no step of the tail but its (i-1)-th does. */
  lemma OnlyStepAddingTail(steps: seq<Step>, i: int, c: string)
    requires |steps| > 0 && OnlyStepAdding(steps, i, c)
    ensures OnlyStepAdding(steps[1..], if i > 0 then i - 1 else -1, c)
  {
    forall j | 0 <= j < |steps[1..]| && j != (if i > 0 then i - 1 else -1)
      ensures !(steps[1..][j].AddColumn? && steps[1..][j].table == "users" && steps[1..][j].column == c)
    {
      assert steps[1..][j] == steps[j + 1];
    }
  }

  /** Every user of a that has column c is in b with the same value there. */
  ghost predicate KeepsColumn(a: map<int, Row>, b: map<int, Row>, c: string) {
    forall id | id in a && c in a[id] :: id in b && c in b[id] && b[id][c] == a[id][c]
  }

  /** A step that does not add column c to users keeps every user's value in c. */
  lemma ApplyKeepsColumn(db: Db, s: Step, err: Option<Error>, c: string)
    requires !(s.AddColumn? && s.table == "users" && s.column == c)
    ensures KeepsColumn(db.users, Apply(db, s, err).0.users, c)
  {
  }

  /** Steps that do not add column c keep every user and the value that user has in c. */
  lemma {:induction false} RunKeepsColumn(db: Db, steps: seq<Step>, k: nat, c: string)
    requires OnlyStepAdding(steps, -1, c)
    ensures KeepsColumn(db.users, Run(db, steps, Healthy, k).0.users, c)
    decreases |steps|
  {
    if steps != [] {
      var (d, e) := Apply(db, steps[0], None);
      ApplyKeepsColumn(db, steps[0], None, c);
      if e.None? {
        OnlyStepAddingTail(steps, -1, c);
        RunKeepsColumn(d, steps[1..], k + 1, c);
      }
    }
  }

  /** Every user of ids is present and holds v in column c. */
  predicate HasDefault(users: map<int, Row>, ids: set<int>, c: string, v: JsValue) {
    forall id | id in ids :: id in users && c in users[id] && users[id][c] == v
  }

  /** Adding a column users lacks gives every user its default. */
  lemma ApplyFillsColumn(db: Db, c: string, v: JsValue)
    requires "users" in db.columns && c !in db.columns["users"]
    ensures Apply(db, AddColumn("users", c, v), None).1.None?
    ensures HasDefault(Apply(db, AddColumn("users", c, v), None).0.users, db.users.Keys, c, v)
  {
  }

  /** A step that does not add column c keeps the users and leaves users without c. */
  lemma ApplyLacksColumn(db: Db, s: Step, err: Option<Error>, c: string)
    requires !(s.AddColumn? && s.table == "users" && s.column == c)
    requires "users" in db.columns && c !in db.columns["users"]
    ensures var d := Apply(db, s, err).0;
      "users" in d.columns && c !in d.columns["users"] && db.users.Keys <= d.users.Keys
  {
  }

  lemma DefaultKept(a: map<int, Row>, b: map<int, Row>, ids: set<int>, c: string, v: JsValue)
    requires HasDefault(a, ids, c, v) && KeepsColumn(a, b, c)
    ensures HasDefault(b, ids, c, v)
  {
  }

  /** A run without error that adds a column users lacked gives every existing user its default. */
  lemma {:induction false} RunFillsColumn(db: Db, steps: seq<Step>, k: nat, i: nat, c: string, v: JsValue)
    requires i < |steps| && steps[i] == AddColumn("users", c, v) && OnlyStepAdding(steps, i, c)
    requires "users" in db.columns && c !in db.columns["users"]
    requires Run(db, steps, Healthy, k).1.None?
    ensures HasDefault(Run(db, steps, Healthy, k).0.users, db.users.Keys, c, v)
    decreases |steps|
  {
    var (d, e) := Apply(db, steps[0], None);
    OnlyStepAddingTail(steps, i, c);
    if i == 0 {
      ApplyFillsColumn(db, c, v);
      RunKeepsColumn(d, steps[1..], k + 1, c);
      DefaultKept(d.users, Run(d, steps[1..], Healthy, k + 1).0.users, db.users.Keys, c, v);
    } else {
      assert steps[1..][i - 1] == steps[i];
      ApplyLacksColumn(db, steps[0], None, c);
      RunFillsColumn(d, steps[1..], k + 1, i - 1, c, v);
    }
  }

  /** No step other than the i-th seeds key. */
  predicate OnlyStepSeeding(steps: seq<Step>, i: int, key: string) {
    forall j | 0 <= j < |steps| && j != i :: !(steps[j].SeedSetting? && steps[j].key == key)
  }

  lemma OnlyStepSeedingTail(steps: seq<Step>, i: int, key: string)
    requires |steps| > 0 && OnlyStepSeeding(steps, i, key)
    ensures OnlyStepSeeding(steps[1..], if i > 0 then i - 1 else -1, key)
  {
    forall j | 0 <= j < |steps[1..]| && j != (if i > 0 then i - 1 else -1)
      ensures !(steps[1..][j].SeedSetting? && steps[1..][j].key == key)
    {
      assert steps[1..][j] == steps[j + 1];
    }
  }

  /** A step that does not seed key leaves a table without key without it. */
  lemma ApplyKeepsMissing(db: Db, s: Step, err: Option<Error>, key: string)
    requires !(s.SeedSetting? && s.key == key) && !HasSetting(db.settings, key)
    ensures !HasSetting(Apply(db, s, err).0.settings, key)
  {
    if s.SeedSetting? && err.None? && !HasSetting(db.settings, s.key) {
      var d := Apply(db, s, err).0;
      assert forall id | id in d.settings :: id == db.nextSetting || d.settings[id] == db.settings[id];
    }
  }

  /** Every settings row of a is in b unchanged. */
  ghost predicate KeepsSettings(a: map<int, Setting>, b: map<int, Setting>) {
    forall id | id in a :: id in b && b[id] == a[id]
  }

  /** A step never changes a settings row that exists: a seed takes the next free id. */
  lemma ApplyKeepsSettings(db: Db, s: Step, err: Option<Error>)
    requires Valid(db)
    ensures KeepsSettings(db.settings, Apply(db, s, err).0.settings)
  {
    match s
    case AddColumn(t, c, v) =>
    case CreateTable(t, cols) =>
    case SeedSetting(key, v) =>
  }

  /** Later steps never change a settings row that exists. */
  lemma {:induction false} RunKeepsSettings(db: Db, steps: seq<Step>, k: nat)
    requires Valid(db)
    ensures KeepsSettings(db.settings, Run(db, steps, Healthy, k).0.settings)
    decreases |steps|
  {
    if steps != [] {
      var (d, e) := Apply(db, steps[0], None);
      ApplyValid(db, steps[0], None);
      ApplyKeepsSettings(db, steps[0], None);
      if e.None? {
        RunKeepsSettings(d, steps[1..], k + 1);
      }
    }
  }

  /** A run without error that seeds a key the table lacked stores exactly the seeded value. */
  lemma {:induction false} RunSeedsSetting(db: Db, steps: seq<Step>, k: nat, i: nat, key: string, value: string)
    requires Valid(db)
    requires i < |steps| && steps[i] == SeedSetting(key, value) && OnlyStepSeeding(steps, i, key)
    requires !HasSetting(db.settings, key)
    requires Run(db, steps, Healthy, k).1.None?
    ensures exists id | id in Run(db, steps, Healthy, k).0.settings ::
      Run(db, steps, Healthy, k).0.settings[id] == Setting(key, value, Null)
    decreases |steps|
  {
    var (d, e) := Apply(db, steps[0], None);
    ApplyValid(db, steps[0], None);
    if i == 0 {
      RunKeepsSettings(d, steps[1..], k + 1);
      assert d.settings[db.nextSetting] == Setting(key, value, Null);
    } else {
      OnlyStepSeedingTail(steps, i, key);
      assert steps[1..][i - 1] == steps[i];
      ApplyKeepsMissing(db, steps[0], None, key);
      RunSeedsSetting(d, steps[1..], k + 1, i - 1, key, value);
    }
  }

  lemma UserColumnsOnce()
    ensures OnlyStepAdding(SetupSteps, 0, "role") && OnlyStepAdding(SetupSteps, 1, "status")
    ensures OnlyStepAdding(SetupSteps, 3, "failed_login_count") && OnlyStepAdding(SetupSteps, 4, "lock_until")
    ensures OnlyStepAdding(SetupSteps, 5, "session_version")
  {
  }

  /** On a users table that lacks them, setup adds the user columns with their defaults. */
  lemma SetupFillsUserDefaults(db: Db)
    requires "users" in db.columns && Setup(db, Healthy).1.None?
    ensures var users, ids := Setup(db, Healthy).0.users, db.users.Keys;
      && ("role" !in db.columns["users"] ==> HasDefault(users, ids, "role", Str("user")))
      && ("status" !in db.columns["users"] ==> HasDefault(users, ids, "status", Str("active")))
      && ("failed_login_count" !in db.columns["users"] ==> HasDefault(users, ids, "failed_login_count", Num(0)))
      && ("lock_until" !in db.columns["users"] ==> HasDefault(users, ids, "lock_until", Null))
      && ("session_version" !in db.columns["users"] ==> HasDefault(users, ids, "session_version", Num(0)))
  {
    UserColumnsOnce();
    if "role" !in db.columns["users"] { RunFillsColumn(db, SetupSteps, 0, 0, "role", Str("user")); }
    if "status" !in db.columns["users"] { RunFillsColumn(db, SetupSteps, 0, 1, "status", Str("active")); }
    if "failed_login_count" !in db.columns["users"] {
      RunFillsColumn(db, SetupSteps, 0, 3, "failed_login_count", Num(0));
    }
    if "lock_until" !in db.columns["users"] { RunFillsColumn(db, SetupSteps, 0, 4, "lock_until", Null); }
    if "session_version" !in db.columns["users"] {
      RunFillsColumn(db, SetupSteps, 0, 5, "session_version", Num(0));
    }
  }

  /** On a settings table without them, setup seeds the lockout policy and disabled maintenance. */
  lemma SetupSeedsSecurity(db: Db)
    requires Valid(db) && Setup(db, Healthy).1.None?
    ensures var settings := Setup(db, Healthy).0.settings;
      && (!HasSetting(db.settings, "security") ==>
            exists id | id in settings :: settings[id] == Setting("security", SecurityJson, Null))
      && (!HasSetting(db.settings, "maintenance") ==>
            exists id | id in settings :: settings[id] == Setting("maintenance", MaintenanceJson, Null))
  {
    if !HasSetting(db.settings, "security") {
      RunSeedsSetting(db, SetupSteps, 0, 15, "security", SecurityJson);
    }
    if !HasSetting(db.settings, "maintenance") {
      RunSeedsSetting(db, SetupSteps, 0, 14, "maintenance", MaintenanceJson);
    }
  }

  /** A setting that exists is never overwritten by setup. */
  lemma SetupKeepsSettings(db: Db, fault: Fault)
    requires Valid(db) && fault == Healthy
    ensures forall id | id in db.settings :: id in Setup(db, fault).0.settings && Setup(db, fault).0.settings[id] == db.settings[id]
  {
    RunKeepsSettings(db, SetupSteps, 0);
  }

  /** Running a + b is running a and then, unless it failed, b with the query count carried on. */
  lemma {:induction false} RunAppend(db: Db, a: seq<Step>, b: seq<Step>, fault: Fault, k: nat)
    ensures Run(db, a + b, fault, k) ==
      var (d, e) := Run(db, a, fault, k);
      if e.Some? then (d, e) else Run(d, b, fault, k + |a|)
    decreases |a|
  {
    if a == [] {
      assert a + b == b;
    } else {
      assert (a + b)[0] == a[0] && (a + b)[1..] == a[1..] + b;
      var (d, e) := Apply(db, a[0], fault.At(k));
      if e.None? {
        RunAppend(d, a[1..], b, fault, k + 1);
      }
    }
  }

  /** One step of a run: the first step, then the rest from the next query on. */
  lemma RunStep(db: Db, steps: seq<Step>, fault: Fault, k: nat)
    requires steps != []
    ensures Run(db, steps, fault, k) ==
      var (d, e) := Apply(db, steps[0], fault.At(k));
      if e.Some? then (d, e) else Run(d, steps[1..], fault, k + 1)
  {
  }

  method EnsureColumn(db: Database, table: string, column: string, default: JsValue, err: Option<Error>)
    returns (e: Option<Error>)
    modifies db`columns, db`users
    ensures (db.Snapshot(), e) == EnsureColumnQuery(old(db.Snapshot()), table, column, default, err)
  {
    if err.Some? {
      return err;
    }
    if table in db.columns && column in db.columns[table] {
      return None;
    }
    if table !in db.columns {
      return Some(NoSuchTable(table));
    }
    db.columns := db.columns[table := db.columns[table] + {column}];
    if table == "users" {
      db.users := map id | id in db.users :: db.users[id][column := default];
    }
    e := None;
  }

  method EnsureTable(db: Database, table: string, cols: set<string>, err: Option<Error>) returns (e: Option<Error>)
    modifies db`columns
    ensures (db.Snapshot(), e) == EnsureTableQuery(old(db.Snapshot()), table, cols, err)
  {
    if err.Some? {
      return err;
    }
    if table !in db.columns {
      db.columns := db.columns[table := cols];
    }
    e := None;
  }

  method EnsureSetting(db: Database, key: string, value: string, err: Option<Error>) returns (e: Option<Error>)
    modifies db`settings, db`nextSetting
    ensures (db.Snapshot(), e) == EnsureSettingQuery(old(db.Snapshot()), key, value, err)
  {
    if err.Some? {
      return err;
    }
    if !HasSetting(db.settings, key) {
      db.settings := db.settings[db.nextSetting := Setting(key, value, Null)];
      db.nextSetting := db.nextSetting + 1;
    }
    e := None;
  }

  /** The nine ensureColumn calls. */
  method AddUserColumns(db: Database, fault: Fault) returns (e: Option<Error>)
    modifies db`columns, db`users
    ensures (db.Snapshot(), e) == Run(old(db.Snapshot()), ColumnSteps, fault, 0)
  {
    RunAppend(db.Snapshot(), AccountColumnSteps, LoginColumnSteps, fault, 0);
    e := AddAccountColumns(db, fault);
    if e.Some? { return; }
    e := AddLoginColumns(db, fault);
  }

  /** The first five columns: role, status and the lockout counters. */
  method AddAccountColumns(db: Database, fault: Fault) returns (e: Option<Error>)
    modifies db`columns, db`users
    ensures (db.Snapshot(), e) == Run(old(db.Snapshot()), AccountColumnSteps, fault, 0)
  {
    ghost var rest := AccountColumnSteps;
    RunStep(db.Snapshot(), rest, fault, 0);
    e := EnsureColumn(db, "users", "role", Str("user"), fault.At(0));
    if e.Some? { return; }
    rest := rest[1..]; RunStep(db.Snapshot(), rest, fault, 1);
    e := EnsureColumn(db, "users", "status", Str("active"), fault.At(1));
    if e.Some? { return; }
    rest := rest[1..]; RunStep(db.Snapshot(), rest, fault, 2);
    e := EnsureColumn(db, "users", "force_password_reset", Num(0), fault.At(2));
    if e.Some? { return; }
    rest := rest[1..]; RunStep(db.Snapshot(), rest, fault, 3);
    e := EnsureColumn(db, "users", "failed_login_count", Num(0), fault.At(3));
    if e.Some? { return; }
    rest := rest[1..]; RunStep(db.Snapshot(), rest, fault, 4);
    e := EnsureColumn(db, "users", "lock_until", Null, fault.At(4));
  }

  /** The last four columns, counted from query 5: the session version and the last login. */
  method AddLoginColumns(db: Database, fault: Fault) returns (e: Option<Error>)
    modifies db`columns, db`users
    ensures (db.Snapshot(), e) == Run(old(db.Snapshot()), LoginColumnSteps, fault, 5)
  {
    ghost var rest := LoginColumnSteps;
    RunStep(db.Snapshot(), rest, fault, 5);
    e := EnsureColumn(db, "users", "session_version", Num(0), fault.At(5));
    if e.Some? { return; }
    rest := rest[1..]; RunStep(db.Snapshot(), rest, fault, 6);
    e := EnsureColumn(db, "users", "last_login_ip", Null, fault.At(6));
    if e.Some? { return; }
    rest := rest[1..]; RunStep(db.Snapshot(), rest, fault, 7);
    e := EnsureColumn(db, "users", "last_login_at", Null, fault.At(7));
    if e.Some? { return; }
    rest := rest[1..]; RunStep(db.Snapshot(), rest, fault, 8);
    e := EnsureColumn(db, "users", "last_login_user_agent", Null, fault.At(8));
  }

  /** The three ensureTable calls, counted from query 9. */
  method CreateTables(db: Database, fault: Fault) returns (e: Option<Error>)
    modifies db`columns
    ensures (db.Snapshot(), e) == Run(old(db.Snapshot()), TableSteps, fault, 9)
  {
    ghost var rest := TableSteps;
    RunStep(db.Snapshot(), rest, fault, 9);
    e := EnsureTable(db, "audit_logs", AuditLogsColumns, fault.At(9));
    if e.Some? { return; }
    rest := rest[1..]; RunStep(db.Snapshot(), rest, fault, 10);
    e := EnsureTable(db, "system_settings", SystemSettingsColumns, fault.At(10));
    if e.Some? { return; }
    rest := rest[1..]; RunStep(db.Snapshot(), rest, fault, 11);
    e := EnsureTable(db, "ip_rules", IpRulesColumns, fault.At(11));
  }

  /** The four ensureSetting calls, counted from query 12. */
  method SeedSettings(db: Database, fault: Fault) returns (e: Option<Error>)
    modifies db`settings, db`nextSetting
    ensures (db.Snapshot(), e) == Run(old(db.Snapshot()), SettingSteps, fault, 12)
  {
    ghost var rest := SettingSteps;
    RunStep(db.Snapshot(), rest, fault, 12);
    e := EnsureSetting(db, "defaults", DefaultsJson, fault.At(12));
    if e.Some? { return; }
    rest := rest[1..]; RunStep(db.Snapshot(), rest, fault, 13);
    e := EnsureSetting(db, "features", FeaturesJson, fault.At(13));
    if e.Some? { return; }
    rest := rest[1..]; RunStep(db.Snapshot(), rest, fault, 14);
    e := EnsureSetting(db, "maintenance", MaintenanceJson, fault.At(14));
    if e.Some? { return; }
    rest := rest[1..]; RunStep(db.Snapshot(), rest, fault, 15);
    e := EnsureSetting(db, "security", SecurityJson, fault.At(15));
  }

  /** setupDatabase: columns, then tables, then settings, stopping at the first error. */
  method SetupDatabase(db: Database, fault: Fault) returns (e: Option<Error>)
    modifies db`columns, db`users, db`settings, db`nextSetting
    ensures (db.Snapshot(), e) == Setup(old(db.Snapshot()), fault)
  {
    ghost var d0 := db.Snapshot();
    RunAppend(d0, ColumnSteps + TableSteps, SettingSteps, fault, 0);
    RunAppend(d0, ColumnSteps, TableSteps, fault, 0);
    e := AddUserColumns(db, fault);
    if e.Some? { return; }
    ghost var d1 := db.Snapshot();
    RunAppend(d1, TableSteps, SettingSteps, fault, 9);
    e := CreateTables(db, fault);
    if e.Some? { return; }
    e := SeedSettings(db, fault);
  }
}
