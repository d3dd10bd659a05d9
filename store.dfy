/**
 * The MySQL database the backend talks to, reduced to the table effects its queries state.
 * Each table is a map from its AUTO_INCREMENT id to its row together with the next id to hand
 * out; `columns` is the schema (table name to column names) that setup extends. `Db` is the
 * value a request sees and returns; `Database` is the same state as mutable fields, for the
 * model files whose functions change it in place.
 */
module Store {
  import opened Wrappers
  import opened JsValues

  /** A row whose columns are addressed by name (users, faq_questions). */
  type Row = map<string, JsValue>

  datatype Board = Board(name: JsValue, description: JsValue, userId: int)

  datatype Task = Task(title: JsValue, description: JsValue, status: JsValue, boardId: JsValue, userId: JsValue)

  /** A row of audit_logs; details are kept as the value that was serialised. */
  datatype AuditEntry = AuditEntry(actor: JsValue, action: string, details: JsValue, ip: JsValue, userAgent: JsValue)

  /** A row of system_settings; value is JSON text. */
  datatype Setting = Setting(key: string, value: string, updatedBy: JsValue)

  datatype IpRule = IpRule(ip: JsValue, ruleType: JsValue, description: JsValue, createdBy: JsValue)

  datatype Db = Db(
    columns: map<string, set<string>>,
    users: map<int, Row>, nextUser: int,
    boards: map<int, Board>, nextBoard: int,
    tasks: map<int, Task>, nextTask: int,
    faqs: map<int, Row>, nextFaq: int,
    audit: seq<AuditEntry>,
    settings: map<int, Setting>, nextSetting: int,
    ipRules: map<int, IpRule>, nextRule: int)

  /** Every id of the table was handed out before `next`, starting at 1. */
  predicate IdsUnder<V>(m: map<int, V>, next: int) {
    next >= 1 && forall id | id in m :: 1 <= id < next
  }

  /** `key` is UNIQUE in system_settings. */
  predicate UniqueSettingKeys(settings: map<int, Setting>) {
    forall a, b | a in settings && b in settings && settings[a].key == settings[b].key :: a == b
  }

  predicate Valid(db: Db) {
    && IdsUnder(db.users, db.nextUser) && IdsUnder(db.boards, db.nextBoard)
    && IdsUnder(db.tasks, db.nextTask) && IdsUnder(db.faqs, db.nextFaq)
    && IdsUnder(db.settings, db.nextSetting) && IdsUnder(db.ipRules, db.nextRule)
    && UniqueSettingKeys(db.settings)
  }

  /** `WHERE id = ?`: the key is read as JavaScript's Number() reads it, and NULL matches nothing.
      MySQL's own reading of a string key (its leading numeric prefix) is not modelled. */
  predicate KeyMatches(key: JsValue, id: int) {
    !key.Undefined? && !key.Null? && ToNumber(key) == Int(id)
  }

  /** Strictly decreasing, so without repeats. */
  predicate Decreasing(s: seq<int>) {
    forall i, j | 0 <= i < j < |s| :: s[i] > s[j]
  }

  /** The ids of the table below n, highest first: a scan in `ORDER BY id DESC` order. */
  function IdsBelow<V>(m: map<int, V>, n: int): (ids: seq<int>)
    ensures forall k | 0 <= k < |ids| :: ids[k] in m && ids[k] < n
    ensures Decreasing(ids)
    ensures forall id | id in m && 1 <= id < n :: id in ids
    decreases n
  {
    if n <= 1 then [] else (if n - 1 in m then [n - 1] else []) + IdsBelow(m, n - 1)
  }

  /** The id of the row a `WHERE id = ?` names, if that row exists. */
  function Lookup<V>(m: map<int, V>, key: JsValue): (r: Option<int>)
    ensures r.Some? ==> r.value in m && KeyMatches(key, r.value)
    ensures r.None? ==> forall id | id in m :: !KeyMatches(key, id)
  {
    if !key.Undefined? && !key.Null? && ToNumber(key).Int? && ToNumber(key).i in m then
      Some(ToNumber(key).i)
    else None
  }

  /**
   * A store failure: the query with this index (counting the queries of one request from 0)
   * throws `error` instead of running.
   */
  datatype Fault = Healthy | FailAt(step: nat, error: Error) {
    function At(k: nat): (r: Option<Error>)
      ensures r.Some? <==> this.FailAt? && step == k
    {
      if this.FailAt? && step == k then Some(error) else None
    }
  }

  /** The same state as fields that the model operations update in place. */
  class Database {
    var columns: map<string, set<string>>
    var users: map<int, Row>
    var nextUser: int
    var boards: map<int, Board>
    var nextBoard: int
    var tasks: map<int, Task>
    var nextTask: int
    var faqs: map<int, Row>
    var nextFaq: int
    var audit: seq<AuditEntry>
    var settings: map<int, Setting>
    var nextSetting: int
    var ipRules: map<int, IpRule>
    var nextRule: int

    function Snapshot(): (d: Db)
      reads this
    {
      Db(columns, users, nextUser, boards, nextBoard, tasks, nextTask, faqs, nextFaq,
         audit, settings, nextSetting, ipRules, nextRule)
    }

    constructor (d: Db)
      ensures Snapshot() == d
    {
      columns, users, nextUser := d.columns, d.users, d.nextUser;
      boards, nextBoard := d.boards, d.nextBoard;
      tasks, nextTask := d.tasks, d.nextTask;
      faqs, nextFaq := d.faqs, d.nextFaq;
      audit := d.audit;
      settings, nextSetting := d.settings, d.nextSetting;
      ipRules, nextRule := d.ipRules, d.nextRule;
    }
  }
}
