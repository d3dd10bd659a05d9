/**
 * frontend/src/pages/adminDashboard.jsx: the admin overview. The user list and the IP-rule
 * list are replaced through `map` and `filter` after each awaited call; the settings loaded
 * from the server are spread over the page's defaults. The page's state is a class; each
 * handler runs to completion with the outcome of its awaited calls as parameters (a rejected
 * call throws out of the handler before any state is set). Lists of rows are the objects the
 * server sent; `===` on the ids the rows carry (numbers) is equality of values.
 */
module AdminDashboard {
  import opened Wrappers
  import opened Text
  import opened JsValues
  import opened Client

  /** The new-rule form: the text of the ip input, the selected type and the description. */
  datatype RuleForm = RuleForm(ip: string, ruleType: string, description: string)

  /** `{ ip: '', type: 'allow', description: '' }`, the form at start and after every add. */
  const BlankRule := RuleForm("", "allow", "")

  /** The object addIpRule posts: the form as it is. */
  function RulePayload(form: RuleForm): Object {
    [("ip", Str(form.ip)), ("type", Str(form.ruleType)), ("description", Str(form.description))]
  }

  /** The rule is posted as typed, under the names the server reads. */
  lemma RulePayloadPosted(form: RuleForm)
    ensures var p := RulePayload(form);
      && Prop(p, "ip") == Str(form.ip) && Prop(p, "type") == Str(form.ruleType)
      && Prop(p, "description") == Str(form.description)
  {
    var p := RulePayload(form);
    PropAt(p, 0);
    PropAt(p, 1);
    PropAt(p, 2);
  }

  /** handleAddIpRule's guard: an ip that trims to nothing is not submitted. */
  predicate Submittable(form: RuleForm) {
    Trim(form.ip) != ""
  }

  /** The settings state before anything is loaded. */
  const DefaultSettings: Object := [
    ("defaults", Obj([("priority", Str("Medium")), ("status", Str("Pending")), ("dueDays", Num(7))])),
    ("features", Obj([("comments", Bool(true)), ("attachments", Bool(true)), ("notifications", Bool(true))])),
    ("maintenance", Obj([("enabled", Bool(false)), ("message", Str(""))])),
    ("security", Obj([("lockAfterFailed", Num(5)), ("lockMinutes", Num(15))]))
  ]

  /** The default security section locks after 5 failures for 15 minutes, and maintenance starts off. */
  lemma DefaultSettingsValues()
    ensures Prop(DefaultSettings, "security") == Obj([("lockAfterFailed", Num(5)), ("lockMinutes", Num(15))])
    ensures Field(Prop(DefaultSettings, "maintenance"), "enabled") == Bool(false)
    ensures Keys(DefaultSettings) == ["defaults", "features", "maintenance", "security"]
  {
    PropAt(DefaultSettings, 2);
    PropAt(DefaultSettings, 3);
    var m: Object := [("enabled", Bool(false)), ("message", Str(""))];
    PropAt(m, 0);
  }

  /**
   * `setSettings(prev => ({ ...prev, ...loaded }))`: a section the server sent replaces the
   * one the page had; a section the server did not send keeps its earlier value.
   */
  lemma MergedSettings(prev: Object, loaded: Object, section: string)
    ensures section !in Keys(loaded) ==> Prop(Spread(prev, loaded), section) == Prop(prev, section)
    ensures UniqueKeys(loaded) && section in Keys(loaded) ==> Prop(Spread(prev, loaded), section) == Prop(loaded, section)
  {
    if section !in Keys(loaded) {
      SpreadKeeps(prev, loaded, section);
    } else if UniqueKeys(loaded) {
      SpreadOverrides(prev, loaded, section);
    }
  }

  /** A first load that lacks the security section leaves the default one in place. */
  lemma FirstLoadKeepsDefaultSecurity(loaded: Object)
    requires "security" !in Keys(loaded)
    ensures Prop(Spread(DefaultSettings, loaded), "security") == Obj([("lockAfterFailed", Num(5)), ("lockMinutes", Num(15))])
  {
    MergedSettings(DefaultSettings, loaded, "security");
    DefaultSettingsValues();
  }

  /** handleStatusToggle's next status: 'disabled' becomes 'active', anything else 'disabled'. */
  function NextStatus(current: JsValue): (next: JsValue)
    ensures next == Str("active") || next == Str("disabled")
  {
    if current == Str("disabled") then Str("active") else Str("disabled")
  }

  /**
   * The toggle flips between the two known statuses, so two toggles give back the status; a
   * user shown without a status shows 'active' and is toggled to 'disabled'.
   */
  lemma StatusToggleFlips(user: Object)
    ensures NextStatus(Str("active")) == Str("disabled") && NextStatus(Str("disabled")) == Str("active")
    ensures forall s | s == Str("active") || s == Str("disabled") :: NextStatus(NextStatus(s)) == s
    ensures !Truthy(Prop(user, "status")) ==> NextStatus(DisplayStatus(user)) == Str("disabled")
    ensures NextStatus(DisplayStatus(user)) == Str("active") <==> Prop(user, "status") == Str("disabled")
  {
  }

  /** The status shown in a user's row (and handed to the toggle): `user.status || 'active'`. */
  function DisplayStatus(user: Object): (s: JsValue)
    ensures Truthy(s)
    ensures Truthy(Prop(user, "status")) ==> s == Prop(user, "status")
    ensures !Truthy(Prop(user, "status")) ==> s == Str("active")
  {
    Or(Prop(user, "status"), Str("active"))
  }

  /** The role shown in a user's row: `user.role || 'user'`. */
  function DisplayRole(user: Object): (r: JsValue)
    ensures Truthy(r)
    ensures Truthy(Prop(user, "role")) ==> r == Prop(user, "role")
    ensures !Truthy(Prop(user, "role")) ==> r == Str("user")
  {
    Or(Prop(user, "role"), Str("user"))
  }

  /** `users.map(user => (user.id === id ? { ...user, [key]: value } : user))`. */
  function UpdateMatching(users: seq<Object>, id: JsValue, key: string, value: JsValue): (r: seq<Object>)
    ensures |r| == |users|
  {
    seq(|users|, k requires 0 <= k < |users| =>
      if Prop(users[k], "id") == id then Spread(users[k], [(key, value)]) else users[k])
  }

  /** `after` is `before` with key set to value and nothing else changed. */
  ghost predicate UpdatedRow(before: Object, after: Object, key: string, value: JsValue) {
    Prop(after, key) == value && forall c | c != key :: Prop(after, c) == Prop(before, c)
  }

  /**
   * Only the rows with that id change, and only in that key; every other row is the very same
   * object, and the list keeps its order and length.
   */
  lemma UpdateMatchingOnlyThatUser(users: seq<Object>, id: JsValue, key: string, value: JsValue)
    ensures var r := UpdateMatching(users, id, key, value);
      && |r| == |users|
      && (forall k | 0 <= k < |users| && Prop(users[k], "id") != id :: r[k] == users[k])
      && (forall k | 0 <= k < |users| && Prop(users[k], "id") == id :: UpdatedRow(users[k], r[k], key, value))
  {
    var r := UpdateMatching(users, id, key, value);
    forall k | 0 <= k < |users| && Prop(users[k], "id") == id ensures UpdatedRow(users[k], r[k], key, value) {
      assert Spread(users[k], [(key, value)]) == SetProp(users[k], key, value);
    }
  }

  /** A change of any key but id keeps every row's id, so the same rows match the next time. */
  lemma UpdateMatchingKeepsIds(users: seq<Object>, id: JsValue, key: string, value: JsValue)
    requires key != "id"
    ensures var r := UpdateMatching(users, id, key, value);
      forall k | 0 <= k < |users| :: Prop(r[k], "id") == Prop(users[k], "id")
  {
    UpdateMatchingOnlyThatUser(users, id, key, value);
  }

  /** `rules.filter(rule => rule.id !== id)`. */
  function WithoutId(rules: seq<Object>, id: JsValue): (r: seq<Object>)
    ensures |r| <= |rules|
  {
    if rules == [] then []
    else (if Prop(rules[0], "id") != id then [rules[0]] else []) + WithoutId(rules[1..], id)
  }

  /**
   * Exactly the rules with that id go: none is left, and every other rule stays as often as
   * it was there. A list without that id is kept as it is.
   */
  lemma WithoutIdExactly(rules: seq<Object>, id: JsValue)
    ensures var r := WithoutId(rules, id);
      && (forall k | 0 <= k < |r| :: Prop(r[k], "id") != id)
      && (forall x :: multiset(r)[x] == if Prop(x, "id") != id then multiset(rules)[x] else 0)
    ensures (forall k | 0 <= k < |rules| :: Prop(rules[k], "id") != id) ==> WithoutId(rules, id) == rules
  {
    WithoutIdLeavesNone(rules, id);
    WithoutIdCounts(rules, id);
    if forall k | 0 <= k < |rules| :: Prop(rules[k], "id") != id {
      WithoutIdKeeps(rules, id);
    }
  }

  predicate NoneWithId(rules: seq<Object>, id: JsValue) {
    forall k | 0 <= k < |rules| :: Prop(rules[k], "id") != id
  }

  lemma {:induction false} WithoutIdLeavesNone(rules: seq<Object>, id: JsValue)
    ensures NoneWithId(WithoutId(rules, id), id)
  {
    if rules != [] {
      var tail := WithoutId(rules[1..], id);
      WithoutIdLeavesNone(rules[1..], id);
      if Prop(rules[0], "id") != id {
        assert WithoutId(rules, id) == [rules[0]] + tail;
        forall k | 0 <= k < |[rules[0]] + tail| ensures Prop(([rules[0]] + tail)[k], "id") != id {
          if k > 0 {
            assert ([rules[0]] + tail)[k] == tail[k - 1];
          }
        }
      } else {
        assert WithoutId(rules, id) == tail;
      }
    }
  }

  lemma {:induction false} WithoutIdCounts(rules: seq<Object>, id: JsValue)
    ensures forall x :: multiset(WithoutId(rules, id))[x] == if Prop(x, "id") != id then multiset(rules)[x] else 0
  {
    if rules != [] {
      WithoutIdCounts(rules[1..], id);
      assert rules == [rules[0]] + rules[1..];
      var head: seq<Object> := if Prop(rules[0], "id") != id then [rules[0]] else [];
      assert multiset(WithoutId(rules, id)) == multiset(head) + multiset(WithoutId(rules[1..], id));
      assert multiset(rules) == multiset([rules[0]]) + multiset(rules[1..]);
    }
  }

  lemma {:induction false} WithoutIdKeeps(rules: seq<Object>, id: JsValue)
    requires forall k | 0 <= k < |rules| :: Prop(rules[k], "id") != id
    ensures WithoutId(rules, id) == rules
  {
    if rules != [] {
      assert forall k | 0 <= k < |rules[1..]| :: Prop(rules[1..][k], "id") != id by {
        forall k | 0 <= k < |rules[1..]| ensures Prop(rules[1..][k], "id") != id {
          assert rules[1..][k] == rules[k + 1];
        }
      }
      WithoutIdKeeps(rules[1..], id);
      assert rules == [rules[0]] + rules[1..];
    }
  }

  /** The four loads `Promise.all` awaits, when all of them resolve. */
  datatype Loaded = Loaded(users: seq<Object>, logs: seq<JsValue>, settings: Object, rules: seq<Object>)

  class AdminDashboardPage {
    var users: seq<Object>
    var auditLogs: seq<JsValue>
    var settings: Object
    var ipRules: seq<Object>
    var newRule: RuleForm
    var message: string

    /** The initial state of every `useState`. */
    constructor ()
      ensures users == [] && auditLogs == [] && settings == DefaultSettings && ipRules == []
      ensures newRule == BlankRule && message == ""
    {
      users, auditLogs, settings, ipRules := [], [], DefaultSettings, [];
      newRule, message := BlankRule, "";
    }

    /**
     * loadData on mount: when all four loads resolve, the lists are replaced and the settings
     * spread over the ones the page had; when any rejects, nothing is set but the message.
     */
    method LoadData(loaded: Reply<Loaded>)
      modifies this`users, this`auditLogs, this`settings, this`ipRules, this`message
      ensures loaded.Done? ==>
        && users == loaded.value.users && auditLogs == loaded.value.logs && ipRules == loaded.value.rules
        && settings == Spread(old(settings), loaded.value.settings) && message == old(message)
      ensures loaded.Failed? ==>
        && users == old(users) && auditLogs == old(auditLogs) && ipRules == old(ipRules)
        && settings == old(settings) && message == "Failed to load admin data."
    {
      match loaded {
        case Done(data) =>
          users, auditLogs := data.users, data.logs;
          settings := Spread(settings, data.settings);
          ipRules := data.rules;
        case Failed(_) =>
          message := "Failed to load admin data.";
      }
    }

    /** handleRoleChange: after the PATCH resolves (`written` is None) the users with that id take the role. */
    method RoleChange(id: JsValue, role: string, written: Option<ClientError>) returns (request: Object)
      modifies this`users
      ensures request == [("role", Str(role))]
      ensures users == if written.None? then UpdateMatching(old(users), id, "role", Str(role)) else old(users)
    {
      request := [("role", Str(role))];
      if written.None? {
        users := UpdateMatching(users, id, "role", Str(role));
      }
    }

    /** handleStatusToggle: the flipped status is sent, then set on the users with that id. */
    method StatusToggle(id: JsValue, currentStatus: JsValue, written: Option<ClientError>) returns (request: Object)
      modifies this`users
      ensures request == [("status", NextStatus(currentStatus))]
      ensures users == if written.None? then UpdateMatching(old(users), id, "status", NextStatus(currentStatus)) else old(users)
    {
      var nextStatus := NextStatus(currentStatus);
      request := [("status", nextStatus)];
      if written.None? {
        users := UpdateMatching(users, id, "status", nextStatus);
      }
    }

    /** handleForceReset: after the call resolves, the users with that id have force_password_reset 1. */
    method ForceReset(id: JsValue, written: Option<ClientError>)
      modifies this`users
      ensures users == if written.None? then UpdateMatching(old(users), id, "force_password_reset", Num(1)) else old(users)
    {
      if written.None? {
        users := UpdateMatching(users, id, "force_password_reset", Num(1));
      }
    }

    /** handleRevokeSessions: only the message changes, and only once the call resolved. */
    method RevokeSessions(id: JsValue, written: Option<ClientError>)
      modifies this`message
      ensures message == if written.None? then "Sessions revoked for the selected user." else old(message)
    {
      if written.None? {
        message := "Sessions revoked for the selected user.";
      }
    }

    /** handleSettingsSave: every section is sent, and the server's answer replaces the settings whole. */
    method SettingsSave(saved: Reply<Object>) returns (request: Object)
      modifies this`settings, this`message
      ensures request == old(settings)
      ensures saved.Done? ==> settings == saved.value && message == "Settings updated."
      ensures saved.Failed? ==> settings == old(settings) && message == old(message)
    {
      request := settings;
      if saved.Done? {
        settings := saved.value;
        message := "Settings updated.";
      }
    }

    /** An input of a settings section: `{ ...settings, [section]: { ...settings[section], [key]: value } }`. */
    method EditSettings(section: string, key: string, value: JsValue)
      modifies this`settings
      ensures settings == SetNested(old(settings), section, key, value)
    {
      settings := SetNested(settings, section, key, value);
    }

    /** The inputs of the new-rule form: each one replaces its own field of newRule. */
    method EditRule(form: RuleForm)
      modifies this`newRule
      ensures newRule == form
    {
      newRule := form;
    }

    /**
     * handleAddIpRule: a blank ip sends nothing and changes nothing. Otherwise the form is
     * posted; once that resolves the form is reset, and once the refetch resolves its rules
     * replace the list.
     */
    method AddIpRule(added: Option<ClientError>, fetched: Reply<seq<Object>>) returns (request: Option<Object>)
      modifies this`newRule, this`ipRules
      ensures !Submittable(old(newRule)) ==> request.None? && newRule == old(newRule) && ipRules == old(ipRules)
      ensures Submittable(old(newRule)) ==>
        && request == Some(RulePayload(old(newRule)))
        && newRule == (if added.None? then BlankRule else old(newRule))
        && ipRules == (if added.None? && fetched.Done? then fetched.value else old(ipRules))
    {
      if !Submittable(newRule) {
        return None;
      }
      request := Some(RulePayload(newRule));
      if added.Some? {
        return;
      }
      newRule := BlankRule;
      if fetched.Done? {
        ipRules := fetched.value;
      }
    }

    /** handleRemoveIpRule: after the DELETE resolves, the rules with that id leave the list. */
    method RemoveIpRule(id: JsValue, deleted: Option<ClientError>)
      modifies this`ipRules
      ensures ipRules == if deleted.None? then WithoutId(old(ipRules), id) else old(ipRules)
    {
      if deleted.None? {
        ipRules := WithoutId(ipRules, id);
      }
    }
  }
}
