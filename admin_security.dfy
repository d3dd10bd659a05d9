/**
 * frontend/src/pages/adminSecurity.jsx: the login-lock settings and the IP allow/deny list.
 * The page's state is a class; each handler runs to completion with the outcome of its awaited
 * calls as parameters (a rejected call throws out of the handler before any later state is set).
 */
module AdminSecurity {
  import opened Wrappers
  import opened JsValues
  import opened Client
  import opened AdminDashboard

  /** The settings state before anything is loaded: only the security section. */
  const InitialSettings: Object := [("security", Obj([("lockAfterFailed", Num(5)), ("lockMinutes", Num(15))]))]

  /** handleSave's body, `{ security: settings.security }`. */
  function SecurityRequest(settings: Object): (r: Object)
    ensures Keys(r) == ["security"]
    ensures Prop(r, "security") == Prop(settings, "security")
  {
    [("security", Prop(settings, "security"))]
  }

  /** The lock threshold the input shows: `settings.security?.lockAfterFailed || 5`. */
  function ShownLockAfterFailed(settings: Object): (v: JsValue)
    ensures Truthy(v)
    ensures Truthy(Field(Prop(settings, "security"), "lockAfterFailed")) ==> v == Field(Prop(settings, "security"), "lockAfterFailed")
    ensures !Truthy(Field(Prop(settings, "security"), "lockAfterFailed")) ==> v == Num(5)
  {
    Or(Field(Prop(settings, "security"), "lockAfterFailed"), Num(5))
  }

  /** The lock duration the input shows: `settings.security?.lockMinutes || 15`. */
  function ShownLockMinutes(settings: Object): (v: JsValue)
    ensures Truthy(v)
    ensures Truthy(Field(Prop(settings, "security"), "lockMinutes")) ==> v == Field(Prop(settings, "security"), "lockMinutes")
    ensures !Truthy(Field(Prop(settings, "security"), "lockMinutes")) ==> v == Num(15)
  {
    Or(Field(Prop(settings, "security"), "lockMinutes"), Num(15))
  }

  /**
   * A stored 0, or no security section at all, shows the defaults 5 and 15, which are also what
   * the page starts with.
   */
  lemma ShownFallbacks(settings: Object)
    ensures Field(Prop(settings, "security"), "lockAfterFailed") == Num(0) ==> ShownLockAfterFailed(settings) == Num(5)
    ensures Field(Prop(settings, "security"), "lockMinutes") == Num(0) ==> ShownLockMinutes(settings) == Num(15)
    ensures Prop(settings, "security") == Undefined ==> ShownLockAfterFailed(settings) == Num(5) && ShownLockMinutes(settings) == Num(15)
    ensures ShownLockAfterFailed(InitialSettings) == Num(5) && ShownLockMinutes(InitialSettings) == Num(15)
  {
    var security: Object := [("lockAfterFailed", Num(5)), ("lockMinutes", Num(15))];
    PropAt(security, 1);
  }

  /**
   * Typing into one lock input sets that number, which the input then shows unless it is 0
   * (shown as the default); the other input and the other sections stay as they were.
   */
  lemma EditLockShown(settings: Object, key: string, amount: int)
    requires key == "lockAfterFailed" || key == "lockMinutes"
    ensures var edited := SetNested(settings, "security", key, Num(amount));
      && (key == "lockAfterFailed" ==>
        ShownLockAfterFailed(edited) == (if amount != 0 then Num(amount) else Num(5))
        && ShownLockMinutes(edited) == ShownLockMinutes(settings))
      && (key == "lockMinutes" ==>
        ShownLockMinutes(edited) == (if amount != 0 then Num(amount) else Num(15))
        && ShownLockAfterFailed(edited) == ShownLockAfterFailed(settings))
      && (forall s | s != "security" :: Prop(edited, s) == Prop(settings, s))
  {
    SetNestedOnlyThatKey(settings, "security", key, Num(amount));
  }

  /**
   * After a save the server's sections replace the page's, so the inputs show the security
   * values the server kept; a section the server left out keeps the page's value.
   */
  lemma SavedSecurityShown(prev: Object, updated: Object)
    ensures UniqueKeys(updated) && "security" in Keys(updated) ==>
      && ShownLockAfterFailed(Spread(prev, updated)) == Or(Field(Prop(updated, "security"), "lockAfterFailed"), Num(5))
      && ShownLockMinutes(Spread(prev, updated)) == Or(Field(Prop(updated, "security"), "lockMinutes"), Num(15))
    ensures "security" !in Keys(updated) ==>
      ShownLockAfterFailed(Spread(prev, updated)) == ShownLockAfterFailed(prev)
      && ShownLockMinutes(Spread(prev, updated)) == ShownLockMinutes(prev)
  {
    MergedSettings(prev, updated, "security");
  }

  class AdminSecurityPage {
    var settings: Object
    var ipRules: seq<Object>
    var newRule: RuleForm
    var message: string

    /** The initial state of every `useState`. */
    constructor ()
      ensures settings == InitialSettings && ipRules == [] && newRule == BlankRule && message == ""
    {
      settings, ipRules, newRule, message := InitialSettings, [], BlankRule, "";
    }

    /**
     * loadData on mount: when both loads resolve, the loaded settings are spread over the page's
     * and the rules replace the list; when either rejects, only the message is set.
     */
    method LoadData(loaded: Reply<(Object, seq<Object>)>)
      modifies this`settings, this`ipRules, this`message
      ensures loaded.Done? ==>
        settings == Spread(old(settings), loaded.value.0) && ipRules == loaded.value.1 && message == old(message)
      ensures loaded.Failed? ==>
        settings == old(settings) && ipRules == old(ipRules) && message == "Failed to load security settings."
    {
      match loaded {
        case Done((loadedSettings, rules)) =>
          settings := Spread(settings, loadedSettings);
          ipRules := rules;
        case Failed(_) =>
          message := "Failed to load security settings.";
      }
    }

    /**
     * handleSave: only the security section is sent; the sections the server answers with are
     * spread over the page's, and the message confirms.
     */
    method Save(saved: Reply<Object>) returns (request: Object)
      modifies this`settings, this`message
      ensures request == SecurityRequest(old(settings))
      ensures saved.Done? ==> settings == Spread(old(settings), saved.value) && message == "Security settings updated."
      ensures saved.Failed? ==> settings == old(settings) && message == old(message)
    {
      request := SecurityRequest(settings);
      if saved.Done? {
        settings := Spread(settings, saved.value);
        message := "Security settings updated.";
      }
    }

    /** The two lock inputs: `{ ...settings, security: { ...settings.security, [key]: Number(value) } }`. */
    method EditLock(key: string, amount: int)
      requires key == "lockAfterFailed" || key == "lockMinutes"
      modifies this`settings
      ensures settings == SetNested(old(settings), "security", key, Num(amount))
    {
      settings := SetNested(settings, "security", key, Num(amount));
    }

    /** The inputs of the new-rule form. */
    method EditRule(form: RuleForm)
      modifies this`newRule
      ensures newRule == form
    {
      newRule := form;
    }

    /**
     * handleAddIpRule: a blank ip sends nothing and changes nothing. Otherwise the form is
     * posted; once that resolves the form is reset, and once the refetch resolves its rules
     * replace the list.
     */
    method AddIpRule(added: Option<ClientError>, fetched: Reply<seq<Object>>) returns (request: Option<Object>)
      modifies this`newRule, this`ipRules
      ensures !Submittable(old(newRule)) ==> request.None? && newRule == old(newRule) && ipRules == old(ipRules)
      ensures Submittable(old(newRule)) ==>
        && request == Some(RulePayload(old(newRule)))
        && newRule == (if added.None? then BlankRule else old(newRule))
        && ipRules == (if added.None? && fetched.Done? then fetched.value else old(ipRules))
    {
      if !Submittable(newRule) {
        return None;
      }
      request := Some(RulePayload(newRule));
      if added.Some? {
        return;
      }
      newRule := BlankRule;
      if fetched.Done? {
        ipRules := fetched.value;
      }
    }

    /** handleRemoveIpRule: after the DELETE resolves, the rules with that id leave the list. */
    method RemoveIpRule(id: JsValue, deleted: Option<ClientError>)
      modifies this`ipRules
      ensures ipRules == if deleted.None? then WithoutId(old(ipRules), id) else old(ipRules)
    {
      if deleted.None? {
        ipRules := WithoutId(ipRules, id);
      }
    }
  }
}
