/**
 * frontend/src/pages/adminFaq.jsx: the FAQ inbox. Each question row can be edited in a draft
 * (an object of drafts keyed by `String(question.id)`); saving sends the draft's values over the
 * stored ones and reloads the list with the current filter. The page's state is a class; each
 * handler runs to completion with the outcome of its awaited calls as parameters.
 */
module AdminFaq {
  import opened Wrappers
  import opened JsValues
  import opened Client

  /** `drafts[id] || {}`. */
  function DraftFor(drafts: Object, id: JsValue): (d: JsValue)
    ensures Truthy(d)
  {
    Or(Prop(drafts, ToStr(id)), Obj([]))
  }

  /**
   * updateDraft: `{ ...prev, [id]: { ...(prev[id] || {}), [field]: value } }`. Drafts only ever
   * hold objects, and `{ ...{} }` and `{ ...undefined }` both spread to nothing.
   */
  function UpdateDraft(drafts: Object, id: JsValue, field: string, value: JsValue): Object {
    SetNested(drafts, ToStr(id), field, value)
  }

  /**
   * Only the named field of that question's draft changes: the draft's other fields and every
   * other question's draft stay as they were.
   */
  lemma UpdateDraftOnlyThatField(drafts: Object, id: JsValue, field: string, value: JsValue)
    ensures var r := UpdateDraft(drafts, id, field, value);
      && Field(DraftFor(r, id), field) == value
      && (forall c | c != field :: Field(DraftFor(r, id), c) == Field(DraftFor(drafts, id), c))
      && (forall other | ToStr(other) != ToStr(id) :: DraftFor(r, other) == DraftFor(drafts, other))
  {
    SetNestedOnlyThatKey(drafts, ToStr(id), field, value);
  }

  /** `draft[field] !== undefined ? draft[field] : fallback`. */
  function DraftOr(draft: JsValue, field: string, fallback: JsValue): (v: JsValue)
    ensures Field(draft, field) != Undefined ==> v == Field(draft, field)
    ensures Field(draft, field) == Undefined ==> v == fallback
  {
    if Field(draft, field) != Undefined then Field(draft, field) else fallback
  }

  /** The answer shown and saved: the draft's, else `question.answer || ''`. */
  function AnswerValue(drafts: Object, question: Object): JsValue {
    DraftOr(DraftFor(drafts, Prop(question, "id")), "answer", Or(Prop(question, "answer"), Str("")))
  }

  /** The published flag shown and saved: the draft's, else `Boolean(question.is_published)`. */
  function PublishedValue(drafts: Object, question: Object): JsValue {
    DraftOr(DraftFor(drafts, Prop(question, "id")), "is_published", Bool(Truthy(Prop(question, "is_published"))))
  }

  /** The status shown and saved: the draft's, else `question.status || 'open'`. */
  function StatusValue(drafts: Object, question: Object): JsValue {
    DraftOr(DraftFor(drafts, Prop(question, "id")), "status", Or(Prop(question, "status"), Str("open")))
  }

  /** handleSave's payload. */
  function SavePayload(drafts: Object, question: Object): (p: Object)
    ensures Keys(p) == ["answer", "is_published", "status"]
  {
    [("answer", AnswerValue(drafts, question)), ("is_published", PublishedValue(drafts, question)),
     ("status", StatusValue(drafts, question))]
  }

  /** What the card shows is what Save sends. */
  lemma PayloadAsShown(drafts: Object, question: Object)
    ensures var p := SavePayload(drafts, question);
      && Prop(p, "answer") == AnswerValue(drafts, question)
      && Prop(p, "is_published") == PublishedValue(drafts, question)
      && Prop(p, "status") == StatusValue(drafts, question)
  {
    var p := SavePayload(drafts, question);
    PropAt(p, 1);
    PropAt(p, 2);
  }

  /**
   * A question without a draft is sent as stored, with '' for a missing answer, the truthiness
   * of is_published and 'open' for a missing status.
   */
  lemma NoDraftSendsStored(drafts: Object, question: Object)
    requires !Truthy(Prop(drafts, ToStr(Prop(question, "id"))))
    ensures AnswerValue(drafts, question) == Or(Prop(question, "answer"), Str(""))
    ensures PublishedValue(drafts, question) == Bool(Truthy(Prop(question, "is_published")))
    ensures StatusValue(drafts, question) == Or(Prop(question, "status"), Str("open"))
  {
  }

  /**
   * A field edited in the draft is sent as edited, even when it is '' or false and the stored
   * value is set: only undefined falls back to the stored value.
   */
  lemma EditedFieldIsSent(drafts: Object, question: Object, field: string, value: JsValue)
    requires value != Undefined
    ensures var r := UpdateDraft(drafts, Prop(question, "id"), field, value);
      && (field == "answer" ==> AnswerValue(r, question) == value)
      && (field == "is_published" ==> PublishedValue(r, question) == value)
      && (field == "status" ==> StatusValue(r, question) == value)
  {
    UpdateDraftOnlyThatField(drafts, Prop(question, "id"), field, value);
  }

  /** An empty answer or an unpublished flag in the draft wins over what is stored. */
  lemma FalsyDraftOverrides(drafts: Object, question: Object)
    ensures Field(DraftFor(drafts, Prop(question, "id")), "answer") == Str("") ==> AnswerValue(drafts, question) == Str("")
    ensures Field(DraftFor(drafts, Prop(question, "id")), "is_published") == Bool(false) ==> PublishedValue(drafts, question) == Bool(false)
  {
  }

  class AdminFaqPage {
    var questions: seq<Object>
    var message: JsValue
    var loading: bool
    var drafts: Object
    var filter: string

    /** The initial state of every `useState`: no drafts, and the filter 'all'. */
    constructor ()
      ensures questions == [] && message == Str("") && loading && drafts == [] && filter == "all"
    {
      questions, message, loading, drafts, filter := [], Str(""), true, [], "all";
    }

    /**
     * The effect that runs on mount and again whenever the filter changes: the list is fetched
     * for the current filter, a rejection shows the load failure, and loading ends either way.
     */
    method LoadEffect(fetched: Reply<seq<Object>>) returns (status: string)
      modifies this`questions, this`message, this`loading
      ensures status == filter
      ensures fetched.Done? ==> questions == fetched.value && message == old(message)
      ensures fetched.Failed? ==> questions == old(questions) && message == Str("Failed to load FAQ questions.")
      ensures !loading
    {
      status := filter;
      match fetched {
        case Done(data) => questions := data;
        case Failed(_) => message := Str("Failed to load FAQ questions.");
      }
      loading := false;
    }

    /** The status filter select. */
    method SetFilter(value: string)
      modifies this`filter
      ensures filter == value
    {
      filter := value;
    }

    /** The answer textarea, the published checkbox and the status select of one card. */
    method EditDraft(id: JsValue, field: string, value: JsValue)
      modifies this`drafts
      ensures drafts == UpdateDraft(old(drafts), id, field, value)
    {
      drafts := UpdateDraft(drafts, id, field, value);
    }

    /**
     * handleSave: the payload is sent for the question's id; once that resolves the list is
     * reloaded with the current filter and, once that resolves too, the message confirms. A
     * rejection of either shows the server's error, else 'Failed to update FAQ.'. Drafts are
     * kept.
     */
    method Save(question: Object, written: Option<ClientError>, reloaded: Reply<seq<Object>>)
      returns (id: JsValue, payload: Object, refetch: Option<string>)
      modifies this`questions, this`message
      ensures id == Prop(question, "id") && payload == SavePayload(drafts, question)
      ensures written.Some? ==>
        refetch.None? && questions == old(questions) && message == ServerErrorOr(written.value, "Failed to update FAQ.")
      ensures written.None? && reloaded.Done? ==>
        refetch == Some(filter) && questions == reloaded.value && message == Str("FAQ updated.")
      ensures written.None? && reloaded.Failed? ==>
        refetch == Some(filter) && questions == old(questions) && message == ServerErrorOr(reloaded.error, "Failed to update FAQ.")
    {
      id, payload := Prop(question, "id"), SavePayload(drafts, question);
      if written.Some? {
        refetch := None;
        message := ServerErrorOr(written.value, "Failed to update FAQ.");
        return;
      }
      refetch := Some(filter);
      match reloaded {
        case Done(data) =>
          questions := data;
          message := Str("FAQ updated.");
        case Failed(e) =>
          message := ServerErrorOr(e, "Failed to update FAQ.");
      }
    }
  }
}
