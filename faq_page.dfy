/**
 * frontend/src/pages/faq.jsx: the public FAQ page. Its submission guard is a pure function;
 * the page's state is a class whose handlers take the outcome of their awaited calls as
 * parameters. `trimmed.length` counts UTF-16 code units, as the server does.
 */
module FaqPage {
  import opened Wrappers
  import opened Text
  import opened JsValues
  import opened Client
  import opened Store
  import opened Http
  import opened FaqController

  /** handleSubmit's guards: the message shown instead of sending, or None when the question is sent. */
  function Rejection(signedIn: bool, question: string): (r: Option<string>)
    ensures !signedIn ==> r == Some("Please sign in to submit a question.")
    ensures signedIn ==> (r.Some? <==> Utf16Length(Trim(question)) < 10)
    ensures signedIn && r.Some? ==> r.value == "Please enter a longer question."
  {
    if !signedIn then Some("Please sign in to submit a question.")
    else
      var trimmed := Trim(question);
      if trimmed == "" || Utf16Length(trimmed) < 10 then Some("Please enter a longer question.")
      else None
  }

  /** The body submitFaqQuestion posts for the trimmed text. */
  function QuestionBody(trimmed: string): JsValue {
    Obj([("question", Str(trimmed))])
  }

  /**
   * A question the page sends passes the server's checks unchanged: the server reads back
   * exactly the trimmed text and stores it, answering 201.
   */
  lemma SentQuestionAccepted(question: string, userId: JsValue, ip: JsValue, userAgent: JsValue, db: Db)
    requires Rejection(true, question).None?
    ensures var req := Request(QuestionBody(Trim(question)), Undefined, userId, ip, userAgent);
      && QuestionText(req) == Trim(question)
      && SubmitQuestion(req, db, Healthy).0.status == 201
  {
    var req := Request(QuestionBody(Trim(question)), Undefined, userId, ip, userAgent);
    TrimIdempotent(question);
    ReadBack(Trim(question), req);
    SubmitQuestionStores(req, db);
  }

  /**
   * For a signed-in user the page and the server draw the line at the same text: the page
   * turns a question away exactly when the server would answer 400 to its trimmed text.
   */
  lemma GuardsAgree(question: string, userId: JsValue, ip: JsValue, userAgent: JsValue, db: Db, fault: Fault)
    ensures var req := Request(QuestionBody(Trim(question)), Undefined, userId, ip, userAgent);
      Rejection(true, question).Some? <==> SubmitQuestion(req, db, fault).0.status == 400
  {
    var req := Request(QuestionBody(Trim(question)), Undefined, userId, ip, userAgent);
    TrimIdempotent(question);
    ReadBack(Trim(question), req);
    SubmitQuestionRejects(req, db, fault);
  }

  /** The server reads a posted trimmed text back as it is. */
  lemma ReadBack(trimmed: string, req: Request)
    requires trimmed == Trim(trimmed) && req.body == QuestionBody(trimmed)
    ensures QuestionText(req) == trimmed
  {
    assert Field(req.body, "question") == Str(trimmed);
  }

  /** `openIndex === index ? null : index`. */
  function Toggle(openIndex: Option<int>, index: int): (r: Option<int>)
    ensures r.Some? ==> r.value == index
    ensures r == Some(index) <==> openIndex != Some(index)
  {
    if openIndex == Some(index) then None else Some(index)
  }

  /** Clicking the same item twice leaves it open or closed as it was, and any other item closed. */
  lemma ToggleTwice(openIndex: Option<int>, index: int)
    ensures Toggle(Toggle(openIndex, index), index) == if openIndex == Some(index) then Some(index) else None
  {
  }

  class FaqPageState {
    var faqs: seq<Object>
    var question: string
    var message: JsValue
    var loading: bool
    var submitting: bool
    var openIndex: Option<int>

    /** The initial state of every `useState`: nothing open, nothing typed. */
    constructor ()
      ensures faqs == [] && question == "" && message == Str("") && loading && !submitting && openIndex.None?
    {
      faqs, question, message := [], "", Str("");
      loading, submitting, openIndex := true, false, None;
    }

    /** The mount effect: the published FAQs replace the list, or the load failure is shown; loading ends either way. */
    method Mount(fetched: Reply<seq<Object>>)
      modifies this`faqs, this`message, this`loading
      ensures fetched.Done? ==> faqs == fetched.value && message == old(message)
      ensures fetched.Failed? ==> faqs == old(faqs) && message == Str("Failed to load FAQs.")
      ensures !loading
    {
      match fetched {
        case Done(data) => faqs := data;
        case Failed(_) => message := Str("Failed to load FAQs.");
      }
      loading := false;
    }

    /** The question textarea. */
    method EditQuestion(text: string)
      modifies this`question
      ensures question == text
    {
      question := text;
    }

    /**
     * handleSubmit: a guard that fails shows its message and sends nothing. Otherwise the
     * trimmed text is posted; on success the input is cleared and a confirmation shown, on
     * failure the server's error (else 'Failed to submit question.') is shown and the input kept.
     * Submitting ends false once the post settles.
     */
    method Submit(signedIn: bool, sent: Option<ClientError>) returns (request: Option<JsValue>)
      modifies this`question, this`message, this`submitting
      ensures Rejection(signedIn, old(question)).Some? ==>
        && request.None? && message == Str(Rejection(signedIn, old(question)).value)
        && question == old(question) && submitting == old(submitting)
      ensures Rejection(signedIn, old(question)).None? ==>
        && request == Some(QuestionBody(Trim(old(question)))) && !submitting
        && (sent.None? ==> question == "" && message == Str("Question sent. Our team will review it soon."))
        && (sent.Some? ==> question == old(question) && message == ServerErrorOr(sent.value, "Failed to submit question."))
    {
      var refused := Rejection(signedIn, question);
      if refused.Some? {
        message := Str(refused.value);
        return None;
      }
      submitting := true;
      request := Some(QuestionBody(Trim(question)));
      match sent {
        case None =>
          question := "";
          message := Str("Question sent. Our team will review it soon.");
        case Some(e) =>
          message := ServerErrorOr(e, "Failed to submit question.");
      }
      submitting := false;
    }

    /** A click on the item at index. */
    method ToggleItem(index: int)
      modifies this`openIndex
      ensures openIndex == Toggle(old(openIndex), index)
    {
      openIndex := Toggle(openIndex, index);
    }
  }
}
