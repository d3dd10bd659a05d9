/**
 * backend/src/controllers/faqController.js: the public list of answered questions and the
 * submission of a new one, which is coerced to a string, trimmed and checked for length.
 */
module FaqController {
  import opened Wrappers
  import opened Text
  import opened JsValues
  import opened Store
  import opened Http
  import opened FaqModel

  /** listPublishedFaqs. */
  function ListFaqs(db: Db, fault: Fault): (r: Response)
    ensures fault.At(0).Some? ==> r == Fail(500, "Failed to load FAQs")
    ensures fault.At(0).None? ==> r == Response(200, Arr(ListPublishedFaqs(db, None).value))
  {
    match ListPublishedFaqs(db, fault.At(0))
    case Err(_) => Fail(500, "Failed to load FAQs")
    case Ok(rows) => Response(200, Arr(rows))
  }

  /** `String(question || '').trim()`, with `question` read from `req.body || {}`. */
  function QuestionText(req: Request): string {
    Trim(ToStr(Or(Field(Or(req.body, Obj([])), "question"), Str(""))))
  }

  /** submitQuestion. */
  function SubmitQuestion(req: Request, db: Db, fault: Fault): (r: (Response, Db))
  {
    var text := QuestionText(req);
    if text == "" then (Fail(400, "Question is required"), db)
    else if Utf16Length(text) < 10 then (Fail(400, "Question is too short"), db)
    else
      var (d1, r1) := CreateQuestion(db, req.userId, Str(text), fault.At(0));
      match r1
      case Err(_) => (Fail(500, "Failed to submit question"), d1)
      case Ok(id) => (Response(201, Obj([("message", Str("Question submitted")), ("id", Num(id))])), d1)
  }

  /** A question that is blank once trimmed, or shorter than 10 code units, is a 400 that writes nothing. */
  lemma SubmitQuestionRejects(req: Request, db: Db, fault: Fault)
    ensures QuestionText(req) == "" ==> SubmitQuestion(req, db, fault) == (Fail(400, "Question is required"), db)
    ensures QuestionText(req) != "" && Utf16Length(QuestionText(req)) < 10 ==>
      SubmitQuestion(req, db, fault) == (Fail(400, "Question is too short"), db)
    ensures SubmitQuestion(req, db, fault).0.status == 400 <==> Utf16Length(QuestionText(req)) < 10
  {
  }

  /** A missing, null, false or empty question is the empty text: every one is "Question is required". */
  lemma MissingQuestionIsRequired(req: Request)
    requires !Truthy(Field(Or(req.body, Obj([])), "question"))
    ensures QuestionText(req) == ""
  {
    assert Trim("") == "";
  }

  /**
   * An accepted question is stored trimmed, as an open question of the caller (NULL without
   * one), and the answer carries the new id.
   */
  lemma SubmitQuestionStores(req: Request, db: Db)
    requires Utf16Length(QuestionText(req)) >= 10
    ensures var (resp, d) := SubmitQuestion(req, db, Healthy);
      && resp == Response(201, Obj([("message", Str("Question submitted")), ("id", Num(db.nextFaq))]))
      && db.nextFaq in d.faqs && d.nextFaq == db.nextFaq + 1
      && Col(d.faqs[db.nextFaq], "question") == Str(QuestionText(req))
      && Col(d.faqs[db.nextFaq], "user_id") == (if Truthy(req.userId) then req.userId else Null)
      && Col(d.faqs[db.nextFaq], "status") == Str("open")
      && (forall id | id in db.faqs && id != db.nextFaq :: id in d.faqs && d.faqs[id] == db.faqs[id])
  {
  }

  /** The stored text has nothing left to trim and is never blank. */
  lemma StoredQuestionClean(req: Request)
    requires Utf16Length(QuestionText(req)) >= 10
    ensures Trim(QuestionText(req)) == QuestionText(req) && !IsBlank(QuestionText(req))
  {
    TrimIdempotent(ToStr(Or(Field(Or(req.body, Obj([])), "question"), Str(""))));
  }
}
