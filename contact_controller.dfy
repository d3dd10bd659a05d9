/**
 * backend/src/controllers/contactController.js: the contact form. Four required fields, the
 * email rule, then two mails: the submission to the configured recipient and, only once that
 * one is sent, the acknowledgement to the submitter. The mail transport is a parameter: the
 * outcome of each send (an error message, or none) is given, and the model returns the mails
 * it hands over, in order.
 */
module ContactController {
  import opened Wrappers
  import opened Text
  import opened JsValues
  import opened Email
  import opened Http

  /** The environment the handler reads: GMAIL_USER, CONTACT_EMAIL_RECIPIENT and NODE_ENV. */
  datatype Config = Config(sender: JsValue, recipient: JsValue, development: bool)

  datatype Mail = Mail(from: JsValue, to: JsValue, subject: string, html: Html)

  function Refuse(message: string): Response {
    Response(400, Obj([("success", Bool(false)), ("message", Str(message))]))
  }

  /** The catch: the error's message is part of the answer only in development. */
  function Failure(config: Config, error: string): (r: Response)
  {
    Response(500, Obj([("success", Bool(false)), ("message", Str("Failed to send message. Please try again later."))]
      + (if config.development then [("error", Str(error))] else [])))
  }

  /**
   * The html body of a mail, as the template it fills: the submission (sender's name, address,
   * subject, message, date) or the acknowledgement (name, message). `Render` spells it out.
   */
  datatype Html =
    | Submission(name: string, email: string, subject: string, message: string, now: string)
    | Acknowledgement(name: string, message: string)

  /** The template text before the message paragraph. */
  function Head(h: Html): string {
    match h
    case Submission(name, email, subject, _, _) =>
      "\n        <h2>New Contact Form Submission</h2>\n        <p><strong>From:</strong> " + name
      + "</p>\n        <p><strong>Email:</strong> " + email
      + "</p>\n        <p><strong>Subject:</strong> " + subject
      + "</p>\n        <hr/>\n        <p><strong>Message:</strong></p>\n        "
    case Acknowledgement(name, _) =>
      "\n        <h2>Thank you for contacting TaskFlow!</h2>\n        <p>Hi " + name
      + ",</p>\n        <p>We've received your message and will get back to you as soon as possible.</p>\n        <hr/>\n        <p><strong>Your message:</strong></p>\n        "
  }

  /** The template text after the message paragraph. */
  function Tail(h: Html): string {
    match h
    case Submission(_, _, _, _, now) => "\n        <hr/>\n        <p><em>Submitted on: " + now + "</em></p>\n      "
    case Acknowledgement(_, _) => "\n        <hr/>\n        <p>Best regards,<br/>The TaskFlow Team</p>\n      "
  }

  /** The html text: the message, newlines turned into `<br>`, as one paragraph inside the template. */
  function Render(h: Html): (html: string)
    ensures exists a, b :: html == a + "<p>" + ReplaceNewlines(h.message) + "</p>" + b
  {
    var html := Head(h) + "<p>" + ReplaceNewlines(h.message) + "</p>" + Tail(h);
    assert html == Head(h) + "<p>" + ReplaceNewlines(h.message) + "</p>" + Tail(h);
    html
  }

  /** The four fields once destructured; `message` has passed the `replace` call, so it is a string. */
  datatype Form = Form(name: JsValue, email: JsValue, subject: JsValue, message: string)

  function AdminMail(config: Config, form: Form, now: string): Mail {
    Mail(config.sender, config.recipient, "New Contact Form Submission: " + ToStr(form.subject),
      Submission(ToStr(form.name), ToStr(form.email), ToStr(form.subject), form.message, now))
  }

  function UserMail(config: Config, form: Form): Mail {
    Mail(config.sender, form.email, "We received your message - TaskFlow", Acknowledgement(ToStr(form.name), form.message))
  }

  const Sent := Response(200, Obj([("success", Bool(true)), ("message", Str("Your message has been sent successfully!"))]))

  /** The two awaited `sendMail` calls, whose outcomes are given: the second runs only after the first succeeded. */
  function Deliver(config: Config, form: Form, now: string, adminSent: Option<string>, userSent: Option<string>): (r: (Response, seq<Mail>))
  {
    if adminSent.Some? then (Failure(config, adminSent.value), [AdminMail(config, form, now)])
    else if userSent.Some? then (Failure(config, userSent.value), [AdminMail(config, form, now), UserMail(config, form)])
    else (Sent, [AdminMail(config, form, now), UserMail(config, form)])
  }

  /**
   * sendContactEmail. `now` is `new Date().toLocaleString()`; `adminSent` and `userSent` are
   * the outcomes of the two `sendMail` calls.
   */
  function SendContactEmail(req: Request, config: Config, now: string,
                            adminSent: Option<string>, userSent: Option<string>): (r: (Response, seq<Mail>))
  {
    if req.body.Undefined? || req.body.Null? then
      (Failure(config, "Cannot destructure property 'name' of 'req.body' as it is "
                       + (if req.body.Undefined? then "undefined." else "null.")), [])
    else
      var name, email := Field(req.body, "name"), Field(req.body, "email");
      var subject, message := Field(req.body, "subject"), Field(req.body, "message");
      if !Truthy(name) || !Truthy(email) || !Truthy(subject) || !Truthy(message) then
        (Refuse("All fields are required"), [])
      else if !IsValidEmail(ToStr(email)) then (Refuse("Invalid email address"), [])
      else if !message.Str? then (Failure(config, "message.replace is not a function"), [])
      else Deliver(config, Form(name, email, subject, message.s), now, adminSent, userSent)
  }

  /** All four fields present and the email valid: the handler gets as far as sending. */
  predicate Accepted(req: Request) {
    && !req.body.Undefined? && !req.body.Null?
    && Truthy(Field(req.body, "name")) && Truthy(Field(req.body, "email"))
    && Truthy(Field(req.body, "subject")) && Truthy(Field(req.body, "message"))
    && IsValidEmail(ToStr(Field(req.body, "email"))) && Field(req.body, "message").Str?
  }

  /** A missing field or an invalid address is a 400, and no mail is handed over. */
  lemma ContactRefusals(req: Request, config: Config, now: string, adminSent: Option<string>, userSent: Option<string>)
    requires !req.body.Undefined? && !req.body.Null?
    ensures var (resp, mails) := SendContactEmail(req, config, now, adminSent, userSent);
      && (!Truthy(Field(req.body, "name")) || !Truthy(Field(req.body, "email"))
          || !Truthy(Field(req.body, "subject")) || !Truthy(Field(req.body, "message")) ==>
            resp == Refuse("All fields are required") && mails == [])
      && (Truthy(Field(req.body, "name")) && Truthy(Field(req.body, "email"))
          && Truthy(Field(req.body, "subject")) && Truthy(Field(req.body, "message"))
          && !IsValidEmail(ToStr(Field(req.body, "email"))) ==>
            resp == Refuse("Invalid email address") && mails == [])
  {
  }

  /** The form an accepted request is delivered with. */
  function FormOf(req: Request): Form
    requires Field(req.body, "message").Str?
  {
    Form(Field(req.body, "name"), Field(req.body, "email"), Field(req.body, "subject"), Field(req.body, "message").s)
  }

  /** Past validation the handler does exactly the two sends. */
  lemma ContactDelivers(req: Request, config: Config, now: string, adminSent: Option<string>, userSent: Option<string>)
    requires Accepted(req)
    ensures SendContactEmail(req, config, now, adminSent, userSent) == Deliver(config, FormOf(req), now, adminSent, userSent)
  {
  }

  /**
   * The submission goes first, to the configured recipient; the acknowledgement follows only
   * when it was sent, to the submitter; 200 exactly when both were sent.
   */
  lemma ContactSendOrder(config: Config, form: Form, now: string, adminSent: Option<string>, userSent: Option<string>)
    ensures 1 <= |Deliver(config, form, now, adminSent, userSent).1| <= 2
    ensures Deliver(config, form, now, adminSent, userSent).1[0].to == config.recipient
    ensures |Deliver(config, form, now, adminSent, userSent).1| == 2 <==> adminSent.None?
    ensures adminSent.None? ==> Deliver(config, form, now, adminSent, userSent).1[1].to == form.email
    ensures Deliver(config, form, now, adminSent, userSent).0.status == 200 <==> adminSent.None? && userSent.None?
    ensures Deliver(config, form, now, adminSent, userSent).0.status in {200, 500}
  {
  }

  /**
   * Both mails carry the message as given, so both render it with every newline turned into
   * `<br>` (the contract of `Render`).
   */
  lemma ContactMessageRendered(config: Config, form: Form, now: string, adminSent: Option<string>, userSent: Option<string>)
    ensures var mails := Deliver(config, form, now, adminSent, userSent).1;
      forall k | 0 <= k < |mails| :: mails[k].html.message == form.message
    ensures '\n' !in ReplaceNewlines(form.message)
    ensures |ReplaceNewlines(form.message)| == |form.message| + 3 * Count(form.message, '\n')
  {
    ReplaceNewlinesLength(form.message);
  }

  /** A failure's detail is in the answer exactly in development mode. */
  lemma FailureDetailOnlyInDevelopment(config: Config, error: string)
    ensures var body := Failure(config, error).body.entries;
      && (Prop(body, "error") != Undefined <==> config.development)
      && (config.development ==> Prop(body, "error") == Str(error))
      && Prop(body, "success") == Bool(false)
  {
    var body := Failure(config, error).body.entries;
    PropAt(body, 0);
    if config.development {
      PropAt(body, 2);
    } else {
      assert forall k | 0 <= k < |body| :: body[k].0 != "error";
      PropShape(body, "error");
    }
  }
}
