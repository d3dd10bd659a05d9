/**
 * backend/src/middleware/authMiddleware.js: `authenticate`. The token is the second
 * space-separated word of the Authorization header; signature checking is a parameter
 * (`verify` gives the decoded payload, or nothing when jsonwebtoken throws), and on success
 * the request goes on to the next handler with `userId` set to the payload's id.
 */
module AuthMiddleware {
  import opened Wrappers
  import opened Text
  import opened JsValues
  import opened Http

  datatype Outcome =
    | Reject(response: Response)
    /** `next()` with the request `req.userId` was attached to. */
    | Next(request: Request)

  /** `req.headers.authorization?.split(' ')[1]`; None is `undefined`. */
  function Token(header: Option<string>): (token: Option<string>)
    ensures token.Some? <==> header.Some? && ' ' in header.value
  {
    if header.None? then None
    else
      CountZero(header.value, ' ');
      var parts := Split(header.value, ' ');
      if |parts| < 2 then None else Some(parts[1])
  }

  function Authenticate(req: Request, header: Option<string>, verify: string -> Option<JsValue>): (r: Outcome)
  {
    var token := Token(header);
    if token.None? || token.value == "" then Reject(Fail(401, "No token provided"))
    else
      match verify(token.value)
      case None => Reject(Fail(401, "Invalid token"))
      case Some(decoded) => Next(req.(userId := Field(decoded, "id")))
  }

  /**
   * No header, a header without a space, or an empty second word is refused before any
   * verification, whatever `verify` would say.
   */
  lemma NoTokenRefused(req: Request, header: Option<string>, verify: string -> Option<JsValue>)
    ensures (header.None? || ' ' !in header.value) ==>
      Authenticate(req, header, verify) == Reject(Fail(401, "No token provided"))
    ensures header.Some? && ' ' in header.value && Token(header).value == "" ==>
      Authenticate(req, header, verify) == Reject(Fail(401, "No token provided"))
    ensures header.Some? && ' ' in header.value ==> Token(header) == Some(Split(header.value, ' ')[1])
  {
    if header.Some? { CountZero(header.value, ' '); }
  }

  /**
   * With a non-empty token the verification alone decides: a failure is 401 'Invalid token'
   * and the request goes nowhere; a success passes the request on once, changed only in
   * `userId`, which is the payload's `id`.
   */
  lemma VerifyDecides(req: Request, header: Option<string>, verify: string -> Option<JsValue>)
    requires Token(header).Some? && Token(header).value != ""
    ensures verify(Token(header).value).None? <==> Authenticate(req, header, verify).Reject?
    ensures verify(Token(header).value).None? ==> Authenticate(req, header, verify) == Reject(Fail(401, "Invalid token"))
    ensures verify(Token(header).value).Some? ==>
      Authenticate(req, header, verify) == Next(req.(userId := Field(verify(Token(header).value).value, "id")))
  {
  }

  /** A 401 is the only refusal: every outcome is exactly one of a 401 or one call of the next handler. */
  lemma RejectIsUnauthorized(req: Request, header: Option<string>, verify: string -> Option<JsValue>)
    ensures Authenticate(req, header, verify).Reject? ==> Authenticate(req, header, verify).response.status == 401
    ensures Authenticate(req, header, verify).Next? ==>
      Authenticate(req, header, verify).request.(userId := req.userId) == req
  {
  }

  /** The header the client sends, `Bearer <token>`, hands exactly that token to verification. */
  lemma {:induction false} BearerToken(token: string)
    requires ' ' !in token
    ensures Token(Some("Bearer " + token)) == Some(token)
  {
    assert "Bearer " + token == "Bearer" + [' '] + token;
    SplitAtFirst("Bearer", token, ' ');
    SplitWithout(token, ' ');
  }
}
