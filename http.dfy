/**
 * What an Express handler sees of a request and what it sends back. A handler of the model is
 * a function from the request and the database to the response and the new database.
 */
module Http {
  import opened Wrappers
  import opened JsValues

  /**
   * `req.body`, `req.params.id`, `req.userId` (set by the authentication middleware),
   * `req.ip` and `req.headers['user-agent']`.
   */
  datatype Request = Request(body: JsValue, id: JsValue, userId: JsValue, ip: JsValue, userAgent: JsValue)

  /** `res.status(status).json(body)`; `res.json(body)` is status 200. */
  datatype Response = Response(status: int, body: JsValue)

  function ErrorJson(message: string): JsValue {
    Obj([("error", Str(message))])
  }

  function MessageJson(message: string): JsValue {
    Obj([("message", Str(message))])
  }

  /** `res.status(status).json({ error: message })`. */
  function Fail(status: int, message: string): Response {
    Response(status, ErrorJson(message))
  }

  /**
   * `const { key } = value`: destructuring throws a TypeError on undefined and null; on any
   * other value that is not an object the property read here is undefined.
   */
  function Destructure(value: JsValue, key: string): (r: Option<JsValue>)
    ensures r.None? <==> value.Undefined? || value.Null?
    ensures value.Obj? ==> r == Some(Prop(value.entries, key))
  {
    if value.Undefined? || value.Null? then None else Some(Field(value, key))
  }
}
