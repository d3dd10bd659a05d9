/**
 * What the browser client gets back from the server through its HTTP services. A service
 * call either resolves with the response data or rejects with an axios error, of which the
 * client reads `error.response` (undefined without a response) and `error.message`.
 */
module Client {
  import opened JsValues

  datatype ClientError = ClientError(response: JsValue, message: string)

  /** The outcome of an awaited service call. */
  datatype Reply<+T> = Done(value: T) | Failed(error: ClientError)

  /** `error.response?.data?.<key>`. */
  function ResponseData(e: ClientError, key: string): JsValue {
    Field(Field(e.response, "data"), key)
  }

  /** `candidates[0] || candidates[1] || ... || fallback`. */
  function FirstTruthy(candidates: seq<JsValue>, fallback: JsValue): (r: JsValue)
    ensures (forall i | 0 <= i < |candidates| :: !Truthy(candidates[i])) ==> r == fallback
  {
    if candidates == [] then fallback else Or(candidates[0], FirstTruthy(candidates[1..], fallback))
  }

  /** The chain stops at the first truthy candidate. */
  lemma {:induction false} FirstTruthyPicks(candidates: seq<JsValue>, fallback: JsValue, i: nat)
    requires i < |candidates| && Truthy(candidates[i])
    requires forall j | 0 <= j < i :: !Truthy(candidates[j])
    ensures FirstTruthy(candidates, fallback) == candidates[i]
  {
    if i > 0 {
      FirstTruthyPicks(candidates[1..], fallback, i - 1);
    }
  }

  /** `error.response?.data?.error || fallback`, as the admin pages show a failure. */
  function ServerErrorOr(e: ClientError, fallback: string): (msg: JsValue)
    ensures Truthy(ResponseData(e, "error")) ==> msg == ResponseData(e, "error")
    ensures !Truthy(ResponseData(e, "error")) ==> msg == Str(fallback)
  {
    Or(ResponseData(e, "error"), Str(fallback))
  }

  /** `error.message || fallback`. */
  function MessageOr(e: ClientError, fallback: string): string {
    if e.message != "" then e.message else fallback
  }
}
