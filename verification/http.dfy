/** The upstream HTTP exchange, taken as an input: what `client.post(...)`
    followed by `raise_for_status()` delivered or raised, and what
    `response.json()` makes of the body. */
module Http {
  import opened Prelude
  import opened Json
  import opened Python

  /** The body as `response.json()` reads it. */
  datatype Body = Parsed(value: Json) | Malformed(message: string)

  /** A successful response: the `content-type` header ("" when absent), the
      raw body, and its JSON reading. */
  datatype Reply = Reply(contentType: string, content: seq<byte>, body: Body)

  /** How the exchange ended. */
  datatype Transport =
    | Timeout
    | Rejected(status: int, text: string)
    | Unreachable(message: string)
    | Delivered(reply: Reply)

  /** The awaited `client.post(...)` and `response.raise_for_status()`. */
  function Send(t: Transport): (r: Result<Reply, PyException>)
    ensures r.Success? <==> t.Delivered?
    ensures r.Success? ==> r.value == t.reply
    ensures t.Timeout? ==> r == Failure(TimeoutException)
    ensures t.Rejected? ==> r == Failure(HTTPStatusError(t.status, t.text))
  {
    match t
    case Timeout => Failure(TimeoutException)
    case Rejected(status, text) => Failure(HTTPStatusError(status, text))
    case Unreachable(message) => Failure(RequestError(message))
    case Delivered(reply) => Success(reply)
  }

  /** `response.json()`. */
  function ReadJson(reply: Reply): (r: Result<Json, PyException>)
    ensures r.Success? <==> reply.body.Parsed?
    ensures r.Success? ==> r.value == reply.body.value
  {
    match reply.body
    case Parsed(value) => Success(value)
    case Malformed(message) => Failure(JSONDecodeError(message))
  }

  /** The exchange itself never raises `HTTPException`: a handler that re-raises
      `HTTPException` unchanged only ever re-raises one of its own. */
  lemma ExchangeRaisesNoHttpException(t: Transport)
    ensures Send(t).Failure? ==> !Send(t).error.HTTPException?
    ensures t.Delivered? && ReadJson(t.reply).Failure? ==> ReadJson(t.reply).error.JSONDecodeError?
  {
  }

  /** The status every handler answers with when the exchange goes wrong:
      504 on a timeout, the upstream status when upstream refused, 500 otherwise. */
  function ExpectedStatus(t: Transport): int
  {
    match t
    case Timeout => 504
    case Rejected(status, _) => status
    case _ => 500
  }

  /** The handlers fail only with `HTTPException`. */
  predicate IsHttpFailure<T>(r: Result<T, PyException>, status: int)
  {
    r.Failure? && r.error.HTTPException? && r.error.status == status
  }
}
