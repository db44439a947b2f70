/** `call_external_api` (main.py:72-125): the text upstream's reply, reduced
    to one value by probing fixed keys; and the `/entity-dict` handler that
    feeds that value to `parse_entities` (main.py:365-390). */
module TextApi {
  import opened Prelude
  import opened Json
  import opened Python
  import opened Http
  import Entities
  import EntitySpec
  import EntityProof

  /** The keys probed, highest priority first. */
  const ProbeKeys: seq<string> := ["response", "result", "text", "message"]

  const TimeoutMessage: string := "Request timeout - external API took too long to respond"

  /** The position in `keys` of the first key the object has: a priority lookup
      that knows nothing of the particular keys. */
  function FirstPresent(fields: seq<(string, Json)>, keys: seq<string>): (r: Option<nat>)
    ensures r.Some? ==> r.value < |keys| && HasKey(fields, keys[r.value])
    ensures r.Some? ==> forall j :: 0 <= j < r.value ==> !HasKey(fields, keys[j])
    ensures r.None? <==> forall j :: 0 <= j < |keys| ==> !HasKey(fields, keys[j])
    decreases |keys|
  {
    if keys == [] then None
    else if HasKey(fields, keys[0]) then Some(0)
    else
      match FirstPresent(fields, keys[1..])
      case None => None
      case Some(i) => Some(i + 1)
  }

  /** The reply body reduced to the value handed back: for a mapping the value of
      the first probed key it has, else its string form; a string as it is;
      anything else as its string form. Never raises. */
  function Normalize(bi: Builtins, result: Json): (r: Json)
    ensures result.JString? ==> r == result
    ensures result.JObject? ==>
              r == match FirstPresent(result.fields, ProbeKeys)
                   case Some(i) => Get(result.fields, ProbeKeys[i]).value
                   case None => JString(bi.repr(result))
    ensures !result.JObject? && !result.JString? ==> r == JString(bi.repr(result))
  {
    match result
    case JObject(fields) =>
      if HasKey(fields, "response") then Get(fields, "response").value
      else if HasKey(fields, "result") then Get(fields, "result").value
      else if HasKey(fields, "text") then Get(fields, "text").value
      else if HasKey(fields, "message") then Get(fields, "message").value
      else JString(Str(bi, result))
    case JString(_) => result
    case _ => JString(Str(bi, result))
  }

  /** A member whose key is not probed, inserted anywhere, does not change the
      outcome once some probed key is present. */
  lemma NormalizeIgnoresOtherKeys(bi: Builtins, f1: seq<(string, Json)>, f2: seq<(string, Json)>,
                                  key: string, value: Json)
    requires key !in ProbeKeys
    requires FirstPresent(f1 + f2, ProbeKeys).Some?
    ensures Normalize(bi, JObject(f1 + [(key, value)] + f2)) == Normalize(bi, JObject(f1 + f2))
  {
    forall p | p in ProbeKeys
      ensures HasKey(f1 + [(key, value)] + f2, p) == HasKey(f1 + f2, p)
      ensures Get(f1 + [(key, value)] + f2, p) == Get(f1 + f2, p)
    {
      InsertOtherKey(f1, f2, key, value, p);
    }
  }

  /** The body of the `try` in `call_external_api`. */
  function TextAttempt(bi: Builtins, t: Transport): Result<Json, PyException>
  {
    match Send(t)
    case Failure(e) => Failure(e)
    case Success(reply) =>
      match ReadJson(reply)
      case Failure(e) => Failure(e)
      case Success(result) => Success(Normalize(bi, result))
  }

  /** The `except` clauses of `call_external_api`. */
  function TextHandler(e: PyException): PyException
  {
    match e
    case TimeoutException => HTTPException(504, Message(TimeoutMessage))
    case HTTPStatusError(status, text) => HTTPException(status, Message("External API error: " + text))
    case _ => HTTPException(500, Wrapped("Unexpected error: ", e))
  }

  /** `call_external_api`: the normalised body of a JSON reply, or an
      `HTTPException` whose status follows the way the exchange failed. */
  function CallTextApi(bi: Builtins, t: Transport): (r: Result<Json, PyException>)
    ensures r.Success? <==> t.Delivered? && t.reply.body.Parsed?
    ensures r.Success? ==> r.value == Normalize(bi, t.reply.body.value)
    ensures r.Failure? ==> IsHttpFailure(r, ExpectedStatus(t))
    ensures t.Timeout? ==> r == Failure(HTTPException(504, Message(TimeoutMessage)))
    ensures t.Rejected? ==> r == Failure(HTTPException(t.status, Message("External API error: " + t.text)))
    ensures t.Unreachable? ==> r == Failure(HTTPException(500, Wrapped("Unexpected error: ", RequestError(t.message))))
  {
    match TextAttempt(bi, t)
    case Success(v) => Success(v)
    case Failure(e) => Failure(TextHandler(e))
  }

  /** The `/entity-dict` handler up to `str(result)`: the entities parsed from
      the upstream text. A value without `splitlines` (anything but a string)
      fails with 500; upstream failures pass through unchanged. */
  function EntityDict(bi: Builtins, t: Transport): (r: Result<seq<Entities.Category>, PyException>)
    ensures CallTextApi(bi, t).Failure? ==> r == Failure(CallTextApi(bi, t).error)
    ensures r.Success? <==> CallTextApi(bi, t).Success? && CallTextApi(bi, t).value.JString?
    ensures r.Success? ==> EntitySpec.IsParseOf(r.value, Entities.KindsOf(CallTextApi(bi, t).value.text))
    ensures CallTextApi(bi, t).Success? && !CallTextApi(bi, t).value.JString? ==>
              r == Failure(HTTPException(500, Wrapped("Failed to extract entities: ", AttributeError("splitlines"))))
  {
    match CallTextApi(bi, t)
    case Failure(e) => Failure(e)
    case Success(result) =>
      match result
      case JString(text) =>
        EntityProof.ParseEntitiesSpec(text);
        Success(Entities.ParseEntities(text))
      case _ => Failure(HTTPException(500, Wrapped("Failed to extract entities: ", AttributeError("splitlines"))))
  }
}
