/** The Python operations the handlers apply to decoded JSON, with the
    exceptions they raise, and the two library functions whose exact output
    the model does not fix (`repr` and the lenient `base64.b64decode`). */
module Python {
  import opened Prelude
  import opened Json

  /** The text of an `HTTPException`'s detail. `Wrapped(prefix, e)` stands for
      `f"{prefix}{str(e)}"`, keeping the exception instead of its wording. */
  datatype Detail =
    | Message(text: string)
    | Wrapped(prefix: string, cause: PyException)

  /** The exceptions that can reach the handlers' `except` clauses. */
  datatype PyException =
    | HTTPException(status: int, detail: Detail)
    /** `httpx.TimeoutException` and its subclasses. */
    | TimeoutException
    /** `httpx.HTTPStatusError` from `raise_for_status()`. */
    | HTTPStatusError(status: int, text: string)
    /** Any other `httpx` failure (connection refused, protocol error, ...). */
    | RequestError(message: string)
    /** `response.json()` on a body that is not JSON. */
    | JSONDecodeError(message: string)
    | TypeError
    | KeyError(key: string)
    | AttributeError(attribute: string)
    /** `binascii.Error` or `ValueError` from `base64.b64decode`. */
    | DecodeError

  /** Library behaviour taken as given: `repr` of a JSON value, and
      `base64.b64decode` on a `str`, which may reject it. */
  datatype Builtins = Builtins(repr: Json -> string, b64decode: string -> Option<seq<byte>>)

  /** `str(v)`: a string is itself, anything else its `repr`. */
  function Str(bi: Builtins, v: Json): (s: string)
    ensures v.JString? ==> s == v.text
    ensures !v.JString? ==> s == bi.repr(v)
  {
    match v
    case JString(text) => text
    case _ => bi.repr(v)
  }

  /** `key in container` for a string `key`. */
  function Contains(key: string, container: Json): (r: Result<bool, PyException>)
    ensures container.JObject? ==> r == Success(HasKey(container.fields, key))
    ensures container.JString? ==> r == Success(IsInfix(key, container.text))
    ensures container.JArray? ==> r == Success(JString(key) in container.items)
    ensures r.Failure? <==> !(container.JObject? || container.JString? || container.JArray?)
    ensures r.Failure? ==> r.error == TypeError
  {
    match container
    case JObject(fields) => Success(HasKey(fields, key))
    case JString(text) => Success(IsInfix(key, text))
    case JArray(items) => Success(JString(key) in items)
    case _ => Failure(TypeError)
  }

  /** `container[key]` for a string `key`. */
  function Subscript(container: Json, key: string): (r: Result<Json, PyException>)
    ensures r.Success? <==> container.JObject? && HasKey(container.fields, key)
    ensures r.Success? ==> Some(r.value) == Get(container.fields, key)
    ensures container.JObject? && !HasKey(container.fields, key) ==> r == Failure(KeyError(key))
    ensures !container.JObject? ==> r == Failure(TypeError)
  {
    match container
    case JObject(fields) =>
      (match Get(fields, key)
       case Some(v) => Success(v)
       case None => Failure(KeyError(key)))
    case _ => Failure(TypeError)
  }

  /** `container.get(key, default)`; `.get(key)` passes `JNull` for `None`. */
  function GetOr(container: Json, key: string, default: Json): (r: Result<Json, PyException>)
    ensures r.Success? <==> container.JObject?
    ensures container.JObject? && HasKey(container.fields, key) ==> r == Success(Get(container.fields, key).value)
    ensures container.JObject? && !HasKey(container.fields, key) ==> r == Success(default)
    ensures !container.JObject? ==> r == Failure(AttributeError("get"))
  {
    match container
    case JObject(fields) =>
      (match Get(fields, key)
       case Some(v) => Success(v)
       case None => Success(default))
    case _ => Failure(AttributeError("get"))
  }

  /** `key in x` guards `x[key]` on a dict only: there a true membership test
      makes the subscript succeed, and every successful subscript passed it. On
      a string or a list the test can pass while the subscript raises `TypeError`. */
  lemma MembershipGuardsSubscript(x: Json, key: string)
    ensures Subscript(x, key).Success? ==> Contains(key, x) == Success(true)
    ensures x.JObject? && Contains(key, x) == Success(true) ==> Subscript(x, key).Success?
    ensures !x.JObject? && Contains(key, x) == Success(true) ==> Subscript(x, key) == Failure(TypeError)
  {
  }

  /** On a dict, `.get(key, default)` is `x[key]` when `key in x`, and the default otherwise. */
  lemma GetOrIsGuardedSubscript(x: Json, key: string, default: Json)
    requires x.JObject?
    ensures GetOr(x, key, default) == if Contains(key, x) == Success(true) then Subscript(x, key) else Success(default)
  {
  }

  /** `base64.b64decode(v)` on a decoded JSON value: only a string is accepted. */
  function B64Decode(bi: Builtins, v: Json): (r: Result<seq<byte>, PyException>)
    ensures r.Success? <==> v.JString? && bi.b64decode(v.text).Some?
    ensures r.Success? ==> bi.b64decode(v.text) == Some(r.value)
    ensures !v.JString? ==> r == Failure(TypeError)
    ensures v.JString? && r.Failure? ==> r.error == DecodeError
  {
    match v
    case JString(text) =>
      (match bi.b64decode(text)
       case Some(data) => Success(data)
       case None => Failure(DecodeError))
    case _ => Failure(TypeError)
  }
}
