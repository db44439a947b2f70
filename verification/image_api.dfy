/** `call_external_api_for_image` (main.py:131-199), which sorts the image
    upstream's reply into three shapes, and `generate_image` (main.py:396-425),
    which turns the result into a `data:` URI. */
module ImageApi {
  import opened Prelude
  import opened Json
  import opened Python
  import opened Http
  import DataUri

  /** The dicts `call_external_api_for_image` returns, by their `type`. */
  datatype ImageResult =
    | BinaryImage(contentType: string, imageBytes: seq<byte>)
    | ImageUrl(url: Json)
    | Base64Image(imageBytes: seq<byte>)

  const UnsupportedMessage: string := "Unsupported image response format"
  const TimeoutMessage: string := "Image generation API timed out"

  /** The reply is an image by its header. */
  predicate IsImageType(contentType: string)
  {
    "image/" <= contentType
  }

  /** The body of the `try` after `raise_for_status()`: the header first, then
      the JSON body's `image_url`, then its `image`. */
  function ClassifyImage(bi: Builtins, reply: Reply): (r: Result<ImageResult, PyException>)
    ensures IsImageType(reply.contentType) ==> r == Success(BinaryImage(reply.contentType, reply.content))
    ensures r.Success? && r.value.BinaryImage? ==> IsImageType(reply.contentType)
    ensures !IsImageType(reply.contentType) && reply.body.Malformed? ==>
              r == Failure(JSONDecodeError(reply.body.message))
    ensures !IsImageType(reply.contentType) && reply.body.Parsed? && !reply.body.value.JObject? ==>
              r == Failure(TypeError) || r == Failure(HTTPException(500, Message(UnsupportedMessage)))
    ensures r.Success? && r.value.ImageUrl? <==>
              && !IsImageType(reply.contentType)
              && reply.body.Parsed? && reply.body.value.JObject?
              && HasKey(reply.body.value.fields, "image_url")
    ensures r.Success? && r.value.ImageUrl? ==> Some(r.value.url) == Get(reply.body.value.fields, "image_url")
    ensures r.Success? && r.value.Base64Image? <==>
              && !IsImageType(reply.contentType)
              && reply.body.Parsed? && reply.body.value.JObject?
              && !HasKey(reply.body.value.fields, "image_url")
              && HasKey(reply.body.value.fields, "image")
              && B64Decode(bi, Get(reply.body.value.fields, "image").value).Success?
    ensures r.Success? && r.value.Base64Image? ==>
              B64Decode(bi, Get(reply.body.value.fields, "image").value) == Success(r.value.imageBytes)
    ensures !IsImageType(reply.contentType) && reply.body.Parsed? && reply.body.value.JObject?
            && !HasKey(reply.body.value.fields, "image_url") && HasKey(reply.body.value.fields, "image")
            && B64Decode(bi, Get(reply.body.value.fields, "image").value).Failure? ==>
              r == Failure(B64Decode(bi, Get(reply.body.value.fields, "image").value).error)
    ensures !IsImageType(reply.contentType) && reply.body.Parsed? && reply.body.value.JObject?
            && !HasKey(reply.body.value.fields, "image_url") && !HasKey(reply.body.value.fields, "image")
            ==> r == Failure(HTTPException(500, Message(UnsupportedMessage)))
  {
    if IsImageType(reply.contentType) then Success(BinaryImage(reply.contentType, reply.content))
    else
      match ReadJson(reply)
      case Failure(e) => Failure(e)
      case Success(data) =>
        match Contains("image_url", data)
        case Failure(e) => Failure(e)
        case Success(hasUrl) =>
          if hasUrl then
            match Subscript(data, "image_url")
            case Failure(e) => Failure(e)
            case Success(url) => Success(ImageUrl(url))
          else
            match Contains("image", data)
            case Failure(e) => Failure(e)
            case Success(hasImage) =>
              if hasImage then
                match Subscript(data, "image")
                case Failure(e) => Failure(e)
                case Success(image) =>
                  match B64Decode(bi, image)
                  case Failure(e) => Failure(e)
                  case Success(bytes) => Success(Base64Image(bytes))
              else Failure(HTTPException(500, Message(UnsupportedMessage)))
  }

  /** The `try` body of `call_external_api_for_image`. */
  function ImageAttempt(bi: Builtins, t: Transport): Result<ImageResult, PyException>
  {
    match Send(t)
    case Failure(e) => Failure(e)
    case Success(reply) => ClassifyImage(bi, reply)
  }

  /** Its `except` clauses. There is no `except HTTPException: raise`, so the
      catch-all wraps the "unsupported format" exception too. */
  function ImageHandler(e: PyException): PyException
  {
    match e
    case TimeoutException => HTTPException(504, Message(TimeoutMessage))
    case HTTPStatusError(status, text) => HTTPException(status, Message(text))
    case _ => HTTPException(500, Wrapped("Unexpected error: ", e))
  }

  /** `call_external_api_for_image`. */
  function CallImageApi(bi: Builtins, t: Transport): (r: Result<ImageResult, PyException>)
    ensures r.Success? ==> t.Delivered? && r == ClassifyImage(bi, t.reply)
    ensures t.Delivered? && ClassifyImage(bi, t.reply).Success? ==> r == ClassifyImage(bi, t.reply)
    ensures r.Failure? ==> IsHttpFailure(r, ExpectedStatus(t))
    ensures t.Timeout? ==> r == Failure(HTTPException(504, Message(TimeoutMessage)))
    ensures t.Rejected? ==> r == Failure(HTTPException(t.status, Message(t.text)))
    ensures t.Unreachable? ==> r == Failure(HTTPException(500, Wrapped("Unexpected error: ", RequestError(t.message))))
    ensures t.Delivered? && ClassifyImage(bi, t.reply).Failure? ==>
              r == Failure(HTTPException(500, Wrapped("Unexpected error: ", ClassifyImage(bi, t.reply).error)))
  {
    match ImageAttempt(bi, t)
    case Success(v) => Success(v)
    case Failure(e) => Failure(ImageHandler(e))
  }

  /** Members other than `image_url` and `image`, inserted anywhere in a JSON
      reply, do not change how it is classified. */
  lemma ImageIgnoresOtherKeys(bi: Builtins, contentType: string, content: seq<byte>,
                              f1: seq<(string, Json)>, f2: seq<(string, Json)>, key: string, value: Json)
    requires key != "image_url" && key != "image"
    ensures ClassifyImage(bi, Reply(contentType, content, Parsed(JObject(f1 + [(key, value)] + f2))))
            == ClassifyImage(bi, Reply(contentType, content, Parsed(JObject(f1 + f2))))
  {
    InsertOtherKey(f1, f2, key, value, "image_url");
    InsertOtherKey(f1, f2, key, value, "image");
  }

  /** `generate_image` up to the response dict: the `data:` URI of the image.
      Only the binary shape carries both `image_bytes` and `content_type`;
      the other two shapes end in a `KeyError`, reported as 500. */
  function GenerateImage(bi: Builtins, t: Transport): (r: Result<string, PyException>)
    ensures r.Success? <==> t.Delivered? && IsImageType(t.reply.contentType)
    ensures r.Success? ==> r.value == DataUri.Make(t.reply.contentType, t.reply.content)
    ensures r.Failure? ==> IsHttpFailure(r, ExpectedStatus(t))
    ensures CallImageApi(bi, t).Failure? ==> r == Failure(CallImageApi(bi, t).error)
  {
    match CallImageApi(bi, t)
    case Failure(e) => Failure(e)
    case Success(result) =>
      match result
      case BinaryImage(contentType, bytes) => Success(DataUri.Make(contentType, bytes))
      case ImageUrl(_) => Failure(HTTPException(500, Wrapped("Failed to generate image: ", KeyError("image_bytes"))))
      case Base64Image(_) => Failure(HTTPException(500, Wrapped("Failed to generate image: ", KeyError("content_type"))))
  }

  /** A generated image URI reads back as the upstream's content type and bytes. */
  lemma GeneratedImageRoundTrip(bi: Builtins, t: Transport)
    requires GenerateImage(bi, t).Success?
    ensures DataUri.Parse(GenerateImage(bi, t).value) == Some((t.reply.contentType, t.reply.content))
  {
    DataUri.ParseMake(t.reply.contentType, t.reply.content);
  }

  /** An upstream that answers with an image URL makes the handler fail with
      500, although the classifier accepted the reply. */
  lemma ImageUrlReplyFails(bi: Builtins, contentType: string, content: seq<byte>, url: Json)
    requires !IsImageType(contentType)
    ensures var t := Delivered(Reply(contentType, content, Parsed(JObject([("image_url", url)]))));
            && CallImageApi(bi, t) == Success(ImageUrl(url))
            && GenerateImage(bi, t) == Failure(HTTPException(500, Wrapped("Failed to generate image: ", KeyError("image_bytes"))))
  {
    var fields := [("image_url", url)];
    assert fields[0].0 == "image_url";
    assert HasKey(fields, "image_url");
  }
}
