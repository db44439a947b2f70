/** `call_bytez_video_api` (main.py:428-506), which sorts the video upstream's
    reply by header, then by its `error` field, then by the shape of its
    `output`; and `generate_video` (main.py:509-553), which turns each shape
    into the URL handed back. */
module VideoApi {
  import opened Prelude
  import opened Json
  import opened Python
  import opened Http
  import Base64
  import DataUri

  /** The dicts `call_bytez_video_api` returns, by their `type`. */
  datatype VideoResult =
    | BinaryVideo(contentType: string, videoBytes: seq<byte>)
    | VideoUrl(url: Json)
    | VideoDataUri(uri: string)
    | Base64Video(videoBytes: seq<byte>, mediaType: Json)

  const TokenMessage: string := "Bytez API token not configured. Set bytz_api_token in .env"
  const TimeoutMessage: string := "Video generation timed out (may take 1-2 minutes)"
  const NoOutputMessage: string := "No output in API response"
  const UndecodableMessage: string := "Could not decode video output"
  const UnsupportedMessage: string := "Unsupported video response format"
  const DefaultType: string := "video/mp4"

  /** The header test for a binary reply, all three disjuncts as written. */
  predicate IsVideoType(contentType: string)
  {
    IsInfix("video", contentType) || IsInfix("octet-stream", contentType) || "video/" <= contentType
  }

  /** The third disjunct adds nothing: a type starting with `video/` contains `video`. */
  lemma VideoPrefixIsRedundant(contentType: string)
    ensures IsVideoType(contentType) <==> IsInfix("video", contentType) || IsInfix("octet-stream", contentType)
  {
    if "video/" <= contentType {
      assert "video" <= contentType;
      PrefixIsInfix("video", contentType);
    }
  }

  /** What a non-null `output` stands for: a URL, a `data:` URI, or base64
      text; or a mapping with `url`, `video_url` or `base64`. */
  function ClassifyOutput(bi: Builtins, output: Json): (r: Result<VideoResult, PyException>)
    requires output != JNull
    ensures output.JString? && "http" <= output.text ==> r == Success(VideoUrl(output))
    ensures output.JString? && !("http" <= output.text) && "data:" <= output.text ==> r == Success(VideoDataUri(output.text))
    ensures output.JString? && !("http" <= output.text) && !("data:" <= output.text) ==>
              r == match bi.b64decode(output.text)
                   case Some(bytes) => Success(Base64Video(bytes, JString(DefaultType)))
                   case None => Failure(HTTPException(500, Message(UndecodableMessage)))
    ensures output.JObject? && HasKey(output.fields, "url") ==> r == Success(VideoUrl(Get(output.fields, "url").value))
    ensures output.JObject? && !HasKey(output.fields, "url") && HasKey(output.fields, "video_url") ==>
              r == Success(VideoUrl(Get(output.fields, "video_url").value))
    ensures output.JObject? && !HasKey(output.fields, "url") && !HasKey(output.fields, "video_url")
            && HasKey(output.fields, "base64") ==>
              r == match B64Decode(bi, Get(output.fields, "base64").value)
                   case Success(bytes) =>
                     Success(Base64Video(bytes, if HasKey(output.fields, "content_type")
                                                then Get(output.fields, "content_type").value
                                                else JString(DefaultType)))
                   case Failure(e) => Failure(e)
    ensures !output.JString? && !(output.JObject? && (HasKey(output.fields, "url") || HasKey(output.fields, "video_url")
                                                     || HasKey(output.fields, "base64"))) ==>
              r == Failure(HTTPException(500, Message(UnsupportedMessage)))
  {
    match output
    case JString(s) =>
      if "http" <= s then Success(VideoUrl(output))
      else if "data:" <= s then Success(VideoDataUri(s))
      else
        (match bi.b64decode(s)
         case Some(bytes) => Success(Base64Video(bytes, JString(DefaultType)))
         case None => Failure(HTTPException(500, Message(UndecodableMessage))))
    case JObject(fields) =>
      if HasKey(fields, "url") then Success(VideoUrl(Get(fields, "url").value))
      else if HasKey(fields, "video_url") then Success(VideoUrl(Get(fields, "video_url").value))
      else if HasKey(fields, "base64") then
        match B64Decode(bi, Get(fields, "base64").value)
        case Failure(e) => Failure(e)
        case Success(bytes) =>
          match GetOr(output, "content_type", JString(DefaultType))
          case Success(mediaType) => Success(Base64Video(bytes, mediaType))
          case Failure(e) => Failure(e)
      else Failure(HTTPException(500, Message(UnsupportedMessage)))
    case _ => Failure(HTTPException(500, Message(UnsupportedMessage)))
  }

  /** The body of the `try` after `raise_for_status()`. */
  function ClassifyVideo(bi: Builtins, reply: Reply): (r: Result<VideoResult, PyException>)
    ensures IsVideoType(reply.contentType) ==> r == Success(BinaryVideo(reply.contentType, reply.content))
    ensures !IsVideoType(reply.contentType) && reply.body.Malformed? ==>
              r == Failure(JSONDecodeError(reply.body.message))
    ensures !IsVideoType(reply.contentType) && reply.body.Parsed? && !reply.body.value.JObject? ==>
              r == Failure(AttributeError("get"))
    ensures !IsVideoType(reply.contentType) && reply.body.Parsed? && reply.body.value.JObject? ==>
              var fields := reply.body.value.fields;
              if HasKey(fields, "error") && Truthy(Get(fields, "error").value) then
                r == Failure(HTTPException(500, Message(Str(bi, Get(fields, "error").value))))
              else if !HasKey(fields, "output") || Get(fields, "output").value == JNull then
                r == Failure(HTTPException(500, Message(NoOutputMessage)))
              else r == ClassifyOutput(bi, Get(fields, "output").value)
  {
    if IsVideoType(reply.contentType) then Success(BinaryVideo(reply.contentType, reply.content))
    else
      match ReadJson(reply)
      case Failure(e) => Failure(e)
      case Success(data) =>
        match GetOr(data, "error", JNull)
        case Failure(e) => Failure(e)
        case Success(error) =>
          if Truthy(error) then Failure(HTTPException(500, Message(Str(bi, error))))
          else
            match GetOr(data, "output", JNull)
            case Failure(e) => Failure(e)
            case Success(output) =>
              if output == JNull then Failure(HTTPException(500, Message(NoOutputMessage)))
              else ClassifyOutput(bi, output)
  }

  /** The `except` clauses of `call_bytez_video_api`; this one re-raises
      `HTTPException` unchanged. */
  function VideoHandler(e: PyException): PyException
  {
    match e
    case TimeoutException => HTTPException(504, Message(TimeoutMessage))
    case HTTPStatusError(status, text) => HTTPException(status, Message(text))
    case HTTPException(_, _) => e
    case _ => HTTPException(500, Wrapped("Video generation failed: ", e))
  }

  /** `call_bytez_video_api`: an empty token fails before any request. */
  function CallVideoApi(bi: Builtins, token: string, t: Transport): (r: Result<VideoResult, PyException>)
    ensures token == "" ==> r == Failure(HTTPException(500, Message(TokenMessage)))
    ensures token != "" && r.Success? ==> t.Delivered? && r == ClassifyVideo(bi, t.reply)
    ensures token != "" && r.Failure? ==> IsHttpFailure(r, ExpectedStatus(t))
    ensures token != "" && t.Timeout? ==> r == Failure(HTTPException(504, Message(TimeoutMessage)))
    ensures token != "" && t.Rejected? ==> r == Failure(HTTPException(t.status, Message(t.text)))
    ensures token != "" && t.Unreachable? ==>
              r == Failure(HTTPException(500, Wrapped("Video generation failed: ", RequestError(t.message))))
    ensures token != "" && t.Delivered? && ClassifyVideo(bi, t.reply).Success? ==> r == ClassifyVideo(bi, t.reply)
    ensures token != "" && t.Delivered? && ClassifyVideo(bi, t.reply).Failure? ==>
              r == Failure(if ClassifyVideo(bi, t.reply).error.HTTPException? then ClassifyVideo(bi, t.reply).error
                           else HTTPException(500, Wrapped("Video generation failed: ", ClassifyVideo(bi, t.reply).error)))
  {
    if token == "" then Failure(HTTPException(500, Message(TokenMessage)))
    else
      var attempt := match Send(t)
                     case Failure(e) => Failure(e)
                     case Success(reply) => ClassifyVideo(bi, reply);
      match attempt
      case Success(v) => Success(v)
      case Failure(e) => Failure(VideoHandler(e))
  }

  /** The `video_url` `generate_video` hands back for each shape: URLs and
      `data:` URIs as they came, bytes as a new `data:` URI whose media type
      is the `content_type` the shape carries. */
  function VideoUrlOf(bi: Builtins, result: VideoResult): (url: Json)
    ensures result.VideoUrl? ==> url == result.url
    ensures result.VideoDataUri? ==> url == JString(result.uri)
    ensures result.BinaryVideo? ==> url == JString(DataUri.Make(result.contentType, result.videoBytes))
    ensures result.Base64Video? ==> url == JString(DataUri.Make(Str(bi, result.mediaType), result.videoBytes))
  {
    match result
    case VideoUrl(u) => u
    case VideoDataUri(uri) => JString(uri)
    case BinaryVideo(contentType, bytes) => JString(DataUri.Make(contentType, bytes))
    case Base64Video(bytes, mediaType) => JString(DataUri.Make(Str(bi, mediaType), bytes))
  }

  /** `generate_video` up to the response dict: its `video_url`. */
  function GenerateVideo(bi: Builtins, token: string, t: Transport): (r: Result<Json, PyException>)
    ensures r.Success? <==> CallVideoApi(bi, token, t).Success?
    ensures r.Success? ==> r.value == VideoUrlOf(bi, CallVideoApi(bi, token, t).value)
    ensures r.Failure? ==> r.error == CallVideoApi(bi, token, t).error
    ensures r.Failure? ==> IsHttpFailure(r, if token == "" then 500 else ExpectedStatus(t))
  {
    match CallVideoApi(bi, token, t)
    case Failure(e) => Failure(e)
    case Success(result) => Success(VideoUrlOf(bi, result))
  }

  /** A binary reply comes back as a `data:` URI that reads back as the reply's
      content type and bytes. */
  lemma BinaryVideoRoundTrip(bi: Builtins, token: string, reply: Reply)
    requires token != "" && IsVideoType(reply.contentType)
    ensures var r := GenerateVideo(bi, token, Delivered(reply));
            && r.Success? && r.value.JString?
            && DataUri.Parse(r.value.text) == Some((reply.contentType, reply.content))
  {
    DataUri.ParseMake(reply.contentType, reply.content);
  }

  /** When `b64decode` decodes the base64 text of `data` back to `data`, an
      `output` holding that text, unless it happens to start with "http", comes
      back as `data:video/mp4;base64,` followed by that very text. */
  lemma Base64OutputReemitted(bi: Builtins, token: string, contentType: string, content: seq<byte>,
                              fields: seq<(string, Json)>, data: seq<byte>)
    requires bi.b64decode(Base64.Encode(data)) == Some(data)
    requires token != "" && !IsVideoType(contentType)
    requires !HasKey(fields, "error") && Get(fields, "output") == Some(JString(Base64.Encode(data)))
    requires !("http" <= Base64.Encode(data))
    ensures GenerateVideo(bi, token, Delivered(Reply(contentType, content, Parsed(JObject(fields)))))
            == Success(JString(DataUri.Scheme + DefaultType + DataUri.Marker + Base64.Encode(data)))
  {
    EncodeIsNoDataUri(data);
  }

  /** Base64 text never starts with `data:`: it holds no colon. */
  lemma EncodeIsNoDataUri(data: seq<byte>)
    ensures !("data:" <= Base64.Encode(data))
  {
    var s := Base64.Encode(data);
    Base64.EncodeAlphabet(data);
    if |s| >= 5 {
      assert s[4] == '=' || Base64.IndexOf(s[4]).Some?;
      assert s[4] != ':';
    }
  }

  /** A falsy `error` member (empty, zero, `null`, `false`, `[]`, `{}`),
      inserted anywhere in a reply that has no other, changes nothing. */
  lemma FalsyErrorIgnored(bi: Builtins, token: string, contentType: string, content: seq<byte>,
                          f1: seq<(string, Json)>, f2: seq<(string, Json)>, e: Json)
    requires !Truthy(e) && !HasKey(f1 + f2, "error")
    ensures GenerateVideo(bi, token, Delivered(Reply(contentType, content, Parsed(JObject(f1 + [("error", e)] + f2)))))
            == GenerateVideo(bi, token, Delivered(Reply(contentType, content, Parsed(JObject(f1 + f2)))))
  {
    InsertNewKey(f1, f2, "error", e);
    InsertOtherKey(f1, f2, "error", e, "output");
    var with := Reply(contentType, content, Parsed(JObject(f1 + [("error", e)] + f2)));
    var without := Reply(contentType, content, Parsed(JObject(f1 + f2)));
    assert ClassifyVideo(bi, with) == ClassifyVideo(bi, without);
  }

  /** A JSON reply whose `error` is truthy ends as a 500 carrying `str(error)`,
      whatever its `output` holds. */
  lemma TruthyErrorFails(bi: Builtins, token: string, contentType: string, content: seq<byte>,
                         fields: seq<(string, Json)>, e: Json)
    requires token != "" && !IsVideoType(contentType)
    requires Get(fields, "error") == Some(e) && Truthy(e)
    ensures GenerateVideo(bi, token, Delivered(Reply(contentType, content, Parsed(JObject(fields)))))
            == Failure(HTTPException(500, Message(Str(bi, e))))
  {
  }

  /** What each shape `ClassifyOutput` returns says about the `output` it came
      from: never raw bytes; a URL is the `output` text itself or the dict's
      `url` or `video_url`; a data URI is exactly the `output` text; decoded
      bytes come from the `output` text or the dict's `base64`. Every failure
      is a 500 of its own or an error of `b64decode`. */
  lemma OutputShapes(bi: Builtins, output: Json)
    requires output != JNull
    ensures var r := ClassifyOutput(bi, output);
            r.Success? ==> !r.value.BinaryVideo?
    ensures var r := ClassifyOutput(bi, output);
            r.Success? && r.value.VideoUrl? ==>
              || (output.JString? && "http" <= output.text && r.value.url == output)
              || (output.JObject? && (Get(output.fields, "url") == Some(r.value.url)
                                      || Get(output.fields, "video_url") == Some(r.value.url)))
    ensures var r := ClassifyOutput(bi, output);
            r.Success? && r.value.VideoDataUri? ==>
              output == JString(r.value.uri) && "data:" <= r.value.uri && !("http" <= r.value.uri)
    ensures var r := ClassifyOutput(bi, output);
            r.Success? && r.value.Base64Video? ==>
              || (output.JString? && bi.b64decode(output.text) == Some(r.value.videoBytes)
                  && r.value.mediaType == JString(DefaultType))
              || (output.JObject? && HasKey(output.fields, "base64")
                  && B64Decode(bi, Get(output.fields, "base64").value) == Success(r.value.videoBytes))
    ensures var r := ClassifyOutput(bi, output);
            r.Failure? ==> r.error == TypeError || r.error == DecodeError
                           || (r.error.HTTPException? && r.error.status == 500)
  {
  }

  /** A video reply is accepted in two ways only: by its header, as raw bytes,
      or as a JSON dict with no truthy `error` and a non-null `output`, which
      then alone decides the result. */
  lemma AcceptedVideoReply(bi: Builtins, reply: Reply)
    requires ClassifyVideo(bi, reply).Success?
    ensures ClassifyVideo(bi, reply).value.BinaryVideo? <==> IsVideoType(reply.contentType)
    ensures !IsVideoType(reply.contentType) ==>
              && reply.body.Parsed? && reply.body.value.JObject?
              && var fields := reply.body.value.fields;
              && !(HasKey(fields, "error") && Truthy(Get(fields, "error").value))
              && HasKey(fields, "output") && Get(fields, "output").value != JNull
              && ClassifyVideo(bi, reply) == ClassifyOutput(bi, Get(fields, "output").value)
  {
    if !IsVideoType(reply.contentType) {
      OutputShapes(bi, Get(reply.body.value.fields, "output").value);
    }
  }

  /** The `data:` URI `generate_video` builds for a shape that carries bytes
      reads back as that shape's media type and bytes. */
  lemma VideoUrlParses(bi: Builtins, result: VideoResult)
    requires result.BinaryVideo? || result.Base64Video?
    ensures var url := VideoUrlOf(bi, result);
            && url.JString?
            && DataUri.Parse(url.text)
               == Some((if result.BinaryVideo? then result.contentType else Str(bi, result.mediaType), result.videoBytes))
  {
    if result.BinaryVideo? {
      DataUri.ParseMake(result.contentType, result.videoBytes);
    } else {
      DataUri.ParseMake(Str(bi, result.mediaType), result.videoBytes);
    }
  }

  /** The bytes 0x86 0xdb 0x69 encode as "http", so a base64 `output` that
      starts with them is handed back as a URL rather than decoded. */
  lemma Base64PayloadTakenForUrl(bi: Builtins, rest: seq<byte>)
    ensures Base64.Encode([134, 219, 105] + rest) == "http" + Base64.Encode(rest)
    ensures var output := JString(Base64.Encode([134, 219, 105] + rest));
            ClassifyOutput(bi, output) == Success(VideoUrl(output))
  {
    var b: seq<byte> := [134, 219, 105] + rest;
    assert b[0] == 134 && b[1] == 219 && b[2] == 105 && b[3..] == rest;
    assert Base64.EncodeGroup(134, 219, 105) == "http";
  }
}
