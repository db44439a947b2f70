# AI proxy response handling, modelled in Dafny

The service (`main.py`) is a FastAPI proxy. It forwards user text to hosted AI
models and reshapes their replies. This project models the logic that decides
what comes back:

- **`parse_entities`**: a one-pass reader of a model's markdown answer.
  `**Category**` lines open a category, `* value` lines add a value to the
  category opened last, and every other line is ignored. It is modelled
  line by line with Python's exact `str.splitlines`, `str.strip`,
  `str.lstrip("*")` and the lazy regex `\*\*(.+?)\*\*`. It is proved equal
  to an independent description: keys in order of first header; values are
  the bullets after the last header of that key.
- **Text reply normalisation** in `call_external_api`: the first of the keys
  `response`, `result`, `text`, `message` that the JSON object has; a string as
  it is; anything else as its `str()`. Exceptions are mapped to HTTP statuses
  (504 on timeout, the upstream status on an HTTP error, 500 otherwise).
- **Image reply classification** (`call_external_api_for_image`) and
  `generate_image`, which turns the result into a `data:` URI.
- **Video reply classification** (`call_bytez_video_api`) and
  `generate_video`.
- The supporting pieces these need: Base64 as in section 4 of RFC 4648, with
  a strict decoder proved inverse to the encoder in both directions; `data:`
  URIs as in RFC 2397, with a parser proved inverse to `Make`; JSON values
  with `json.loads`' last-key-wins rule; Python's `in`, subscripting, `.get`,
  `str()` and truthiness on them, with the exceptions they raise.

The upstream HTTP exchange is an input (`Http.Transport`): it timed out, was
refused with a status, failed otherwise, or delivered a reply with a
content type, raw bytes and a JSON reading. `repr` and the lenient
`base64.b64decode` are parameters (`Python.Builtins`). A lemma that needs the
decoder to invert the encoder on some text requires exactly that.

The handlers are written in a few Python operations on decoded JSON, modelled
case by case as Python defines them, with the exception each raises:
`Python.Str` (`str()`), `Python.Contains` (`in`), `Python.Subscript` (`[]`),
`Python.GetOr` (`.get`), `Python.B64Decode` (`b64decode` on a JSON value),
and the exchange itself, `Http.Send` (`post` and `raise_for_status`) and
`Http.ReadJson` (`response.json()`). Their contracts only spell out those
cases; the table below lists the consequences the handlers rely on.

Modules: `Prelude`, `PyStr`, `Entities`, `EntitySpec`, `EntityProof`,
`EntityFacts`, `Json`, `Python`, `Http`, `Base64`, `DataUri`, `TextApi`,
`ImageApi`, `VideoApi`, one file each.

Three behaviours of the code are easy to miss when reading the endpoints'
descriptions. The model follows the code, and each is stated as a fact
about it:

- An image upstream that answers `{"image_url": ...}` or `{"image": ...}` is
  accepted by the classifier. `generate_image` then reads `image_bytes` or
  `content_type` from the result, gets a `KeyError` and answers 500. It does
  not pass the URL through (`ImageApi.ImageUrlReplyFails`).
- The image classifier has no `except HTTPException: raise`. Its own
  "Unsupported image response format" exception is therefore re-wrapped as
  a 500 "Unexpected error: ..." rather than re-raised unchanged
  (`ImageApi.CallImageApi`).
- The video `error` field stops processing only when it is truthy; an empty
  or zero `error` is ignored (`VideoApi.FalsyErrorIgnored`).

## Model

| member | source | states |
|---|---|---|
| PyStr.SplitLines | main.py:347 | `splitlines()` yields pieces without line-break characters, none at all exactly for the empty text, and a non-empty text without breaks as its only line |
| PyStr.SplitAtBreak | main.py:347 | a break-free line, one break (`\r\n` counting as one, a lone `\r` only when no `\n` follows) and a remainder split as that line followed by the remainder's lines; with the two cases above this fixes every split |
| PyStr.SplitJoin | main.py:347 | splitting break-free lines, each ended by "\n", gives back exactly those lines |
| PyStr.Strip | main.py:348 | `strip()` removes exactly the whitespace runs at both ends, in CPython's `isspace` sense |
| PyStr.StripExact | main.py:348 | a slice bounded by non-space characters, with only spaces outside, is what `strip()` returns |
| PyStr.LStrip | main.py:359 | `lstrip("*")` removes a leading run made only of stars and leaves no star in front |
| PyStr.LStripExact | main.py:359 | when the leading star run ends at `i`, `lstrip("*")` is the suffix from `i` |
| Entities.MatchHeader | main.py:351-353 | the regex matches exactly when the line starts with `**` and some non-empty, newline-free group is followed by `**`; the name is the shortest such group |
| Entities.Classify | main.py:348-359 | a stripped line is a header iff the regex matches it, and the name is the regex group; otherwise a bullet iff it starts with `*`, whose value is the line after its whole leading star run, stripped; otherwise ignored |
| Entities.Lookup | main.py:360 | `entities[key]` finds a value exactly when the key is present, and it is that entry's list |
| Entities.Assign | main.py:354 | `entities[key] = v` keeps the length, or adds one entry `(key, v)` at the end |
| Entities.AssignNames | main.py:354 | assigning keeps the key order, and a new key goes last |
| Entities.AssignValues | main.py:354 | with distinct keys, assigning replaces that key's list and no other |
| EntityFacts.AssignAbsent | main.py:354 | assigning a new key appends an entry |
| EntityFacts.AssignLast | main.py:360 | assigning the last key, which occurs nowhere before, replaces it in place |
| EntitySpec.DedupMembers | main.py:354 | the reference key list holds every header name, and each only once |
| EntitySpec.DedupByFirstOccurrence | main.py:354 | reference keys are ordered by where their name first occurs, as dict insertion order is |
| EntitySpec.ReferenceIsUnique | main.py:343-362 | the reference description fixes the result: two results that fit it are equal |
| EntityProof.ParseLinesDescribed | main.py:347-360 | loop invariant: after any prefix, the keys, the current key and every list are as the reference describes |
| EntityProof.ParseLinesSpec | main.py:344-362 | for any classified lines, the loop's dict is the one the reference describes |
| EntityProof.ParseEntitiesSpec | main.py:343-362 | `parse_entities(text)` is the reference dict of the classified lines of `text` |
| EntityFacts.HeaderlessPrefixIgnored | main.py:345-358 | lines before the first header, bullets included, change nothing, since there is no current key |
| EntityFacts.PlainLineIgnored | main.py:358 | a line that is neither header nor bullet can be removed anywhere without changing the result |
| EntityFacts.RepeatedHeaderResets | main.py:351-355 | a header naming an existing key empties that list and makes it current; no key moves or is added |
| EntityFacts.BulletGoesToLastHeader | main.py:358-360 | a bullet after a header appends its value to the list of the last header read, and to no other |
| EntityFacts.MatchHeaderShortest | main.py:351-353 | the shortest closing group is the name the regex captures |
| EntityFacts.ClassifyBullet | main.py:358-359 | `* Alice` is a bullet with value `Alice` |
| EntityFacts.ClassifyStarredBullet | main.py:359 | `*** Bob` loses all its stars: value `Bob` |
| EntityFacts.ClassifyEmptyBullet | main.py:351-359 | `**` is no header, because the group must be non-empty; it is a bullet with an empty value |
| EntityFacts.ClassifyHeader | main.py:351-353 | `**Person**` is a header `Person`, although it starts with `*` |
| EntityFacts.ClassifyShortestHeader | main.py:351-353 | `**a** and **b**` is a header `a`: the lazy group stops at the first `**` |
| EntityFacts.ClassifyStarHeader | main.py:351-353 | `*****` is a header named `*` |
| EntityFacts.ClassifyPlain | main.py:358 | `Person:` is ignored |
| EntityFacts.ParseLinesExample | main.py:343-362 | a stray bullet, two headers, a plain line and three bullets give `{Person: [Alice, Bob], Location: [Paris]}` |
| Json.Get | main.py:100 | a key is found exactly when the object has it |
| Json.GetIsLast | main.py:100 | with repeated keys, `json.loads` keeps the value of the member written last |
| Python.MembershipGuardsSubscript | main.py:164-172 | `key in x` guards `x[key]` on a dict, both ways; on a string or list `in` can hold while `x[key]` raises `TypeError` |
| Python.GetOrIsGuardedSubscript | main.py:460-464 | on a dict, `.get(key, default)` is `x[key]` when `key in x`, else the default |
| Http.ExchangeRaisesNoHttpException | main.py:441-503 | the request and `response.json()` never raise `HTTPException`, so `except HTTPException: raise` only re-raises the handler's own |
| TextApi.FirstPresent | main.py:103-111 | a priority lookup: the first key present, with none before it present; absent only when no key is present |
| TextApi.Normalize | main.py:103-118 | a dict gives the value of the first probed key it has, otherwise its `str()`; a string as it is; anything else its `str()` |
| TextApi.NormalizeIgnoresOtherKeys | main.py:103-111 | once a probed key is present, a member with another key, inserted anywhere, does not change the outcome |
| TextApi.CallTextApi | main.py:96-125 | success iff delivered with a JSON body, with the normalised value; failures are `HTTPException` with 504, the upstream status and "External API error: " text, or 500 |
| TextApi.EntityDict | main.py:380-390 | a string reply gives the reference entity dict of its lines; upstream errors pass through; a non-string reply fails with 500 |
| ImageApi.ClassifyImage | main.py:151-181 | raw bytes exactly for an `image/` type; otherwise a body that is no JSON raises its decode error, a non-dict body `TypeError` or "Unsupported", a dict gives `image_url`, then `image` decoded as base64 (or the decoder's error), otherwise "Unsupported image response format" (500) |
| ImageApi.ImageIgnoresOtherKeys | main.py:164-181 | a member other than `image_url` and `image`, inserted anywhere, does not change the classification |
| ImageApi.CallImageApi | main.py:142-199 | success exactly when delivered and classified, with the classifier's result; 504 on timeout, the upstream status with its text, and every other failure wrapped as 500 "Unexpected error: " |
| ImageApi.GenerateImage | main.py:409-425 | success iff the reply is an image, and then its `data:` URI; every failure has the status the exchange calls for |
| ImageApi.GeneratedImageRoundTrip | main.py:413-415 | the returned URI parses back to the upstream content type and bytes |
| ImageApi.ImageUrlReplyFails | main.py:410-415 | a JSON `image_url` reply is classified as a URL, yet the handler fails with 500 on a `KeyError` |
| VideoApi.VideoPrefixIsRedundant | main.py:451 | the `startswith("video/")` test adds nothing to `"video" in content_type` |
| VideoApi.OutputShapes | main.py:468-497 | each result shape pins its source: never raw bytes; a URL is the `output` text starting `http` or the dict's `url`/`video_url`; a data URI is exactly the `output` text; bytes are `b64decode` of the `output` text or of `base64`; every failure is a 500 or a decoder error |
| VideoApi.AcceptedVideoReply | main.py:448-497 | a reply is accepted only as raw bytes, exactly when the type names video or octet-stream, or as a dict with no truthy `error` and a non-null `output`, which alone decides the result |
| VideoApi.TruthyErrorFails | main.py:459-462 | a truthy `error` ends `generate_video` as a 500 carrying `str(error)`, whatever `output` holds |
| VideoApi.CallVideoApi | main.py:428-506 | an empty token fails with 500 before any request; otherwise the classifier's success is the result, its own `HTTPException` passes unchanged, any other error becomes 500 "Video generation failed: "; 504 on timeout, the upstream status on refusal |
| VideoApi.VideoUrlParses | main.py:523-546 | for a shape carrying bytes, the `video_url` handed back parses to that shape's content type and bytes |
| VideoApi.GenerateVideo | main.py:520-553 | success exactly when the client call succeeds; every failure is an `HTTPException` with 500 without a token, else the exchange's status |
| VideoApi.BinaryVideoRoundTrip | main.py:537-541 | a binary reply comes back as a URI that parses to the reply's type and bytes |
| VideoApi.Base64OutputReemitted | main.py:474-480 | the base64 text of any bytes, given as `output` and not starting with `http`, comes back as `data:video/mp4;base64,` followed by the same text; that text never starts with `data:` |
| VideoApi.EncodeIsNoDataUri | main.py:472-473 | base64 text never starts with `data:`, so the data-URI branch cannot capture it |
| VideoApi.FalsyErrorIgnored | main.py:460-462 | a falsy `error` member, inserted anywhere in a reply without one, does not change `generate_video`'s result |
| VideoApi.Base64PayloadTakenForUrl | main.py:470-471 | base64 text of bytes starting 0x86 0xdb 0x69 starts with `http`, so it is handed back as a URL and not decoded |
| Base64.Encode | main.py:414 | `b64encode` output has length 4·⌈n/3⌉ |
| Base64.DecodeEncode | main.py:414 | decoding the encoding gives back the bytes |
| Base64.EncodeDecode | main.py:414 | every text the strict decoder accepts is exactly the encoding of what it decodes to |
| Base64.EncodeAlphabet | main.py:414 | encoded text uses only the 64-character alphabet and `=` |
| DataUri.Make | main.py:415 | the URI starts with `data:` and has the length of its four parts |
| DataUri.ParseMake | main.py:415 | the URI parses back to the media type and bytes it was made from |
| DataUri.MakeParse | main.py:415 | any URI the parser accepts is the one `Make` builds from the parts |

## Left out

- The network: `httpx`, timeouts, headers, bearer tokens and URLs. The
  exchange's outcome is an input.
- FastAPI wiring: routes, pydantic request and response models and their
  validation, CORS, static files, `/`, `/health`, `/api`, the summarise and
  grammar endpoints (thin calls of `call_external_api`), and `uvicorn`.
- Prompts and system prompts, and the request description echoed in each
  response.
- The wording of exception messages: `Detail.Wrapped(prefix, cause)` keeps
  the exception instead of `str(e)`. `repr` is a parameter.
- The lenient `base64.b64decode` is a parameter. It is constrained only
  where a lemma requires it to decode one particular encoded text.
- JSON `NaN`/`Infinity` and the float details of truthiness. The raw bytes
  and the parsed JSON of a reply are independent inputs.
- `str(result)` of the entity dict in `/entity-dict`: the model returns the
  dict itself.
- Whether a non-string value from `call_external_api` passes `APIResponse`
  validation in the text endpoints.
- `generate_video`'s final "Unsupported response format" branch: every
  result shape is handled before it, so it cannot be reached.
- `static/script.js`: browser code, not part of this model.
- TextApi.CallTextApi: the `Unreachable` outcome stands for every other
  `httpx` failure, and only the case of a refused connection is stated.
