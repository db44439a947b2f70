/** The `data:` URIs of RFC 2397, in the base64 form the handlers build:
    `data:<media type>;base64,<payload>`. */
module DataUri {
  import opened Prelude
  import Base64

  const Scheme: string := "data:"
  const Marker: string := ";base64,"

  /** `f"data:{content_type};base64,{base64.b64encode(data).decode('utf-8')}"`. */
  function Make(mediaType: string, data: seq<byte>): (uri: string)
    ensures Scheme <= uri
    ensures |uri| == |Scheme| + |mediaType| + |Marker| + |Base64.Encode(data)|
  {
    Scheme + mediaType + Marker + Base64.Encode(data)
  }

  /** The position of the last comma in `s`, if there is one. */
  function LastComma(s: string): (r: Option<nat>)
    ensures r.Some? ==> r.value < |s| && s[r.value] == ','
    ensures forall k :: (if r.Some? then r.value + 1 else 0) <= k < |s| ==> s[k] != ','
    decreases |s|
  {
    if s == [] then None
    else if s[|s| - 1] == ',' then Some(|s| - 1)
    else LastComma(s[..|s| - 1])
  }

  /** Reads a base64 `data:` URI back into its media type and bytes. The payload
      starts after the last comma, since base64 text never holds one. */
  function Parse(uri: string): Option<(string, seq<byte>)>
  {
    if !(Scheme <= uri) then None
    else
      var rest := uri[|Scheme|..];
      match LastComma(rest)
      case None => None
      case Some(k) =>
        var meta := rest[..k];
        if |meta| < 7 || meta[|meta| - 7..] != ";base64" then None
        else
          match Base64.Decode(rest[k + 1..])
          case None => None
          case Some(data) => Some((meta[..|meta| - 7], data))
  }

  /** A comma followed by comma-free text is the last comma. */
  lemma {:induction false} LastCommaOfJoin(a: string, b: string)
    requires forall k :: 0 <= k < |b| ==> b[k] != ','
    ensures LastComma(a + [','] + b) == Some(|a|)
    decreases |b|
  {
    var s := a + [','] + b;
    if b != [] {
      assert s[|s| - 1] == b[|b| - 1];
      assert s[..|s| - 1] == a + [','] + b[..|b| - 1];
      LastCommaOfJoin(a, b[..|b| - 1]);
    }
  }

  /** Base64 text holds no comma. */
  lemma EncodeHasNoComma(data: seq<byte>)
    ensures forall k :: 0 <= k < |Base64.Encode(data)| ==> Base64.Encode(data)[k] != ','
  {
    Base64.EncodeAlphabet(data);
  }

  /** Every URI `Make` builds reads back as the media type and bytes it was
      built from, whatever the media type holds. */
  lemma ParseMake(mediaType: string, data: seq<byte>)
    ensures Parse(Make(mediaType, data)) == Some((mediaType, data))
  {
    var uri := Make(mediaType, data);
    var payload := Base64.Encode(data);
    var rest := uri[|Scheme|..];
    assert rest == (mediaType + ";base64") + [','] + payload;
    EncodeHasNoComma(data);
    LastCommaOfJoin(mediaType + ";base64", payload);
    var k := |mediaType| + 7;
    assert rest[..k] == mediaType + ";base64";
    assert rest[k + 1..] == payload;
    Base64.DecodeEncode(data);
  }

  /** The pieces `Parse` takes apart, put back together. */
  lemma Reassemble(uri: string, k: nat, mediaType: string, payload: string)
    requires Scheme <= uri && k < |uri| - |Scheme|
    requires uri[|Scheme| + k] == ','
    requires uri[|Scheme|..][..k] == mediaType + ";base64"
    requires uri[|Scheme|..][k + 1..] == payload
    ensures Scheme + mediaType + Marker + payload == uri
  {
    var rest := uri[|Scheme|..];
    assert rest == rest[..k] + [','] + rest[k + 1..];
    assert uri == Scheme + rest;
  }

  /** Every URI `Parse` accepts is exactly the one `Make` builds from its parts. */
  lemma MakeParse(uri: string)
    requires Parse(uri).Some?
    ensures Make(Parse(uri).value.0, Parse(uri).value.1) == uri
  {
    var rest := uri[|Scheme|..];
    var k := LastComma(rest).value;
    var meta := rest[..k];
    var payload := rest[k + 1..];
    var mediaType := meta[..|meta| - 7];
    assert Parse(uri) == Some((mediaType, Base64.Decode(payload).value));
    Base64.EncodeDecode(payload);
    assert meta == mediaType + ";base64";
    Reassemble(uri, k, mediaType, payload);
  }
}
