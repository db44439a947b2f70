/** Base64 as in section 4 of RFC 4648: the standard alphabet, `=` padding.
    `Encode` is what `base64.b64encode(...).decode('utf-8')` produces;
    `Decode` is the strict inverse, accepting exactly the canonical encodings. */
module Base64 {
  import opened Prelude

  /** The 6-bit value of an alphabet character. */
  type sextet = i: int | 0 <= i < 64

  /** The character RFC 4648 assigns to a 6-bit value. */
  function CharOf(i: sextet): (c: char)
    ensures c != '='
  {
    if i < 26 then ('A' as int + i) as char
    else if i < 52 then ('a' as int + (i - 26)) as char
    else if i < 62 then ('0' as int + (i - 52)) as char
    else if i == 62 then '+'
    else '/'
  }

  /** The 6-bit value of `c`, when `c` belongs to the alphabet. */
  function IndexOf(c: char): Option<sextet>
  {
    if 'A' <= c <= 'Z' then Some(c as int - 'A' as int)
    else if 'a' <= c <= 'z' then Some(c as int - 'a' as int + 26)
    else if '0' <= c <= '9' then Some(c as int - '0' as int + 52)
    else if c == '+' then Some(62)
    else if c == '/' then Some(63)
    else None
  }

  /** The alphabet is a bijection between 6-bit values and its 64 characters. */
  lemma AlphabetBijection(i: sextet, c: char)
    ensures IndexOf(CharOf(i)) == Some(i)
    ensures IndexOf(c) == Some(i) ==> CharOf(i) == c
  {
  }

  /** Three bytes as four characters. */
  function EncodeGroup(b0: byte, b1: byte, b2: byte): string
  {
    [CharOf(b0 / 4), CharOf((b0 % 4) * 16 + b1 / 16), CharOf((b1 % 16) * 4 + b2 / 64), CharOf(b2 % 64)]
  }

  /** The final group for two leftover bytes: three characters and one `=`. */
  function EncodeTail2(b0: byte, b1: byte): string
  {
    [CharOf(b0 / 4), CharOf((b0 % 4) * 16 + b1 / 16), CharOf((b1 % 16) * 4), '=']
  }

  /** The final group for one leftover byte: two characters and `==`. */
  function EncodeTail1(b0: byte): string
  {
    [CharOf(b0 / 4), CharOf((b0 % 4) * 16), '=', '=']
  }

  /** `base64.b64encode`. */
  function Encode(b: seq<byte>): (s: string)
    ensures |s| == 4 * ((|b| + 2) / 3)
    decreases |b|
  {
    if |b| == 0 then ""
    else if |b| == 1 then EncodeTail1(b[0])
    else if |b| == 2 then EncodeTail2(b[0], b[1])
    else EncodeGroup(b[0], b[1], b[2]) + Encode(b[3..])
  }

  /** Four alphabet characters as three bytes. */
  function DecodeGroup(q: string): Option<seq<byte>>
    requires |q| == 4
  {
    match (IndexOf(q[0]), IndexOf(q[1]), IndexOf(q[2]), IndexOf(q[3]))
    case (Some(i0), Some(i1), Some(i2), Some(i3)) =>
      Some([i0 * 4 + i1 / 16, (i1 % 16) * 16 + i2 / 4, (i2 % 4) * 64 + i3])
    case _ => None
  }

  /** The last group, which may carry padding; bits the padding drops must be zero. */
  function DecodeTail(q: string): Option<seq<byte>>
    requires |q| == 4
  {
    if q[2] == '=' && q[3] == '=' then
      match (IndexOf(q[0]), IndexOf(q[1]))
      case (Some(i0), Some(i1)) => if i1 % 16 == 0 then Some([i0 * 4 + i1 / 16]) else None
      case _ => None
    else if q[3] == '=' then
      match (IndexOf(q[0]), IndexOf(q[1]), IndexOf(q[2]))
      case (Some(i0), Some(i1), Some(i2)) =>
        if i2 % 4 == 0 then Some([i0 * 4 + i1 / 16, (i1 % 16) * 16 + i2 / 4]) else None
      case _ => None
    else DecodeGroup(q)
  }

  /** Strict decoding: `None` for anything `Encode` cannot produce. */
  function Decode(s: string): Option<seq<byte>>
    decreases |s|
  {
    if |s| == 0 then Some([])
    else if |s| < 4 then None
    else if |s| == 4 then DecodeTail(s)
    else
      match DecodeGroup(s[..4])
      case None => None
      case Some(g) =>
        match Decode(s[4..])
        case None => None
        case Some(rest) => Some(g + rest)
  }

  /** The four 6-bit values of a full group put back together give its bytes. */
  lemma BytesOfGroup(b0: byte, b1: byte, b2: byte)
    ensures var i0, i1, i2, i3 := b0 / 4, (b0 % 4) * 16 + b1 / 16, (b1 % 16) * 4 + b2 / 64, b2 % 64;
            && i0 * 4 + i1 / 16 == b0
            && (i1 % 16) * 16 + i2 / 4 == b1
            && (i2 % 4) * 64 + i3 == b2
  {
    Digits(b0 % 4, b1 / 16, 16);
    Digits(b1 % 16, b2 / 64, 4);
  }

  lemma GroupRoundTrip(b0: byte, b1: byte, b2: byte)
    ensures DecodeGroup(EncodeGroup(b0, b1, b2)) == Some([b0, b1, b2])
  {
    var q := EncodeGroup(b0, b1, b2);
    BytesOfGroup(b0, b1, b2);
    AlphabetBijection(b0 / 4, q[0]);
    AlphabetBijection((b0 % 4) * 16 + b1 / 16, q[1]);
    AlphabetBijection((b1 % 16) * 4 + b2 / 64, q[2]);
    AlphabetBijection(b2 % 64, q[3]);
  }

  /** A full group has no padding, so as the last group it decodes as any group. */
  lemma GroupTailRoundTrip(b0: byte, b1: byte, b2: byte)
    ensures DecodeTail(EncodeGroup(b0, b1, b2)) == Some([b0, b1, b2])
  {
    GroupRoundTrip(b0, b1, b2);
  }

  lemma Tail2RoundTrip(b0: byte, b1: byte)
    ensures DecodeTail(EncodeTail2(b0, b1)) == Some([b0, b1])
  {
    var q := EncodeTail2(b0, b1);
    BytesOfGroup(b0, b1, 0);
    AlphabetBijection(b0 / 4, q[0]);
    AlphabetBijection((b0 % 4) * 16 + b1 / 16, q[1]);
    AlphabetBijection((b1 % 16) * 4, q[2]);
  }

  lemma Tail1RoundTrip(b0: byte)
    ensures DecodeTail(EncodeTail1(b0)) == Some([b0])
  {
    var q := EncodeTail1(b0);
    BytesOfGroup(b0, 0, 0);
    AlphabetBijection(b0 / 4, q[0]);
    AlphabetBijection((b0 % 4) * 16, q[1]);
  }

  /** A full group followed by more text decodes group by group. */
  lemma DecodeCons(q: string, rest: string)
    requires |q| == 4 && |rest| > 0
    ensures Decode(q + rest) == match (DecodeGroup(q), Decode(rest))
                                case (Some(g), Some(r)) => Some(g + r)
                                case _ => None
  {
    var s := q + rest;
    assert s[..4] == q && s[4..] == rest;
  }

  lemma DecodeEncode1(b0: byte)
    ensures Decode(Encode([b0])) == Some([b0])
  {
    Tail1RoundTrip(b0);
  }

  lemma DecodeEncode2(b0: byte, b1: byte)
    ensures Decode(Encode([b0, b1])) == Some([b0, b1])
  {
    Tail2RoundTrip(b0, b1);
  }

  lemma DecodeEncode3(b0: byte, b1: byte, b2: byte)
    ensures Decode(Encode([b0, b1, b2])) == Some([b0, b1, b2])
  {
    GroupTailRoundTrip(b0, b1, b2);
    assert [b0, b1, b2][3..] == [];
    assert EncodeGroup(b0, b1, b2) + "" == EncodeGroup(b0, b1, b2);
  }

  /** Decoding recovers every encoded byte string. */
  lemma {:induction false} DecodeEncode(b: seq<byte>)
    ensures Decode(Encode(b)) == Some(b)
    decreases |b|
  {
    if |b| == 1 {
      DecodeEncode1(b[0]);
      assert b == [b[0]];
    } else if |b| == 2 {
      DecodeEncode2(b[0], b[1]);
      assert b == [b[0], b[1]];
    } else if |b| == 3 {
      DecodeEncode3(b[0], b[1], b[2]);
      assert b == [b[0], b[1], b[2]];
    } else if |b| > 3 {
      GroupRoundTrip(b[0], b[1], b[2]);
      DecodeEncode(b[3..]);
      DecodeCons(EncodeGroup(b[0], b[1], b[2]), Encode(b[3..]));
      assert b == [b[0], b[1], b[2]] + b[3..];
    }
  }

  /** Putting `lo` under `hi` in a base `m` digit, and taking it apart again. */
  lemma Digits(hi: int, lo: int, m: int)
    requires m == 4 || m == 16 || m == 64
    requires 0 <= lo < m
    ensures (hi * m + lo) / m == hi && (hi * m + lo) % m == lo
  {
  }

  /** The three bytes of a full group, read back as 6-bit values. */
  lemma SextetsOfGroup(i0: sextet, i1: sextet, i2: sextet, i3: sextet)
    ensures var b0, b1, b2 := i0 * 4 + i1 / 16, (i1 % 16) * 16 + i2 / 4, (i2 % 4) * 64 + i3;
            && b0 / 4 == i0 && (b0 % 4) * 16 + b1 / 16 == i1
            && (b1 % 16) * 4 + b2 / 64 == i2 && b2 % 64 == i3
  {
    Digits(i0, i1 / 16, 4);
    Digits(i1 % 16, i2 / 4, 16);
    Digits(i2 % 4, i3, 64);
  }

  lemma GroupCanonical(q: string)
    requires |q| == 4 && DecodeGroup(q).Some?
    ensures var g := DecodeGroup(q).value; |g| == 3 && EncodeGroup(g[0], g[1], g[2]) == q
  {
    var i0, i1, i2, i3 := IndexOf(q[0]).value, IndexOf(q[1]).value, IndexOf(q[2]).value, IndexOf(q[3]).value;
    SextetsOfGroup(i0, i1, i2, i3);
    AlphabetBijection(i0, q[0]);
    AlphabetBijection(i1, q[1]);
    AlphabetBijection(i2, q[2]);
    AlphabetBijection(i3, q[3]);
  }

  /** A last group with one padding character is re-encoded to itself. */
  lemma Tail2Canonical(q: string)
    requires |q| == 4 && q[3] == '=' && q[2] != '=' && DecodeTail(q).Some?
    ensures Encode(DecodeTail(q).value) == q
  {
    var i0, i1, i2 := IndexOf(q[0]).value, IndexOf(q[1]).value, IndexOf(q[2]).value;
    SextetsOfGroup(i0, i1, i2, 0);
    AlphabetBijection(i0, q[0]);
    AlphabetBijection(i1, q[1]);
    AlphabetBijection(i2, q[2]);
  }

  /** A last group with two padding characters is re-encoded to itself. */
  lemma Tail1Canonical(q: string)
    requires |q| == 4 && q[2] == '=' && q[3] == '=' && DecodeTail(q).Some?
    ensures Encode(DecodeTail(q).value) == q
  {
    var i0, i1 := IndexOf(q[0]).value, IndexOf(q[1]).value;
    SextetsOfGroup(i0, i1, 0, 0);
    AlphabetBijection(i0, q[0]);
    AlphabetBijection(i1, q[1]);
  }

  lemma TailCanonical(q: string)
    requires |q| == 4 && DecodeTail(q).Some?
    ensures Encode(DecodeTail(q).value) == q
  {
    if q[2] == '=' && q[3] == '=' {
      Tail1Canonical(q);
    } else if q[3] == '=' {
      Tail2Canonical(q);
    } else {
      GroupCanonical(q);
      var g := DecodeTail(q).value;
      assert Encode(g) == EncodeGroup(g[0], g[1], g[2]) + Encode(g[3..]);
    }
  }

  /** Whatever `Decode` accepts is re-encoded to the very same text. */
  lemma {:induction false} EncodeDecode(s: string)
    requires Decode(s).Some?
    ensures Encode(Decode(s).value) == s
    decreases |s|
  {
    if |s| == 4 {
      TailCanonical(s);
    } else if |s| > 4 {
      var g := DecodeGroup(s[..4]).value;
      var rest := Decode(s[4..]).value;
      GroupCanonical(s[..4]);
      EncodeDecode(s[4..]);
      var b := g + rest;
      assert b[..3] == g && b[3..] == rest;
      assert |rest| > 0 by {
        assert Encode(rest) == s[4..];
      }
      assert Encode(b) == EncodeGroup(b[0], b[1], b[2]) + Encode(b[3..]);
      assert s == s[..4] + s[4..];
    }
  }

  /** Encoded text only uses the alphabet and `=`. */
  lemma {:induction false} EncodeAlphabet(b: seq<byte>)
    ensures forall k :: 0 <= k < |Encode(b)| ==> Encode(b)[k] == '=' || IndexOf(Encode(b)[k]).Some?
    decreases |b|
  {
    var s := Encode(b);
    if |b| == 1 {
      InAlphabet(b[0] / 4);
      InAlphabet((b[0] % 4) * 16);
    } else if |b| == 2 {
      InAlphabet(b[0] / 4);
      InAlphabet((b[0] % 4) * 16 + b[1] / 16);
      InAlphabet((b[1] % 16) * 4);
    } else if |b| >= 3 {
      var g := EncodeGroup(b[0], b[1], b[2]);
      InAlphabet(b[0] / 4);
      InAlphabet((b[0] % 4) * 16 + b[1] / 16);
      InAlphabet((b[1] % 16) * 4 + b[2] / 64);
      InAlphabet(b[2] % 64);
      EncodeAlphabet(b[3..]);
      assert s == g + Encode(b[3..]);
      forall k | 0 <= k < |s|
        ensures s[k] == '=' || IndexOf(s[k]).Some?
      {
        if k >= 4 {
          assert s[k] == Encode(b[3..])[k - 4];
        }
      }
    }
  }

  /** Every 6-bit value has its character in the alphabet. */
  lemma InAlphabet(i: sextet)
    ensures IndexOf(CharOf(i)).Some?
  {
    AlphabetBijection(i, CharOf(i));
  }
}
