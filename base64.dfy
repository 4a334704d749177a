/** Base 64 encoding with the standard alphabet and `=` padding (section 4
    of RFC 4648), as PHP's `base64_encode` produces it, and the decoder
    that inverts it. */
module Base64 {
  import opened PhpValues
  import opened Utf8

  /** The character for a 6-bit value: A-Z, a-z, 0-9, '+', '/'. */
  function Digit(v: int): (c: char)
    requires 0 <= v < 64
    ensures c != '='
  {
    if v < 26 then ('A' as int + v) as char
    else if v < 52 then ('a' as int + (v - 26)) as char
    else if v < 62 then ('0' as int + (v - 52)) as char
    else if v == 62 then '+'
    else '/'
  }

  /** The 6-bit value of an alphabet character; None for any other. */
  function DigitValue(c: char): (r: Option<int>)
    ensures r.Some? ==> 0 <= r.value < 64
  {
    if 'A' <= c <= 'Z' then Some(c as int - 'A' as int)
    else if 'a' <= c <= 'z' then Some(c as int - 'a' as int + 26)
    else if '0' <= c <= '9' then Some(c as int - '0' as int + 52)
    else if c == '+' then Some(62)
    else if c == '/' then Some(63)
    else None
  }

  predicate InAlphabet(c: char)
  {
    DigitValue(c).Some? || c == '='
  }

  lemma DigitRoundTrip(v: int)
    requires 0 <= v < 64
    ensures DigitValue(Digit(v)) == Some(v)
  {
  }

  /** Three bytes as four characters, six bits each. */
  function Group3(b0: byte, b1: byte, b2: byte): (q: string)
    ensures |q| == 4 && forall k :: 0 <= k < 4 ==> DigitValue(q[k]).Some?
  {
    var x, y, z := b0 as int, b1 as int, b2 as int;
    [Digit(x / 4), Digit((x % 4) * 16 + y / 16), Digit((y % 16) * 4 + z / 64), Digit(z % 64)]
  }

  /** A final pair of bytes: three characters and one `=`. */
  function Group2(b0: byte, b1: byte): (q: string)
    ensures |q| == 4 && forall k :: 0 <= k < 4 ==> InAlphabet(q[k])
  {
    var x, y := b0 as int, b1 as int;
    [Digit(x / 4), Digit((x % 4) * 16 + y / 16), Digit((y % 16) * 4), '=']
  }

  /** A final single byte: two characters and `==`. */
  function Group1(b0: byte): (q: string)
    ensures |q| == 4 && forall k :: 0 <= k < 4 ==> InAlphabet(q[k])
  {
    var x := b0 as int;
    [Digit(x / 4), Digit((x % 4) * 16), '=', '=']
  }

  /** The encoding of a byte string: each group of three bytes becomes four
      characters; a final group of one or two bytes is padded with `=`. */
  function Encode(bs: seq<byte>): (r: string)
    ensures |r| == (|bs| + 2) / 3 * 4
    ensures forall k :: 0 <= k < |r| ==> InAlphabet(r[k])
  {
    if |bs| == 0 then ""
    else if |bs| == 1 then Group1(bs[0])
    else if |bs| == 2 then Group2(bs[0], bs[1])
    else Group3(bs[0], bs[1], bs[2]) + Encode(bs[3..])
  }

  /** Four characters without padding, as three bytes. */
  function DecodeQuad(q: string): Option<seq<byte>>
    requires |q| == 4
  {
    match (DigitValue(q[0]), DigitValue(q[1]), DigitValue(q[2]), DigitValue(q[3]))
    case (Some(v0), Some(v1), Some(v2), Some(v3)) =>
      Some([(v0 * 4 + v1 / 16) as byte, ((v1 % 16) * 16 + v2 / 4) as byte, ((v2 % 4) * 64 + v3) as byte])
    case _ => None
  }

  /** The last four characters, which may end in one or two `=`. */
  function DecodeLast(q: string): Option<seq<byte>>
    requires |q| == 4
  {
    if q[2] == '=' && q[3] == '=' then
      match (DigitValue(q[0]), DigitValue(q[1]))
      case (Some(v0), Some(v1)) => Some([(v0 * 4 + v1 / 16) as byte])
      case _ => None
    else if q[3] == '=' then
      match (DigitValue(q[0]), DigitValue(q[1]), DigitValue(q[2]))
      case (Some(v0), Some(v1), Some(v2)) => Some([(v0 * 4 + v1 / 16) as byte, ((v1 % 16) * 16 + v2 / 4) as byte])
      case _ => None
    else DecodeQuad(q)
  }

  function Decode(s: string): Option<seq<byte>>
  {
    if s == [] then Some([])
    else if |s| < 4 then None
    else if |s| == 4 then DecodeLast(s)
    else match DecodeQuad(s[..4])
      case None => None
      case Some(group) =>
        match Decode(s[4..])
        case None => None
        case Some(rest) => Some(group + rest)
  }

  // The bit arithmetic of one group: the 6-bit values read back as bytes.

  lemma FirstByte(b0: int, b1: int)
    requires 0 <= b0 < 256 && 0 <= b1 < 256
    ensures ((b0 % 4) * 16 + b1 / 16) / 16 == b0 % 4
    ensures (b0 / 4) * 4 + ((b0 % 4) * 16 + b1 / 16) / 16 == b0
  {
  }

  lemma SecondByte(b0: int, b1: int, b2: int)
    requires 0 <= b0 < 256 && 0 <= b1 < 256 && 0 <= b2 < 256
    ensures (((b0 % 4) * 16 + b1 / 16) % 16) * 16 + ((b1 % 16) * 4 + b2 / 64) / 4 == b1
  {
    assert ((b0 % 4) * 16 + b1 / 16) % 16 == b1 / 16;
    assert ((b1 % 16) * 4 + b2 / 64) / 4 == b1 % 16;
  }

  lemma ThirdByte(b1: int, b2: int)
    requires 0 <= b1 < 256 && 0 <= b2 < 256
    ensures (((b1 % 16) * 4 + b2 / 64) % 4) * 64 + b2 % 64 == b2
  {
    assert ((b1 % 16) * 4 + b2 / 64) % 4 == b2 / 64;
  }

  lemma OneByteGroup(b0: byte)
    ensures DecodeLast(Group1(b0)) == Some([b0])
  {
    var x := b0 as int;
    FirstByte(x, 0);
    DigitRoundTrip(x / 4);
    DigitRoundTrip((x % 4) * 16);
  }

  lemma TwoByteGroup(b0: byte, b1: byte)
    ensures DecodeLast(Group2(b0, b1)) == Some([b0, b1])
  {
    var x, y := b0 as int, b1 as int;
    FirstByte(x, y);
    SecondByte(x, y, 0);
    DigitRoundTrip(x / 4);
    DigitRoundTrip((x % 4) * 16 + y / 16);
    DigitRoundTrip((y % 16) * 4);
  }

  lemma ThreeByteGroup(b0: byte, b1: byte, b2: byte)
    ensures DecodeQuad(Group3(b0, b1, b2)) == Some([b0, b1, b2])
    ensures DecodeLast(Group3(b0, b1, b2)) == Some([b0, b1, b2])
  {
    var x, y, z := b0 as int, b1 as int, b2 as int;
    FirstByte(x, y);
    SecondByte(x, y, z);
    ThirdByte(y, z);
    DigitRoundTrip(x / 4);
    DigitRoundTrip((x % 4) * 16 + y / 16);
    DigitRoundTrip((y % 16) * 4 + z / 64);
    DigitRoundTrip(z % 64);
  }

  /** Decoding an encoding gives the bytes back. */
  lemma {:induction false} DecodeEncode(bs: seq<byte>)
    ensures Decode(Encode(bs)) == Some(bs)
    decreases |bs|
  {
    if |bs| == 1 {
      OneByteGroup(bs[0]);
      assert [bs[0]] == bs;
    } else if |bs| == 2 {
      TwoByteGroup(bs[0], bs[1]);
      assert [bs[0], bs[1]] == bs;
    } else if |bs| >= 3 {
      var q := Group3(bs[0], bs[1], bs[2]);
      var rest := bs[3..];
      ThreeByteGroup(bs[0], bs[1], bs[2]);
      assert [bs[0], bs[1], bs[2]] + rest == bs;
      var s := Encode(bs);
      assert s == q + Encode(rest);
      if |bs| == 3 {
        assert rest == [] && Encode(rest) == "";
        assert s == q;
        assert [bs[0], bs[1], bs[2]] == bs;
      } else {
        assert s[..4] == q;
        assert s[4..] == Encode(rest);
        DecodeEncode(rest);
      }
    }
  }
}
