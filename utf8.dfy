/** The bytes of a string. PHP strings are byte strings; the model's strings
    are sequences of Unicode scalar values, and the bytes PHP would hold are
    their UTF-8 encoding (RFC 3629, section 3). `base64_encode` and
    `urlencode` work on these bytes. */
module Utf8 {
  import opened PhpValues

  newtype byte = x: int | 0 <= x < 256

  predicate IsContinuation(b: byte)
  {
    0x80 <= b < 0xC0
  }

  /** The Unicode scalar values: every value a `char` can hold. */
  predicate IsScalarValue(v: int)
  {
    (0 <= v < 0xD800) || (0xE000 <= v < 0x11_0000)
  }

  lemma CharIsScalar(c: char)
    ensures IsScalarValue(c as int)
  {
  }

  function EncodeChar(c: char): (r: seq<byte>)
    ensures 1 <= |r| <= 4
    ensures |r| == 1 <==> c as int < 0x80
    ensures |r| == 1 ==> r[0] as int == c as int
    ensures !IsContinuation(r[0]) && forall k :: 1 <= k < |r| ==> IsContinuation(r[k])
  {
    var n := c as int;
    if n < 0x80 then [n as byte]
    else if n < 0x800 then [(0xC0 + n / 64) as byte, (0x80 + n % 64) as byte]
    else if n < 0x1_0000 then
      [(0xE0 + n / 4096) as byte, (0x80 + (n / 64) % 64) as byte, (0x80 + n % 64) as byte]
    else
      [(0xF0 + n / 262144) as byte, (0x80 + (n / 4096) % 64) as byte,
       (0x80 + (n / 64) % 64) as byte, (0x80 + n % 64) as byte]
  }

  function Encode(s: string): (r: seq<byte>)
    ensures |r| >= |s|
  {
    if s == [] then [] else EncodeChar(s[0]) + Encode(s[1..])
  }

  /** Decodes the character at the front of `bs`, giving it with the number
      of bytes it takes; refuses malformed, overlong and surrogate forms. */
  function DecodeChar(bs: seq<byte>): (r: Option<(char, nat)>)
    requires |bs| > 0
    ensures r.Some? ==> 1 <= r.value.1 <= |bs|
  {
    var b0 := bs[0] as int;
    if b0 < 0x80 then Some((b0 as char, 1))
    else if 0xC0 <= b0 < 0xE0 && |bs| >= 2 && IsContinuation(bs[1]) then
      var v := (b0 - 0xC0) * 64 + (bs[1] as int - 0x80);
      if 0x80 <= v then Some((v as char, 2)) else None
    else if 0xE0 <= b0 < 0xF0 && |bs| >= 3 && IsContinuation(bs[1]) && IsContinuation(bs[2]) then
      var v := (b0 - 0xE0) * 4096 + (bs[1] as int - 0x80) * 64 + (bs[2] as int - 0x80);
      if 0x800 <= v && IsScalarValue(v) then Some((v as char, 3)) else None
    else if 0xF0 <= b0 < 0xF8 && |bs| >= 4 && IsContinuation(bs[1]) && IsContinuation(bs[2]) && IsContinuation(bs[3]) then
      var v := (b0 - 0xF0) * 262144 + (bs[1] as int - 0x80) * 4096 + (bs[2] as int - 0x80) * 64 + (bs[3] as int - 0x80);
      if 0x1_0000 <= v < 0x11_0000 then Some((v as char, 4)) else None
    else None
  }

  function Decode(bs: seq<byte>): Option<string>
    decreases |bs|
  {
    if bs == [] then Some([])
    else match DecodeChar(bs)
      case None => None
      case Some((c, n)) =>
        match Decode(bs[n..])
        case None => None
        case Some(rest) => Some([c] + rest)
  }

  // The arithmetic of each encoding length: the payload bits read back.

  lemma TwoBytes(n: int)
    requires 0x80 <= n < 0x800
    ensures 0xC0 <= 0xC0 + n / 64 < 0xE0
    ensures ((0xC0 + n / 64) - 0xC0) * 64 + ((0x80 + n % 64) - 0x80) == n
  {
  }

  lemma ThreeBytes(n: int)
    requires 0x800 <= n < 0x1_0000
    ensures 0xE0 <= 0xE0 + n / 4096 < 0xF0
    ensures (n / 4096) * 4096 + ((n / 64) % 64) * 64 + n % 64 == n
  {
    assert n / 64 == (n / 4096) * 64 + (n / 64) % 64;
  }

  lemma FourBytes(n: int)
    requires 0x1_0000 <= n < 0x11_0000
    ensures 0xF0 <= 0xF0 + n / 262144 < 0xF8
    ensures (n / 262144) * 262144 + ((n / 4096) % 64) * 4096 + ((n / 64) % 64) * 64 + n % 64 == n
  {
    assert n / 4096 == (n / 262144) * 64 + (n / 4096) % 64;
    assert n / 64 == (n / 4096) * 64 + (n / 64) % 64;
  }

  lemma DecodeEncodedChar(c: char, rest: seq<byte>)
    ensures DecodeChar(EncodeChar(c) + rest) == Some((c, |EncodeChar(c)|))
  {
    var n := c as int;
    var bs := EncodeChar(c) + rest;
    CharIsScalar(c);
    if n < 0x80 {
    } else if n < 0x800 {
      TwoBytes(n);
      assert bs[0] as int == 0xC0 + n / 64 && bs[1] as int == 0x80 + n % 64;
    } else if n < 0x1_0000 {
      ThreeBytes(n);
      assert bs[0] as int == 0xE0 + n / 4096 && bs[1] as int == 0x80 + (n / 64) % 64 && bs[2] as int == 0x80 + n % 64;
    } else {
      FourBytes(n);
      assert bs[0] as int == 0xF0 + n / 262144 && bs[1] as int == 0x80 + (n / 4096) % 64;
      assert bs[2] as int == 0x80 + (n / 64) % 64 && bs[3] as int == 0x80 + n % 64;
    }
  }

  /** Decoding the bytes of a string gives the string back. */
  lemma {:induction false} DecodeEncode(s: string)
    ensures Decode(Encode(s)) == Some(s)
  {
    if s != [] {
      var head := EncodeChar(s[0]);
      var tail := Encode(s[1..]);
      DecodeEncodedChar(s[0], tail);
      assert (head + tail)[|head|..] == tail;
      DecodeEncode(s[1..]);
      assert [s[0]] + s[1..] == s;
    }
  }

  /** On ASCII text the bytes are the characters themselves. */
  lemma {:induction false} EncodeAscii(s: string)
    requires forall k :: 0 <= k < |s| ==> s[k] as int < 0x80
    ensures |Encode(s)| == |s|
    ensures forall k :: 0 <= k < |s| ==> Encode(s)[k] as int == s[k] as int
  {
    if s != [] {
      EncodeAscii(s[1..]);
      assert Encode(s) == EncodeChar(s[0]) + Encode(s[1..]);
      forall k | 0 <= k < |s| ensures Encode(s)[k] as int == s[k] as int {
        if k > 0 {
          assert Encode(s)[k] == Encode(s[1..])[k - 1];
          assert s[k] == s[1..][k - 1];
        }
      }
    }
  }

  lemma {:induction false} EncodeAppend(a: string, b: string)
    ensures Encode(a + b) == Encode(a) + Encode(b)
  {
    if a != [] {
      assert (a + b)[1..] == a[1..] + b;
      assert (a + b)[0] == a[0];
      EncodeAppend(a[1..], b);
    } else {
      assert a + b == b;
    }
  }
}
