/** Form encoding of query strings: PHP's `urlencode` (letters, digits and
    `-_.` kept, a space as `+`, every other byte as `%` and two upper-case
    hex digits), the `urldecode` that inverts it, and `http_build_query`
    on string keys, which drops the keys whose value is null. */
module UrlEncoding {
  import opened PhpValues
  import opened Utf8
  import PhpStrings

  function HexDigit(d: int): (c: char)
    requires 0 <= d < 16
    ensures ('0' <= c <= '9') || ('A' <= c <= 'F')
  {
    if d < 10 then ('0' as int + d) as char else ('A' as int + (d - 10)) as char
  }

  /** The value of a hex digit of either case; None for any other character. */
  function HexValue(c: char): (r: Option<int>)
    ensures r.Some? ==> 0 <= r.value < 16
  {
    if '0' <= c <= '9' then Some(c as int - '0' as int)
    else if 'A' <= c <= 'F' then Some(c as int - 'A' as int + 10)
    else if 'a' <= c <= 'f' then Some(c as int - 'a' as int + 10)
    else None
  }

  lemma HexRoundTrip(d: int)
    requires 0 <= d < 16
    ensures HexValue(HexDigit(d)) == Some(d)
  {
  }

  /** The characters `urlencode` leaves as they are. */
  predicate IsKeptChar(c: char)
  {
    ('0' <= c <= '9') || ('A' <= c <= 'Z') || ('a' <= c <= 'z') || c == '-' || c == '_' || c == '.'
  }

  /** The characters an encoding is made of. */
  predicate IsEncodedChar(c: char)
  {
    IsKeptChar(c) || c == '+' || c == '%'
  }

  function EncodeByte(b: byte): (r: string)
    ensures 1 <= |r| <= 3
    ensures forall k :: 0 <= k < |r| ==> IsEncodedChar(r[k])
  {
    var c := b as int as char;
    if IsKeptChar(c) then [c]
    else if b == 32 then "+"
    else ['%', HexDigit(b as int / 16), HexDigit(b as int % 16)]
  }

  function EncodeBytes(bs: seq<byte>): (r: string)
    ensures forall k :: 0 <= k < |r| ==> IsEncodedChar(r[k])
  {
    if bs == [] then "" else EncodeByte(bs[0]) + EncodeBytes(bs[1..])
  }

  /** `urlencode($s)`: the encoding of the string's bytes. */
  function UrlEncode(s: string): (r: string)
    ensures forall k :: 0 <= k < |r| ==> IsEncodedChar(r[k])
    ensures '&' !in r && '=' !in r
  {
    var r := EncodeBytes(Utf8.Encode(s));
    assert forall k :: 0 <= k < |r| ==> r[k] != '&' && r[k] != '=';
    r
  }

  function Prepend(b: byte, rest: Option<seq<byte>>): Option<seq<byte>>
  {
    match rest
    case None => None
    case Some(bs) => Some([b] + bs)
  }

  /** `urldecode`: `+` is a space, `%` and two hex digits is that byte, a
      character below 256 is itself; None where a character is not a byte. */
  function DecodeBytes(s: string): Option<seq<byte>>
    decreases |s|
  {
    if s == [] then Some([])
    else if s[0] == '+' then Prepend(32, DecodeBytes(s[1..]))
    else if s[0] == '%' && |s| >= 3 && HexValue(s[1]).Some? && HexValue(s[2]).Some? then
      Prepend((HexValue(s[1]).value * 16 + HexValue(s[2]).value) as byte, DecodeBytes(s[3..]))
    else if (s[0] as int) < 256 then Prepend(s[0] as int as byte, DecodeBytes(s[1..]))
    else None
  }

  lemma DecodeEncodedByte(b: byte, rest: string)
    ensures DecodeBytes(EncodeByte(b) + rest) == Prepend(b, DecodeBytes(rest))
  {
    var s := EncodeByte(b) + rest;
    var c := b as int as char;
    if IsKeptChar(c) {
      assert s[1..] == rest;
    } else if b == 32 {
      assert s[1..] == rest;
    } else {
      HexRoundTrip(b as int / 16);
      HexRoundTrip(b as int % 16);
      assert s[1] == HexDigit(b as int / 16) && s[2] == HexDigit(b as int % 16);
      assert s[3..] == rest;
    }
  }

  /** Decoding an encoding gives the bytes back. */
  lemma {:induction false} DecodeEncode(bs: seq<byte>)
    ensures DecodeBytes(EncodeBytes(bs)) == Some(bs)
  {
    if bs != [] {
      DecodeEncodedByte(bs[0], EncodeBytes(bs[1..]));
      DecodeEncode(bs[1..]);
      assert [bs[0]] + bs[1..] == bs;
    }
  }

  /** A `urlencode`d string decodes to the string's own bytes, and those to
      the string. */
  lemma UrlRoundTrip(s: string)
    ensures DecodeBytes(UrlEncode(s)) == Some(Utf8.Encode(s))
    ensures Utf8.Decode(DecodeBytes(UrlEncode(s)).value) == Some(s)
  {
    DecodeEncode(Utf8.Encode(s));
    Utf8.DecodeEncode(s);
  }

  /** One key and its value as http_build_query writes them. */
  function Pair(key: string, value: string): (r: string)
    ensures '&' !in r
  {
    UrlEncode(key) + "=" + UrlEncode(value)
  }

  /** The `key=value` pieces of a parameter list, skipping null values. */
  function Pieces(params: seq<(string, Option<string>)>): (r: seq<string>)
    ensures |r| <= |params|
    ensures forall k :: 0 <= k < |r| ==> '&' !in r[k]
  {
    if params == [] then []
    else PieceOf(params[0]) + Pieces(params[1..])
  }

  /** The piece of one parameter: none for a null value. */
  function PieceOf(param: (string, Option<string>)): (r: seq<string>)
    ensures |r| <= 1 && forall k :: 0 <= k < |r| ==> '&' !in r[k]
  {
    match param.1
    case None => []
    case Some(v) => [Pair(param.0, v)]
  }

  /** `http_build_query($params)`: the pieces joined with `&`. */
  function BuildQuery(params: seq<(string, Option<string>)>): string
  {
    var pieces := Pieces(params);
    if pieces == [] then "" else PhpStrings.Implode('&', pieces)
  }

  /** Splitting a built query on `&` gives back one piece per non-null
      parameter, in order. */
  lemma QueryPieces(params: seq<(string, Option<string>)>)
    requires Pieces(params) != []
    ensures PhpStrings.Explode('&', BuildQuery(params)) == Pieces(params)
  {
    PhpStrings.ExplodeImplode('&', Pieces(params));
  }

  /** The pieces of two parameter lists one after the other. */
  lemma {:induction false} PiecesAppend(a: seq<(string, Option<string>)>, b: seq<(string, Option<string>)>)
    ensures Pieces(a + b) == Pieces(a) + Pieces(b)
  {
    if a == [] {
      assert a + b == b;
    } else {
      var ab := a + b;
      assert ab[0] == a[0];
      assert ab[1..] == a[1..] + b;
      PiecesAppend(a[1..], b);
      calc {
        Pieces(ab);
        PieceOf(a[0]) + Pieces(a[1..] + b);
        PieceOf(a[0]) + (Pieces(a[1..]) + Pieces(b));
        (PieceOf(a[0]) + Pieces(a[1..])) + Pieces(b);
      }
    }
  }

  /** With every value present there is one piece per parameter, in order. */
  lemma {:induction false} PiecesAllPresent(params: seq<(string, Option<string>)>)
    requires forall k :: 0 <= k < |params| ==> params[k].1.Some?
    ensures |Pieces(params)| == |params|
    ensures forall k :: 0 <= k < |params| ==> Pieces(params)[k] == Pair(params[k].0, params[k].1.value)
  {
    if params != [] {
      PiecesAllPresent(params[1..]);
      var rest := Pieces(params[1..]);
      assert Pieces(params) == [Pair(params[0].0, params[0].1.value)] + rest;
      assert forall k :: 1 <= k < |params| ==> params[k] == params[1..][k - 1];
    }
  }

  /** A parameter whose value is null adds nothing to the query. */
  lemma NullSkipped(params: seq<(string, Option<string>)>, key: string)
    ensures Pieces([(key, None)] + params) == Pieces(params)
  {
    assert ([(key, None)] + params)[1..] == params;
  }

  /** A parameter with a value adds exactly its own piece in front. */
  lemma ValueKept(params: seq<(string, Option<string>)>, key: string, value: string)
    ensures Pieces([(key, Some(value))] + params) == [Pair(key, value)] + Pieces(params)
  {
    assert ([(key, Some(value))] + params)[1..] == params;
  }
}
