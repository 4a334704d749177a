/** The PHP runtime values that the client code inspects: optional values,
    exceptions, scalars with PHP's truthiness, string-keyed arrays merged with
    `array_merge`, and the decimal text of an integer. */
module PhpValues {

  datatype Option<+T> = None | Some(value: T)

  datatype Result<+T, +E> = Ok(value: T) | Err(error: E)

  /** A thrown `\Exception`: its message and its code. */
  datatype Exception = Exception(message: string, code: int)

  /** The scalar values that reach the code: JSON scalars, header and option
      values, query parameters. `Null` also stands for a missing key or
      property, which PHP reads as null. */
  datatype Scalar = Null | Bool(b: bool) | Int(i: int) | Str(s: string)

  /** `empty($s)` for a string: only "" and "0" are empty. */
  predicate EmptyString(s: string)
  {
    s == "" || s == "0"
  }

  /** PHP's conversion of a scalar to boolean (an `if` on it). */
  predicate Truthy(v: Scalar)
  {
    match v
    case Null => false
    case Bool(b) => b
    case Int(i) => i != 0
    case Str(s) => !EmptyString(s)
  }

  /** The falsy scalars are exactly null, false, 0, "" and "0". */
  lemma FalsyValues(v: Scalar)
    ensures !Truthy(v) <==> v in {Null, Bool(false), Int(0), Str(""), Str("0")}
  {
  }

  /** `array_merge($base, $extra)` on arrays keyed by non-numeric strings: a
      key of `extra` overrides, every other key of `base` keeps its value. */
  function ArrayMerge<V>(base: map<string, V>, extra: map<string, V>): (r: map<string, V>)
    ensures r.Keys == base.Keys + extra.Keys
    ensures forall k :: k in extra ==> r[k] == extra[k]
    ensures forall k :: k in base && k !in extra ==> r[k] == base[k]
  {
    base + extra
  }

  /** Merging the same array a second time changes nothing. */
  lemma MergeIdempotent<V>(base: map<string, V>, extra: map<string, V>)
    ensures ArrayMerge(ArrayMerge(base, extra), extra) == ArrayMerge(base, extra)
  {
    var once := ArrayMerge(base, extra);
    var twice := ArrayMerge(once, extra);
    assert twice.Keys == once.Keys;
    forall k | k in once ensures twice[k] == once[k] {
      if k in extra {
        assert twice[k] == extra[k] == once[k];
      }
    }
  }

  function DigitChar(d: nat): (c: char)
    requires d < 10
    ensures '0' <= c <= '9'
  {
    ('0' as int + d) as char
  }

  predicate IsDigit(c: char)
  {
    '0' <= c <= '9'
  }

  /** The decimal text of a natural number, most significant digit first. */
  function NatToString(n: nat): (r: string)
    ensures |r| >= 1
    ensures forall k :: 0 <= k < |r| ==> IsDigit(r[k])
  {
    if n < 10 then [DigitChar(n)] else NatToString(n / 10) + [DigitChar(n % 10)]
  }

  /** The string an integer becomes when PHP concatenates it. */
  function IntToString(i: int): string
  {
    if i < 0 then "-" + NatToString(-i) else NatToString(i)
  }

  /** The value of a string of decimal digits; the reference against which
      `NatToString` is checked. */
  function DecimalValue(s: string): int
  {
    if s == [] then 0 else DecimalValue(s[..|s| - 1]) * 10 + (s[|s| - 1] as int - '0' as int)
  }

  /** The decimal text of a natural number reads back as that number. */
  lemma {:induction false} DecimalRoundTrip(n: nat)
    ensures DecimalValue(NatToString(n)) == n
  {
    if n >= 10 {
      var prefix := NatToString(n / 10);
      var s := prefix + [DigitChar(n % 10)];
      assert s[..|s| - 1] == prefix;
      DecimalRoundTrip(n / 10);
    }
  }
}
