/** PHP's `explode` and `implode` on a one-character separator. */
module PhpStrings {

  /** `implode($sep, $parts)`. */
  function Implode(sep: char, parts: seq<string>): string
    requires |parts| >= 1
  {
    if |parts| == 1 then parts[0] else parts[0] + [sep] + Implode(sep, parts[1..])
  }

  /** `explode($sep, $s)`: the pieces between the separators, including an
      empty piece before a leading, after a trailing and between two
      adjacent separators. */
  function Explode(sep: char, s: string): (parts: seq<string>)
    ensures |parts| >= 1
  {
    if s == [] then [""]
    else
      var rest := Explode(sep, s[1..]);
      if s[0] == sep then [""] + rest else [[s[0]] + rest[0]] + rest[1..]
  }

  /** Extending the first piece by one character extends the joined text. */
  lemma ImplodeExtendFirst(sep: char, c: char, rest: seq<string>)
    requires |rest| >= 1
    ensures Implode(sep, [[c] + rest[0]] + rest[1..]) == [c] + Implode(sep, rest)
  {
    var parts := [[c] + rest[0]] + rest[1..];
    assert parts[1..] == rest[1..];
  }

  /** Gluing a prefix to the first piece puts it in front of the joined text. */
  lemma ImplodePrefixFirst(sep: char, pre: string, parts: seq<string>)
    requires |parts| >= 1
    ensures Implode(sep, [pre + parts[0]] + parts[1..]) == pre + Implode(sep, parts)
  {
    var glued := [pre + parts[0]] + parts[1..];
    assert glued[1..] == parts[1..];
  }

  /** One more piece than there are separators. */
  lemma {:induction false} ExplodeCount(sep: char, s: string)
    ensures |Explode(sep, s)| == multiset(s)[sep] + 1
  {
    if s != [] {
      ExplodeCount(sep, s[1..]);
      assert s == [s[0]] + s[1..];
      assert multiset(s) == multiset([s[0]]) + multiset(s[1..]);
    }
  }

  /** No piece holds the separator. */
  lemma {:induction false} ExplodePiecesFree(sep: char, s: string)
    ensures forall k :: 0 <= k < |Explode(sep, s)| ==> sep !in Explode(sep, s)[k]
  {
    if s != [] {
      var rest := Explode(sep, s[1..]);
      ExplodePiecesFree(sep, s[1..]);
      if s[0] == sep {
        assert forall k :: 1 <= k < |rest| + 1 ==> ([""] + rest)[k] == rest[k - 1];
      } else {
        var parts := [[s[0]] + rest[0]] + rest[1..];
        assert forall k :: 1 <= k < |parts| ==> parts[k] == rest[k];
      }
    }
  }

  /** Imploding the pieces gives the text back. */
  lemma {:induction false} ExplodeRejoin(sep: char, s: string)
    ensures Implode(sep, Explode(sep, s)) == s
  {
    if s != [] {
      var rest := Explode(sep, s[1..]);
      ExplodeRejoin(sep, s[1..]);
      assert s == [s[0]] + s[1..];
      if s[0] == sep {
        assert ([""] + rest)[1..] == rest;
      } else {
        ImplodeExtendFirst(sep, s[0], rest);
      }
    }
  }

  /** The three together: `explode` cuts the text at each separator and
      loses nothing else. */
  lemma ExplodeShape(sep: char, s: string)
    ensures |Explode(sep, s)| == multiset(s)[sep] + 1
    ensures forall k :: 0 <= k < |Explode(sep, s)| ==> sep !in Explode(sep, s)[k]
    ensures Implode(sep, Explode(sep, s)) == s
  {
    ExplodeCount(sep, s);
    ExplodePiecesFree(sep, s);
    ExplodeRejoin(sep, s);
  }

  lemma {:induction false} ExplodeFree(sep: char, p: string)
    requires sep !in p
    ensures Explode(sep, p) == [p]
  {
    if p != [] {
      ExplodeFree(sep, p[1..]);
      assert [p[0]] + p[1..] == p;
    }
  }

  lemma {:induction false} ExplodeAfterPiece(sep: char, p: string, t: string)
    requires sep !in p
    ensures Explode(sep, p + [sep] + t) == [p] + Explode(sep, t)
  {
    if p == [] {
      assert p + [sep] + t == [sep] + t;
      assert ([sep] + t)[1..] == t;
    } else {
      var s := p + [sep] + t;
      assert s[1..] == p[1..] + [sep] + t;
      ExplodeAfterPiece(sep, p[1..], t);
      assert [p[0]] + p[1..] == p;
    }
  }

  /** Exploding an imploded list of separator-free pieces gives the list back. */
  lemma {:induction false} ExplodeImplode(sep: char, parts: seq<string>)
    requires |parts| >= 1
    requires forall k :: 0 <= k < |parts| ==> sep !in parts[k]
    ensures Explode(sep, Implode(sep, parts)) == parts
  {
    if |parts| == 1 {
      ExplodeFree(sep, parts[0]);
    } else {
      ExplodeImplode(sep, parts[1..]);
      ExplodeAfterPiece(sep, parts[0], Implode(sep, parts[1..]));
      assert [parts[0]] + parts[1..] == parts;
    }
  }

  lemma {:induction false} ImplodeSnoc(sep: char, parts: seq<string>, last: string)
    requires |parts| >= 1
    ensures Implode(sep, parts + [last]) == Implode(sep, parts) + [sep] + last
  {
    var all := parts + [last];
    if |parts| == 1 {
      assert all[1..] == [last];
    } else {
      assert all[1..] == parts[1..] + [last];
      ImplodeSnoc(sep, parts[1..], last);
    }
  }

  /** Appending a separator and a separator-free piece to an imploded list
      adds that piece at the end of its explosion. */
  lemma ExplodeAppended(sep: char, parts: seq<string>, last: string)
    requires |parts| >= 1
    requires forall k :: 0 <= k < |parts| ==> sep !in parts[k]
    requires sep !in last
    ensures Explode(sep, Implode(sep, parts) + [sep] + last) == parts + [last]
  {
    var all := parts + [last];
    ImplodeSnoc(sep, parts, last);
    assert forall k :: 0 <= k < |all| ==> sep !in all[k] by {
      forall k | 0 <= k < |all| ensures sep !in all[k] {
        if k < |parts| { assert all[k] == parts[k]; }
      }
    }
    ExplodeImplode(sep, all);
  }
}
