/** The fragment of PCRE used by the reason patterns of the cPanel client,
    with `preg_match`'s unanchored search.

    A pattern is a sequence of tokens: a literal, `.` (any one character but
    a line feed) or `(.*)` (any run of such characters; the capture is never
    read). The patterns have no anchors and no flags, so `.` never matches a
    line feed. */
module Pattern {

  datatype Token = Lit(text: string) | AnyChar | AnyRun

  /** The literal `t` occurs in `s` at position `i`. */
  predicate LitAt(s: string, t: string, i: nat)
  {
    i + |t| <= |s| && s[i..i + |t|] == t
  }

  predicate NoLineFeed(s: string)
  {
    forall k :: 0 <= k < |s| ==> s[k] != '\n'
  }

  /** The pattern `p` matches a prefix of `s[i..]`. */
  predicate MatchFrom(p: seq<Token>, s: string, i: nat)
    requires i <= |s|
    decreases |p|, 0, 0
  {
    if p == [] then true
    else match p[0]
      case Lit(t) => LitAt(s, t, i) && MatchFrom(p[1..], s, i + |t|)
      case AnyChar => i < |s| && s[i] != '\n' && MatchFrom(p[1..], s, i + 1)
      case AnyRun => RunFrom(p[1..], s, i)
  }

  /** `(.*)` followed by `rest` matches a prefix of `s[j..]`: either the run
      stops here or it takes `s[j]` and goes on. */
  predicate RunFrom(rest: seq<Token>, s: string, j: nat)
    requires j <= |s|
    decreases |rest|, 1, |s| - j
  {
    MatchFrom(rest, s, j) || (j < |s| && s[j] != '\n' && RunFrom(rest, s, j + 1))
  }

  /** Some start position at or after `i` matches. */
  predicate SearchFrom(p: seq<Token>, s: string, i: nat)
    requires i <= |s|
    decreases |s| - i
  {
    MatchFrom(p, s, i) || (i < |s| && SearchFrom(p, s, i + 1))
  }

  /** `preg_match($p, $s)` is 1. */
  predicate Matches(p: seq<Token>, s: string)
  {
    SearchFrom(p, s, 0)
  }

  // ---------------------------------------------------------------------
  // Declarative readings of the pattern shapes the client uses.

  /** `t` is a substring of `s`. */
  ghost predicate Contains(s: string, t: string)
  {
    exists i: nat :: LitAt(s, t, i)
  }

  /** `t` occurs in `s` and is followed by one more character that is not a
      line feed. */
  ghost predicate ContainsThenChar(s: string, t: string)
  {
    exists i: nat :: LitAt(s, t, i) && i + |t| < |s| && s[i + |t|] != '\n'
  }

  /** `a` occurs, later `b` occurs, with no line feed between them; when
      `tail` holds, one more character that is not a line feed follows `b`. */
  ghost predicate InOrder(s: string, a: string, b: string, tail: bool)
  {
    exists i: nat, j: nat ::
      LitAt(s, a, i) && LitAt(s, b, j) && i + |a| <= j && NoLineFeed(s[i + |a|..j]) &&
      (tail ==> j + |b| < |s| && s[j + |b|] != '\n')
  }

  // ---------------------------------------------------------------------
  // The search and the run, stated with explicit positions.

  lemma {:induction false} SearchWitness(p: seq<Token>, s: string, i: nat)
    requires i <= |s|
    ensures SearchFrom(p, s, i) ==> exists k :: i <= k <= |s| && MatchFrom(p, s, k)
    ensures (exists k :: i <= k <= |s| && MatchFrom(p, s, k)) ==> SearchFrom(p, s, i)
    decreases |s| - i
  {
    if i < |s| {
      SearchWitness(p, s, i + 1);
    }
  }

  lemma {:induction false} RunWitness(rest: seq<Token>, s: string, j: nat)
    requires j <= |s|
    ensures RunFrom(rest, s, j) <==> exists m :: j <= m <= |s| && NoLineFeed(s[j..m]) && MatchFrom(rest, s, m)
    decreases |s| - j
  {
    if j < |s| {
      RunWitness(rest, s, j + 1);
      if RunFrom(rest, s, j) {
        if MatchFrom(rest, s, j) {
          assert NoLineFeed(s[j..j]);
        } else {
          var m :| j + 1 <= m <= |s| && NoLineFeed(s[j + 1..m]) && MatchFrom(rest, s, m);
          forall k | 0 <= k < m - j ensures s[j..m][k] != '\n' {
            if k > 0 {
              assert s[j..m][k] == s[j + 1..m][k - 1];
            }
          }
          assert NoLineFeed(s[j..m]);
        }
      }
      if exists m :: j <= m <= |s| && NoLineFeed(s[j..m]) && MatchFrom(rest, s, m) {
        var m :| j <= m <= |s| && NoLineFeed(s[j..m]) && MatchFrom(rest, s, m);
        if m > j {
          assert s[j..m][0] == s[j];
          var tail := s[j + 1..m];
          forall k | 0 <= k < |tail| ensures tail[k] != '\n' {
            assert tail[k] == s[j..m][k + 1];
          }
          assert NoLineFeed(s[j + 1..m]);
        }
      }
    } else {
      if exists m :: j <= m <= |s| && NoLineFeed(s[j..m]) && MatchFrom(rest, s, m) {
        var m :| j <= m <= |s| && NoLineFeed(s[j..m]) && MatchFrom(rest, s, m);
        assert m == j;
      }
    }
  }

  // One step of matching, for each kind of token.

  lemma MatchLit(t: string, rest: seq<Token>, s: string, i: nat)
    requires i <= |s|
    ensures MatchFrom([Lit(t)] + rest, s, i) <==> LitAt(s, t, i) && MatchFrom(rest, s, i + |t|)
  {
    assert ([Lit(t)] + rest)[1..] == rest;
  }

  lemma MatchChar(rest: seq<Token>, s: string, i: nat)
    requires i <= |s|
    ensures MatchFrom([AnyChar] + rest, s, i) <==> i < |s| && s[i] != '\n' && MatchFrom(rest, s, i + 1)
  {
    assert ([AnyChar] + rest)[1..] == rest;
  }

  lemma MatchRun(rest: seq<Token>, s: string, i: nat)
    requires i <= |s|
    ensures MatchFrom([AnyRun] + rest, s, i) <==>
      exists m :: i <= m <= |s| && NoLineFeed(s[i..m]) && MatchFrom(rest, s, m)
  {
    assert ([AnyRun] + rest)[1..] == rest;
    RunWitness(rest, s, i);
  }

  /** A pattern that starts with `(.*)` matches somewhere exactly when the
      rest of it does: the run may be empty, and its start can be moved. */
  lemma LeadingRun(rest: seq<Token>, s: string)
    ensures Matches([AnyRun] + rest, s) <==> Matches(rest, s)
  {
    var p := [AnyRun] + rest;
    SearchWitness(p, s, 0);
    SearchWitness(rest, s, 0);
    if Matches(p, s) {
      var k :| 0 <= k <= |s| && MatchFrom(p, s, k);
      MatchRun(rest, s, k);
      var m :| k <= m <= |s| && NoLineFeed(s[k..m]) && MatchFrom(rest, s, m);
      assert 0 <= m <= |s| && MatchFrom(rest, s, m);
    }
    if Matches(rest, s) {
      var k :| 0 <= k <= |s| && MatchFrom(rest, s, k);
      MatchRun(rest, s, k);
      assert NoLineFeed(s[k..k]);
      assert MatchFrom(p, s, k);
    }
  }

  /** A trailing `(.*)` matches the empty run at any position. */
  lemma TrailingRun(s: string, i: nat)
    requires i <= |s|
    ensures MatchFrom([AnyRun], s, i)
  {
    assert [AnyRun] == [AnyRun] + [];
    MatchRun([], s, i);
    assert NoLineFeed(s[i..i]) && MatchFrom([], s, i);
  }

  // ---------------------------------------------------------------------
  // The shapes, one lemma each.

  /** `(.*) LIT (.*)` and `LIT (.*)`: the literal occurs somewhere. */
  lemma LiteralShape(t: string, s: string)
    ensures Matches([AnyRun, Lit(t), AnyRun], s) <==> Contains(s, t)
    ensures Matches([Lit(t), AnyRun], s) <==> Contains(s, t)
  {
    var core := [Lit(t)] + [AnyRun];
    assert [AnyRun, Lit(t), AnyRun] == [AnyRun] + core;
    assert [Lit(t), AnyRun] == core;
    LeadingRun(core, s);
    SearchWitness(core, s, 0);
    if Matches(core, s) {
      var k :| 0 <= k <= |s| && MatchFrom(core, s, k);
      MatchLit(t, [AnyRun], s, k);
      assert LitAt(s, t, k);
    }
    if Contains(s, t) {
      var i: nat :| LitAt(s, t, i);
      TrailingRun(s, i + |t|);
      MatchLit(t, [AnyRun], s, i);
      assert MatchFrom(core, s, i);
    }
  }

  /** `(.*) LIT.`: the literal occurs and one more character follows it. */
  lemma LiteralThenCharShape(t: string, s: string)
    ensures Matches([AnyRun, Lit(t), AnyChar], s) <==> ContainsThenChar(s, t)
  {
    var core := [Lit(t)] + ([AnyChar] + []);
    assert [AnyRun, Lit(t), AnyChar] == [AnyRun] + core;
    LeadingRun(core, s);
    SearchWitness(core, s, 0);
    if Matches(core, s) {
      var k :| 0 <= k <= |s| && MatchFrom(core, s, k);
      MatchLit(t, [AnyChar] + [], s, k);
      MatchChar([], s, k + |t|);
      assert LitAt(s, t, k) && k + |t| < |s| && s[k + |t|] != '\n';
    }
    if ContainsThenChar(s, t) {
      var i: nat :| LitAt(s, t, i) && i + |t| < |s| && s[i + |t|] != '\n';
      MatchLit(t, [AnyChar] + [], s, i);
      MatchChar([], s, i + |t|);
      assert MatchFrom(core, s, i);
    }
  }

  /** The condition that `after` puts on the position right after `B`. */
  predicate AfterOk(s: string, k: nat, tail: bool)
  {
    tail ==> k < |s| && s[k] != '\n'
  }

  lemma GapCoreSound(a: string, b: string, after: seq<Token>, tail: bool, s: string)
    requires forall k: nat :: k <= |s| && MatchFrom(after, s, k) ==> AfterOk(s, k, tail)
    ensures Matches([Lit(a)] + ([AnyRun] + ([Lit(b)] + after)), s) ==> InOrder(s, a, b, tail)
  {
    var fromB := [Lit(b)] + after;
    var fromRun := [AnyRun] + fromB;
    var core := [Lit(a)] + fromRun;
    SearchWitness(core, s, 0);
    if Matches(core, s) {
      var i :| 0 <= i <= |s| && MatchFrom(core, s, i);
      MatchLit(a, fromRun, s, i);
      MatchRun(fromB, s, i + |a|);
      var j :| i + |a| <= j <= |s| && NoLineFeed(s[i + |a|..j]) && MatchFrom(fromB, s, j);
      MatchLit(b, after, s, j);
      assert AfterOk(s, j + |b|, tail);
      assert LitAt(s, a, i) && LitAt(s, b, j);
    }
  }

  /** `A (.*) B after` matches at `i` when `a` sits at `i`, `b` at `j` after
      it on the same line, and `after` matches right after `b`. */
  lemma GapAt(a: string, b: string, after: seq<Token>, s: string, i: nat, j: nat)
    requires LitAt(s, a, i) && LitAt(s, b, j) && i + |a| <= j && NoLineFeed(s[i + |a|..j])
    requires MatchFrom(after, s, j + |b|)
    ensures MatchFrom([Lit(a)] + ([AnyRun] + ([Lit(b)] + after)), s, i)
  {
    var fromB := [Lit(b)] + after;
    var fromRun := [AnyRun] + fromB;
    MatchLit(b, after, s, j);
    MatchRun(fromB, s, i + |a|);
    MatchLit(a, fromRun, s, i);
  }

  lemma GapCoreComplete(a: string, b: string, after: seq<Token>, tail: bool, s: string)
    requires forall k: nat :: k <= |s| && AfterOk(s, k, tail) ==> MatchFrom(after, s, k)
    ensures InOrder(s, a, b, tail) ==> Matches([Lit(a)] + ([AnyRun] + ([Lit(b)] + after)), s)
  {
    if InOrder(s, a, b, tail) {
      var i: nat, j: nat :| LitAt(s, a, i) && LitAt(s, b, j) && i + |a| <= j && NoLineFeed(s[i + |a|..j]) &&
        (tail ==> j + |b| < |s| && s[j + |b|] != '\n');
      assert AfterOk(s, j + |b|, tail);
      GapAt(a, b, after, s, i, j);
      SearchWitness([Lit(a)] + ([AnyRun] + ([Lit(b)] + after)), s, 0);
    }
  }

  /** `(.*) A (.*) B (.*)` and `A (.*) B`: `a`, then `b` on the same line. */
  lemma TwoLiteralShape(a: string, b: string, s: string)
    ensures Matches([AnyRun, Lit(a), AnyRun, Lit(b), AnyRun], s) <==> InOrder(s, a, b, false)
    ensures Matches([Lit(a), AnyRun, Lit(b)], s) <==> InOrder(s, a, b, false)
  {
    GapCoreSound(a, b, [], false, s);
    GapCoreComplete(a, b, [], false, s);
    assert [Lit(a), AnyRun, Lit(b)] == [Lit(a)] + ([AnyRun] + ([Lit(b)] + []));
    forall k: nat | k <= |s| ensures MatchFrom([AnyRun], s, k) {
      TrailingRun(s, k);
    }
    GapCoreSound(a, b, [AnyRun], false, s);
    GapCoreComplete(a, b, [AnyRun], false, s);
    var core := [Lit(a)] + ([AnyRun] + ([Lit(b)] + [AnyRun]));
    assert [AnyRun, Lit(a), AnyRun, Lit(b), AnyRun] == [AnyRun] + core;
    LeadingRun(core, s);
  }

  /** `(.*) A (.*) B.`: `a`, then `b` on the same line and one more character. */
  lemma TwoLiteralThenCharShape(a: string, b: string, s: string)
    ensures Matches([AnyRun, Lit(a), AnyRun, Lit(b), AnyChar], s) <==> InOrder(s, a, b, true)
  {
    forall k: nat | k <= |s| ensures MatchFrom([AnyChar], s, k) <==> k < |s| && s[k] != '\n' {
      assert [AnyChar] == [AnyChar] + [];
      MatchChar([], s, k);
    }
    GapCoreSound(a, b, [AnyChar], true, s);
    GapCoreComplete(a, b, [AnyChar], true, s);
    var core := [Lit(a)] + ([AnyRun] + ([Lit(b)] + [AnyChar]));
    assert [AnyRun, Lit(a), AnyRun, Lit(b), AnyChar] == [AnyRun] + core;
    LeadingRun(core, s);
  }

  /** A literal placed between two strings occurs right after the first. */
  lemma LitAfter(pre: string, t: string, rest: string)
    ensures LitAt(pre + t + rest, t, |pre|)
  {
    assert (pre + t + rest)[|pre|..|pre| + |t|] == t;
  }

  // ---------------------------------------------------------------------
  // Ruling a literal out: a character it needs is nowhere in the text.

  lemma AbsentCharAt(s: string, t: string, c: char, i: nat)
    requires c in t && c !in s
    ensures !LitAt(s, t, i)
  {
  }

  lemma AbsentChar(s: string, t: string, c: char)
    requires c in t && c !in s
    ensures !Contains(s, t) && !ContainsThenChar(s, t)
  {
    forall i: nat ensures !LitAt(s, t, i) {
      AbsentCharAt(s, t, c, i);
    }
  }

  lemma AbsentCharInOrder(s: string, a: string, b: string, tail: bool, c: char)
    requires (c in a || c in b) && c !in s
    ensures !InOrder(s, a, b, tail)
  {
    forall i: nat ensures (c in a ==> !LitAt(s, a, i)) && (c in b ==> !LitAt(s, b, i)) {
      if c in a { AbsentCharAt(s, a, c, i); }
      if c in b { AbsentCharAt(s, b, c, i); }
    }
  }
}
