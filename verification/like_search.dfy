/**
 Literal text search: the user's query is escaped and matched with LIKE between two
 wildcards, the backslash being the escape character. Letters are compared after folding.
 */
module LikeSearch {

  type Folding = char -> char

  /** Every occurrence of one character replaced by a string. */
  function ReplaceAll(s: string, c: char, with: string): string {
    if s == "" then "" else (if s[0] == c then with else [s[0]]) + ReplaceAll(s[1..], c, with)
  }

  function EscapeLikePattern(value: string): string {
    ReplaceAll(ReplaceAll(ReplaceAll(value, '\\', "\\\\"), '%', "\\%"), '_', "\\_")
  }

  predicate IsMeta(c: char) {
    c == '\\' || c == '%' || c == '_'
  }

  /** The escape in one pass: a backslash before each special character. */
  function Escaped(value: string): string {
    if value == "" then ""
    else (if IsMeta(value[0]) then ['\\', value[0]] else [value[0]]) + Escaped(value[1..])
  }

  function Unescaped(s: string): string {
    if s == "" then ""
    else if s[0] == '\\' && |s| > 1 then [s[1]] + Unescaped(s[2..])
    else [s[0]] + Unescaped(s[1..])
  }

  lemma {:induction false} ReplaceAllConcat(a: string, b: string, c: char, with: string)
    ensures ReplaceAll(a + b, c, with) == ReplaceAll(a, c, with) + ReplaceAll(b, c, with)
    decreases |a|
  {
    if a == "" {
      assert a + b == b;
    } else {
      assert (a + b)[1..] == a[1..] + b;
      ReplaceAllConcat(a[1..], b, c, with);
    }
  }

  lemma ReplaceInOne(x: char, c: char, with: string)
    ensures ReplaceAll([x], c, with) == if x == c then with else [x]
  {
    assert [x][1..] == "" && with + "" == with && [x] + "" == [x];
  }

  lemma ReplaceInTwo(x: char, y: char, c: char, with: string)
    requires x != c && y != c
    ensures ReplaceAll([x, y], c, with) == [x, y]
  {
    assert [x, y] == [x] + [y];
    ReplaceAllConcat([x], [y], c, with);
    ReplaceInOne(x, c, with);
    ReplaceInOne(y, c, with);
  }

  lemma EscapeChar(c: char)
    ensures EscapeLikePattern([c]) == Escaped([c])
  {
    assert [c][1..] == "" && Escaped([c]) == if IsMeta(c) then ['\\', c] else [c];
    ReplaceInOne(c, '\\', "\\\\");
    ReplaceInOne(c, '%', "\\%");
    ReplaceInOne(c, '_', "\\_");
    ReplaceInTwo('\\', '\\', '%', "\\%");
    ReplaceInTwo('\\', '\\', '_', "\\_");
    ReplaceInTwo('\\', '%', '_', "\\_");
    assert "\\\\" == ['\\', '\\'] && "\\%" == ['\\', '%'] && "\\_" == ['\\', '_'];
  }

  /** The three successive replacements are the one-pass escape: none of them touches what another put in. */
  lemma {:induction false} EscapeIsOnePass(value: string)
    ensures EscapeLikePattern(value) == Escaped(value)
    decreases |value|
  {
    if value != "" {
      var head, tail := [value[0]], value[1..];
      assert value == head + tail;
      ReplaceAllConcat(head, tail, '\\', "\\\\");
      var h1, t1 := ReplaceAll(head, '\\', "\\\\"), ReplaceAll(tail, '\\', "\\\\");
      ReplaceAllConcat(h1, t1, '%', "\\%");
      ReplaceAllConcat(ReplaceAll(h1, '%', "\\%"), ReplaceAll(t1, '%', "\\%"), '_', "\\_");
      EscapeChar(value[0]);
      EscapeIsOnePass(tail);
      assert head[1..] == "";
    }
  }

  /** Removing the escapes gives the query back. */
  lemma {:induction false} UnescapeRecovers(value: string)
    ensures Unescaped(Escaped(value)) == value
    decreases |value|
  {
    if value != "" {
      UnescapeRecovers(value[1..]);
      if IsMeta(value[0]) {
        assert Escaped(value)[2..] == Escaped(value[1..]);
      } else {
        assert Escaped(value)[1..] == Escaped(value[1..]);
      }
    }
  }

  // ------------------------------------------------------------------
  // LIKE
  // ------------------------------------------------------------------

  /** A pattern that ends in a lone escape character is an error and matches nothing. */
  ghost predicate Like(fold: Folding, pattern: string, s: string)
    decreases |pattern|
  {
    if pattern == "" then s == ""
    else if pattern[0] == '%' then exists k :: 0 <= k <= |s| && Like(fold, pattern[1..], s[k..])
    else if pattern[0] == '_' then s != "" && Like(fold, pattern[1..], s[1..])
    else if pattern[0] == '\\' then
      |pattern| > 1 && s != "" && fold(s[0]) == fold(pattern[1]) && Like(fold, pattern[2..], s[1..])
    else s != "" && fold(s[0]) == fold(pattern[0]) && Like(fold, pattern[1..], s[1..])
  }

  /** q stands at position i of s. */
  ghost predicate OccursAt(fold: Folding, q: string, s: string, i: nat) {
    i + |q| <= |s| && forall k :: 0 <= k < |q| ==> fold(s[i + k]) == fold(q[k])
  }

  ghost predicate Contains(fold: Folding, q: string, s: string) {
    exists i: nat :: OccursAt(fold, q, s, i)
  }

  lemma AnythingMatches(fold: Folding, s: string)
    ensures Like(fold, "%", s)
  {
    assert "%"[1..] == "";
    assert Like(fold, "", s[|s|..]);
  }

  /** An escaped query followed by a wildcard matches the strings that begin with the query. */
  lemma {:induction false} EscapedMatchesPrefix(fold: Folding, q: string, s: string)
    ensures Like(fold, Escaped(q) + "%", s) <==> OccursAt(fold, q, s, 0)
    decreases |q|
  {
    var pattern := Escaped(q) + "%";
    if q == "" {
      assert pattern == "%";
      AnythingMatches(fold, s);
    } else {
      var rest := Escaped(q[1..]) + "%";
      if IsMeta(q[0]) {
        assert pattern == ['\\', q[0]] + rest;
        assert pattern[2..] == rest;
      } else {
        assert pattern == [q[0]] + rest;
        assert pattern[1..] == rest;
      }
      if s != "" {
        EscapedMatchesPrefix(fold, q[1..], s[1..]);
        TailOccurs(fold, q, s);
      }
    }
  }

  lemma TailOccurs(fold: Folding, q: string, s: string)
    requires q != "" && s != ""
    ensures OccursAt(fold, q, s, 0) <==> fold(s[0]) == fold(q[0]) && OccursAt(fold, q[1..], s[1..], 0)
  {
    if fold(s[0]) == fold(q[0]) && OccursAt(fold, q[1..], s[1..], 0) {
      forall k | 0 <= k < |q| ensures fold(s[0 + k]) == fold(q[k]) {
        if k > 0 { assert fold(s[1..][0 + (k - 1)]) == fold(q[1..][k - 1]); }
      }
    }
    if OccursAt(fold, q, s, 0) {
      assert fold(s[0 + 0]) == fold(q[0]);
      forall k | 0 <= k < |q[1..]| ensures fold(s[1..][0 + k]) == fold(q[1..][k]) {
        assert fold(s[0 + (k + 1)]) == fold(q[k + 1]);
      }
    }
  }

  /** For every query and every text, the search matches exactly when the query is a substring of the text. */
  lemma SearchIsLiteral(fold: Folding, q: string, s: string)
    ensures Like(fold, "%" + EscapeLikePattern(q) + "%", s) <==> Contains(fold, q, s)
  {
    EscapeIsOnePass(q);
    var pattern := "%" + Escaped(q) + "%";
    assert pattern[1..] == Escaped(q) + "%";
    forall k | 0 <= k <= |s| ensures Like(fold, pattern[1..], s[k..]) <==> OccursAt(fold, q, s, k) {
      EscapedMatchesPrefix(fold, q, s[k..]);
      ShiftOccurs(fold, q, s, k);
    }
    assert forall i: nat :: OccursAt(fold, q, s, i) ==> i <= |s|;
  }

  lemma ShiftOccurs(fold: Folding, q: string, s: string, i: nat)
    requires i <= |s|
    ensures OccursAt(fold, q, s[i..], 0) <==> OccursAt(fold, q, s, i)
  {
    if OccursAt(fold, q, s, i) {
      forall k | 0 <= k < |q| ensures fold(s[i..][0 + k]) == fold(q[k]) {
        assert fold(s[i + k]) == fold(q[k]);
      }
    }
    if OccursAt(fold, q, s[i..], 0) {
      forall k | 0 <= k < |q| ensures fold(s[i + k]) == fold(q[k]) {
        assert fold(s[i..][0 + k]) == fold(q[k]);
      }
    }
  }
}
