/** The grid-name pattern language of the `list` command. A token is turned
    into an anchored regular expression by escaping every character and then
    re-opening `?` as "any one character" and `*` as "any run of characters";
    every other character, regular-expression metacharacters included, stands
    for itself. The matcher below states those semantics directly. */
module Glob {

  predicate IsWildcard(c: char)
  {
    c == '*' || c == '?'
  }

  predicate NoWildcards(p: string)
  {
    forall i :: 0 <= i < |p| ==> !IsWildcard(p[i])
  }

  /** Number of `*` in a pattern: the only pattern characters that may
      consume no input. */
  function Stars(p: string): nat
  {
    if |p| == 0 then 0 else (if p[0] == '*' then 1 else 0) + Stars(p[1..])
  }

  /** Does the whole of `s` match `pattern`? */
  function GlobMatch(pattern: string, s: string): bool
    decreases |pattern| + |s|
  {
    if |pattern| == 0 then |s| == 0
    else if pattern[0] == '*' then
      GlobMatch(pattern[1..], s) || (|s| > 0 && GlobMatch(pattern, s[1..]))
    else if pattern[0] == '?' then
      |s| > 0 && GlobMatch(pattern[1..], s[1..])
    else
      |s| > 0 && s[0] == pattern[0] && GlobMatch(pattern[1..], s[1..])
  }

  /** Reference semantics, by structure of the pattern alone: a `*` stands
      for some prefix of the text, of any length. */
  ghost predicate GlobSpec(pattern: string, s: string)
    decreases |pattern|
  {
    if |pattern| == 0 then |s| == 0
    else if pattern[0] == '*' then
      exists k :: 0 <= k <= |s| && GlobSpec(pattern[1..], s[k..])
    else if pattern[0] == '?' then
      |s| > 0 && GlobSpec(pattern[1..], s[1..])
    else
      |s| > 0 && s[0] == pattern[0] && GlobSpec(pattern[1..], s[1..])
  }

  /** The matcher decides exactly the reference semantics. */
  lemma {:induction false} GlobMatchIsGlobSpec(pattern: string, s: string)
    ensures GlobMatch(pattern, s) <==> GlobSpec(pattern, s)
    decreases |pattern| + |s|
  {
    if |pattern| == 0 {
    } else if pattern[0] == '*' {
      var rest := pattern[1..];
      GlobMatchIsGlobSpec(rest, s);
      if |s| > 0 {
        GlobMatchIsGlobSpec(pattern, s[1..]);
      }
      if GlobMatch(pattern, s) {
        if GlobMatch(rest, s) {
          assert s[0..] == s;
          assert GlobSpec(rest, s[0..]);
        } else {
          var k :| 0 <= k <= |s| - 1 && GlobSpec(rest, s[1..][k..]);
          assert s[1..][k..] == s[k + 1..];
          assert GlobSpec(rest, s[k + 1..]);
        }
      }
      if GlobSpec(pattern, s) {
        var k :| 0 <= k <= |s| && GlobSpec(rest, s[k..]);
        if k == 0 {
          assert s[k..] == s;
        } else {
          assert s[1..][k - 1..] == s[k..];
          assert GlobSpec(pattern, s[1..]);
        }
      }
    } else {
      if |s| > 0 {
        GlobMatchIsGlobSpec(pattern[1..], s[1..]);
      }
    }
  }

  /** A token without wildcards matches only the identical text: `.` and
      every other character are literal, and the match is anchored at both
      ends. */
  lemma {:induction false} LiteralPatternMatchesOnlyItself(pattern: string, s: string)
    requires NoWildcards(pattern)
    ensures GlobMatch(pattern, s) <==> pattern == s
    decreases |pattern|
  {
    if |pattern| > 0 {
      assert !IsWildcard(pattern[0]);
      if |s| > 0 {
        LiteralPatternMatchesOnlyItself(pattern[1..], s[1..]);
        if pattern[0] == s[0] && pattern[1..] == s[1..] {
          assert pattern == [pattern[0]] + pattern[1..];
          assert s == [s[0]] + s[1..];
        }
      }
    }
  }

  /** Anchoring: every non-`*` pattern character consumes exactly one text
      character, so a match is never shorter than that count, and with no
      `*` at all it has exactly the pattern's length. */
  lemma {:induction false} MatchLength(pattern: string, s: string)
    requires GlobMatch(pattern, s)
    ensures |s| >= |pattern| - Stars(pattern)
    ensures Stars(pattern) == 0 ==> |s| == |pattern|
    decreases |pattern| + |s|
  {
    if |pattern| > 0 {
      if pattern[0] == '*' {
        if GlobMatch(pattern[1..], s) {
          MatchLength(pattern[1..], s);
        } else {
          MatchLength(pattern, s[1..]);
        }
      } else {
        MatchLength(pattern[1..], s[1..]);
      }
    }
  }

  /** `?` consumes exactly one character. */
  lemma QuestionMarkMatchesOneCharacter(s: string)
    ensures GlobMatch("?", s) <==> |s| == 1
  {
    assert "?"[1..] == "";
  }

  /** `*` consumes any run of characters, including none. */
  lemma {:induction false} StarMatchesAnyRun(s: string)
    ensures GlobMatch("*", s)
    decreases |s|
  {
    if |s| > 0 {
      StarMatchesAnyRun(s[1..]);
    } else {
      assert "*"[1..] == "";
    }
  }

  /** A literal prefix of the pattern must be a literal prefix of the text. */
  lemma {:induction false} LiteralPrefix(a: string, rest: string, s: string)
    requires NoWildcards(a)
    ensures GlobSpec(a + rest, s) <==> |s| >= |a| && s[..|a|] == a && GlobSpec(rest, s[|a|..])
    decreases |a|
  {
    if |a| == 0 {
      assert a + rest == rest;
      assert s[0..] == s;
    } else {
      assert (a + rest)[0] == a[0] && !IsWildcard(a[0]);
      assert (a + rest)[1..] == a[1..] + rest;
      if |s| > 0 {
        LiteralPrefix(a[1..], rest, s[1..]);
        if |s| >= |a| {
          assert s[1..][|a| - 1..] == s[|a|..];
          assert s[..|a|] == [s[0]] + s[1..][..|a| - 1];
          assert a == [a[0]] + a[1..];
        }
      }
    }
  }

  /** A `*` followed by a literal matches exactly the texts ending in that
      literal. */
  lemma StarThenLiteral(b: string, t: string)
    requires NoWildcards(b)
    ensures GlobSpec("*" + b, t) <==> |t| >= |b| && t[|t| - |b|..] == b
  {
    assert ("*" + b)[0] == '*' && ("*" + b)[1..] == b;
    if GlobSpec("*" + b, t) {
      var k :| 0 <= k <= |t| && GlobSpec(b, t[k..]);
      GlobMatchIsGlobSpec(b, t[k..]);
      LiteralPatternMatchesOnlyItself(b, t[k..]);
    }
    if |t| >= |b| && t[|t| - |b|..] == b {
      var k := |t| - |b|;
      GlobMatchIsGlobSpec(b, t[k..]);
      LiteralPatternMatchesOnlyItself(b, t[k..]);
      assert GlobSpec(b, t[k..]);
    }
  }

  /** A pattern `a*b` with literal ends matches exactly the texts that start
      with `a` and end with `b` without the two overlapping: `My*Ship`
      matches `MyFreighterShip`, not `MyFreighterShi` nor `Other`. */
  lemma StarBetweenLiterals(a: string, b: string, pattern: string, s: string)
    requires NoWildcards(a) && NoWildcards(b)
    requires pattern == a + "*" + b
    ensures GlobMatch(pattern, s) <==>
              |s| >= |a| + |b| && s[..|a|] == a && s[|s| - |b|..] == b
  {
    var sb := "*" + b;
    assert pattern == a + sb;
    GlobMatchIsGlobSpec(pattern, s);
    var m := GlobSpec(pattern, s);
    LiteralPrefix(a, sb, s);
    assert m <==> |s| >= |a| && s[..|a|] == a && GlobSpec(sb, s[|a|..]);
    if |s| >= |a| {
      var t := s[|a|..];
      StarThenLiteral(b, t);
      if |t| >= |b| {
        assert t[|t| - |b|..] == s[|s| - |b|..];
      }
    }
  }
}
