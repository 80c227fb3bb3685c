/**
 * `fnmatch.fnmatch` on POSIX, restricted to the wildcards `*` (any run of
 * characters, slashes included) and `?` (any one character); every other
 * pattern character matches only itself.
 */
module Glob {

  predicate Wild(c: char)
  {
    c == '*' || c == '?'
  }

  /** Does the whole of `s` match the pattern `p`? */
  predicate Match(s: string, p: string)
    decreases |s| + |p|
  {
    if |p| == 0 then |s| == 0
    else if p[0] == '*' then Match(s, p[1..]) || (|s| > 0 && Match(s[1..], p))
    else |s| > 0 && (p[0] == '?' || p[0] == s[0]) && Match(s[1..], p[1..])
  }

  /** A pattern without wildcards matches exactly the text it spells. */
  lemma {:induction false} MatchLiteral(s: string, p: string)
    requires forall k :: 0 <= k < |p| ==> !Wild(p[k])
    ensures Match(s, p) <==> s == p
    decreases |p|
  {
    if |p| > 0 && |s| > 0 {
      MatchLiteral(s[1..], p[1..]);
      if s[1..] == p[1..] && s[0] == p[0] {
        assert s == [s[0]] + s[1..] && p == [p[0]] + p[1..];
      }
    }
  }

  /** `*` matches every text. */
  lemma {:induction false} MatchStar(s: string)
    ensures Match(s, "*")
    decreases |s|
  {
    assert "*"[1..] == "";
    if |s| > 0 {
      MatchStar(s[1..]);
    }
  }

  /** `*` followed by a literal matches exactly the texts that end with that literal. */
  lemma {:induction false} MatchStarSuffix(s: string, lit: string)
    requires forall k :: 0 <= k < |lit| ==> !Wild(lit[k])
    ensures Match(s, "*" + lit) <==> |lit| <= |s| && s[|s| - |lit|..] == lit
    decreases |s|
  {
    var p := "*" + lit;
    assert p[0] == '*' && p[1..] == lit;
    assert Match(s, p) == (Match(s, lit) || (|s| > 0 && Match(s[1..], p)));
    MatchLiteral(s, lit);
    if |s| > 0 {
      var s' := s[1..];
      MatchStarSuffix(s', lit);
      if |lit| < |s| {
        assert s'[|s'| - |lit|..] == s[|s| - |lit|..];
      }
    }
  }

  /** Every text matches itself as a pattern: `*` and `?` match themselves too. */
  lemma {:induction false} MatchSelf(s: string)
    ensures Match(s, s)
    decreases |s|
  {
    if |s| > 0 {
      MatchSelf(s[1..]);
      if s[0] == '*' {
        assert Match(s[1..], s[1..]);
        MatchStarSkip(s[1..], s[1..]);
      }
    }
  }

  /** A leading `*` may consume nothing. */
  lemma MatchStarSkip(s: string, rest: string)
    requires Match(s, rest)
    ensures Match(s, "*" + rest)
  {
    assert ("*" + rest)[1..] == rest;
  }

  /** A pattern ending in a literal character matches only texts ending in that character. */
  lemma {:induction false} MatchLast(s: string, p: string)
    requires |p| > 0 && !Wild(p[|p| - 1])
    requires Match(s, p)
    ensures |s| > 0 && s[|s| - 1] == p[|p| - 1]
    decreases |s| + |p|
  {
    if p[0] == '*' {
      if |p| > 1 && Match(s, p[1..]) {
        MatchLast(s, p[1..]);
      } else {
        MatchLast(s[1..], p);
      }
    } else if |p| > 1 {
      MatchLast(s[1..], p[1..]);
    }
  }
}
