/** Shell-style pattern matching of the profile selector (`glob::Pattern::matches`
    with default options): `*` matches any run of characters, `/` included, `?`
    matches any single character, every other character matches itself. */
module Glob {

  const Star := '*'
  const Any := '?'

  predicate IsLiteral(pattern: string)
  {
    forall i :: 0 <= i < |pattern| ==> pattern[i] != Star && pattern[i] != Any
  }

  /** Without a `*`, a pattern matches exactly the strings of its own length
      that agree with it at every position that is not `?`. */
  predicate Matches(pattern: string, s: string): (b: bool)
    ensures Star !in pattern ==>
              (b <==> |s| == |pattern| && forall i :: 0 <= i < |s| ==> pattern[i] == Any || pattern[i] == s[i])
    decreases |pattern| + |s|
  {
    if |pattern| == 0 then |s| == 0
    else if pattern[0] == Star then
      Matches(pattern[1..], s) || (|s| > 0 && Matches(pattern, s[1..]))
    else
      assert forall i :: 1 <= i < |pattern| ==> pattern[i] == pattern[1..][i - 1];
      assert forall i :: 1 <= i < |s| ==> s[i] == s[1..][i - 1];
      |s| > 0 && (pattern[0] == Any || pattern[0] == s[0]) && Matches(pattern[1..], s[1..])
  }

  /** A lone `*` matches every string. */
  lemma {:induction false} StarMatchesAll(s: string)
    ensures Matches([Star], s)
    decreases |s|
  {
    if |s| > 0 {
      StarMatchesAll(s[1..]);
    }
  }

  /** A pattern without wildcards matches exactly itself. */
  lemma LiteralMatchesItself(pattern: string, s: string)
    requires IsLiteral(pattern)
    ensures Matches(pattern, s) <==> s == pattern
  {
  }

  /** `<literal>*` matches exactly the strings that start with the literal. */
  lemma {:induction false} LiteralThenStar(prefix: string, s: string)
    requires IsLiteral(prefix)
    ensures Matches(prefix + [Star], s) <==> |prefix| <= |s| && s[..|prefix|] == prefix
    decreases |prefix|
  {
    if |prefix| == 0 {
      assert prefix + [Star] == [Star];
      StarMatchesAll(s);
    } else {
      assert (prefix + [Star])[1..] == prefix[1..] + [Star];
      if |s| > 0 {
        LiteralThenStar(prefix[1..], s[1..]);
        if |prefix| <= |s| && s[..|prefix|] == prefix {
          assert s[1..][..|prefix| - 1] == prefix[1..];
        }
        if s[0] == prefix[0] && |prefix| - 1 <= |s| - 1 && s[1..][..|prefix| - 1] == prefix[1..] {
          assert s[..|prefix|] == [s[0]] + s[1..][..|prefix| - 1];
          assert prefix == [prefix[0]] + prefix[1..];
        }
      }
    }
  }

  /** The default selector, a star, a slash and a star, matches exactly the strings containing a slash. */
  lemma {:induction false} DefaultPatternMatches(s: string)
    ensures Matches("*/*", s) <==> '/' in s
    decreases |s|
  {
    var p := "*/*";
    assert p[1..] == "/*";
    assert p[1..][1..] == [Star];
    if |s| > 0 {
      DefaultPatternMatches(s[1..]);
      StarMatchesAll(s[1..]);
      assert s == [s[0]] + s[1..];
      assert '/' in s <==> s[0] == '/' || '/' in s[1..];
    }
  }
}
