/**
 * The registration e-mail pattern `^[^\s@]+@[^\s@]+\.[^\s@]+$`, as a predicate
 * over index splits, and its reading as four plain conditions.
 */
module Email {
  import opened Text

  /** A character the class `[^\s@]` accepts. */
  predicate PlainChar(c: char) {
    !IsSpace(c) && c != '@'
  }

  /** A match of `[^\s@]+`. */
  predicate Run(s: string) {
    |s| > 0 && forall i :: 0 <= i < |s| ==> PlainChar(s[i])
  }

  /** The whole text matches the pattern: an '@' at `a` and a '.' at `d` cut it
      into three non-empty runs of plain characters. */
  predicate MatchesPattern(s: string) {
    exists a, d | 0 < a < d < |s| - 1 ::
      s[a] == '@' && s[d] == '.' && Run(s[..a]) && Run(s[a + 1..d]) && Run(s[d + 1..])
  }

  predicate NoSpace(s: string) {
    forall i :: 0 <= i < |s| ==> !IsSpace(s[i])
  }

  /** The domain has a '.' that is neither its first nor its last character. */
  predicate HasInnerDot(domain: string) {
    exists k | 0 < k < |domain| - 1 :: domain[k] == '.'
  }

  /** The four conditions the pattern amounts to: no white space, exactly one
      '@', a non-empty part before it, and an inner '.' in the part after it. */
  ghost predicate WellFormed(s: string) {
    && NoSpace(s)
    && exists a | 0 <= a < |s| ::
         && s[a] == '@'
         && (forall j :: 0 <= j < |s| && j != a ==> s[j] != '@')
         && a > 0
         && HasInnerDot(s[a + 1..])
  }

  /** The pattern and the four conditions accept exactly the same texts. */
  lemma PatternIsWellFormed(s: string)
    ensures MatchesPattern(s) <==> WellFormed(s)
  {
    if MatchesPattern(s) {
      var a, d :| 0 < a < d < |s| - 1 && s[a] == '@' && s[d] == '.'
        && Run(s[..a]) && Run(s[a + 1..d]) && Run(s[d + 1..]);
      MatchImpliesWellFormed(s, a, d);
    }
    if WellFormed(s) {
      var a :| 0 <= a < |s| && s[a] == '@' && (forall j :: 0 <= j < |s| && j != a ==> s[j] != '@')
        && a > 0 && HasInnerDot(s[a + 1..]);
      var k :| 0 < k < |s[a + 1..]| - 1 && s[a + 1..][k] == '.';
      WellFormedImpliesMatch(s, a, a + 1 + k);
    }
  }

  lemma MatchImpliesWellFormed(s: string, a: int, d: int)
    requires 0 < a < d < |s| - 1 && s[a] == '@' && s[d] == '.'
    requires Run(s[..a]) && Run(s[a + 1..d]) && Run(s[d + 1..])
    ensures WellFormed(s)
  {
    forall i | 0 <= i < |s| && i != a
      ensures PlainChar(s[i])
    {
      if i < a {
        assert s[i] == s[..a][i];
      } else if i < d {
        assert s[i] == s[a + 1..d][i - a - 1];
      } else if i > d {
        assert s[i] == s[d + 1..][i - d - 1];
      }
    }
    assert NoSpace(s);
    assert s[a + 1..][d - a - 1] == '.';
  }

  lemma WellFormedImpliesMatch(s: string, a: int, d: int)
    requires NoSpace(s)
    requires 0 < a < |s| && s[a] == '@'
    requires forall j :: 0 <= j < |s| && j != a ==> s[j] != '@'
    requires a + 1 < d < |s| - 1 && s[d] == '.'
    ensures MatchesPattern(s)
  {
    assert Run(s[..a]);
    assert Run(s[a + 1..d]);
    assert Run(s[d + 1..]);
  }

  lemma Examples()
    ensures MatchesPattern("a@b.co")
    ensures !MatchesPattern("a@b.")
    ensures !MatchesPattern("a@@b.c")
  {
    WellFormedImpliesMatch("a@b.co", 1, 3);
    PatternIsWellFormed("a@b.");
    PatternIsWellFormed("a@@b.c");
    var t := "a@@b.c";
    assert t[1] == '@' && t[2] == '@';
  }
}
