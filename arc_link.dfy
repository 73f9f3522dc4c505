/**
 The link check of index.js: a link is accepted when the regular expression
 `^https:\/\/arc\.net\/boost\/.+` finds a match in it. The pattern is anchored at
 the start only, and `.` matches any character but a line terminator, so one
 such character after the prefix is enough and anything may follow it.
 */
module ArcLink {
  import opened Text

  const ArcBoostPrefix: string := "https://arc.net/boost/"

  /** Matches `p` against the front of `s`, one character at a time. */
  predicate IsPrefix(p: string, s: string)
  {
    p == [] || (s != [] && p[0] == s[0] && IsPrefix(p[1..], s[1..]))
  }

  /**
   `isValidArcLink`: the prefix, then one character that `.` matches. Accepted exactly when
   the link is longer than the prefix, starts with it, and the next character is not a line
   terminator.
   */
  predicate IsValidArcLink(link: string): (b: bool)
    ensures b <==>
      |link| > |ArcBoostPrefix| && link[..|ArcBoostPrefix|] == ArcBoostPrefix
      && !IsLineTerminator(link[|ArcBoostPrefix|])
  {
    IsPrefixSlice(ArcBoostPrefix, link);
    IsPrefix(ArcBoostPrefix, link) && |link| > |ArcBoostPrefix| && !IsLineTerminator(link[|ArcBoostPrefix|])
  }

  lemma {:induction false} IsPrefixSlice(p: string, s: string)
    ensures IsPrefix(p, s) <==> |p| <= |s| && s[..|p|] == p
  {
    if p != [] && s != [] {
      IsPrefixSlice(p[1..], s[1..]);
      if |p| <= |s| {
        assert s[..|p|] == [s[0]] + s[1..][..|p| - 1];
        assert p == [p[0]] + p[1..];
      }
    }
  }

  /** Whatever follows the first character after the prefix does not matter. */
  lemma ValidArcLinkAnyTail(c: char, rest: string)
    ensures IsValidArcLink(ArcBoostPrefix + [c] + rest) <==> !IsLineTerminator(c)
  {
    var link := ArcBoostPrefix + [c] + rest;
    assert link[..|ArcBoostPrefix|] == ArcBoostPrefix;
    assert link[|ArcBoostPrefix|] == c;
  }

  /** A boost link with one character after the prefix is accepted. */
  lemma AcceptedExample()
    ensures IsValidArcLink("https://arc.net/boost/x")
  {
    assert "https://arc.net/boost/x" == ArcBoostPrefix + ['x'] + "";
    ValidArcLinkAnyTail('x', "");
  }

  /** A link that differs from the prefix at some position before its end is refused. */
  lemma PrefixMismatchRefused(link: string, i: nat)
    requires i < |ArcBoostPrefix| && i < |link| && link[i] != ArcBoostPrefix[i]
    ensures !IsValidArcLink(link)
  {
    if |link| > |ArcBoostPrefix| {
      assert link[..|ArcBoostPrefix|][i] == link[i];
    }
  }

  /** Links refused: the wrong scheme, the wrong host, nothing after the prefix, a line break after it. */
  lemma RefusedExamples()
    ensures !IsValidArcLink("http://arc.net/boost/x")
    ensures !IsValidArcLink("https://example.com/boost/x")
    ensures !IsValidArcLink("")
    ensures !IsValidArcLink("https://arc.net/boost/")
    ensures !IsValidArcLink("https://arc.net/boost/\nx")
  {
    PrefixMismatchRefused("http://arc.net/boost/x", 4);
    PrefixMismatchRefused("https://example.com/boost/x", 8);
    ValidArcLinkAnyTail('\n', "x");
    assert "https://arc.net/boost/\nx" == ArcBoostPrefix + ['\n'] + "x";
  }
}
