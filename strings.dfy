/**
 * The two java.lang.String queries the gateway relies on: `startsWith`
 * and `contains`. Both are literal, case-sensitive comparisons of
 * characters; nothing is normalised.
 */
module Strings {

  /** `s.startsWith(prefix)`: `s` is `prefix` followed by some rest. */
  function StartsWith(s: string, prefix: string): (starts: bool)
    ensures starts <==> exists rest :: s == prefix + rest
  {
    if |prefix| <= |s| && s[..|prefix|] == prefix then
      assert s == prefix + s[|prefix|..];
      true
    else
      false
  }

  /** Reference definition of substring: `s` splits around `fragment`. */
  ghost predicate IsSubstring(fragment: string, s: string) {
    exists before, after :: s == before + fragment + after
  }

  /** The empty text contains exactly the empty fragment. */
  lemma SubstringOfEmpty(fragment: string)
    ensures IsSubstring(fragment, []) <==> fragment == []
  {
    if fragment == [] {
      assert [] == [] + fragment + [];
    }
    if IsSubstring(fragment, []) {
      var before, after :| [] == before + fragment + after;
      assert |before + fragment + after| == |before| + |fragment| + |after|;
    }
  }

  /** A non-empty text contains a fragment iff it starts with it or its tail contains it. */
  lemma SubstringStep(fragment: string, s: string)
    requires s != []
    ensures IsSubstring(fragment, s) <==> StartsWith(s, fragment) || IsSubstring(fragment, s[1..])
  {
    if StartsWith(s, fragment) {
      assert s == [] + fragment + s[|fragment|..];
    }
    if IsSubstring(fragment, s[1..]) {
      var before, after :| s[1..] == before + fragment + after;
      assert s == ([s[0]] + before) + fragment + after;
    }
    if IsSubstring(fragment, s) {
      var before, after :| s == before + fragment + after;
      if before == [] {
        assert s[..|fragment|] == fragment;
      } else {
        assert s[1..] == before[1..] + fragment + after;
      }
    }
  }

  /**
   * `s.contains(fragment)`: scans the start positions of `s` from the left.
   * Its result is exactly the reference definition of substring.
   */
  function Contains(s: string, fragment: string): (found: bool)
    ensures found <==> IsSubstring(fragment, s)
    decreases |s|
  {
    if s == [] then
      SubstringOfEmpty(fragment);
      StartsWith(s, fragment)
    else
      SubstringStep(fragment, s);
      StartsWith(s, fragment) || Contains(s[1..], fragment)
  }

  /** A substring stays a substring when text is added on either side. */
  lemma SubstringWidens(fragment: string, s: string, left: string, right: string)
    requires IsSubstring(fragment, s)
    ensures IsSubstring(fragment, left + s + right)
  {
    var before, after :| s == before + fragment + after;
    assert left + s + right == (left + before) + fragment + (after + right);
  }

  /** Every character of a substring occurs in the enclosing text. */
  lemma SubstringKeepsChars(fragment: string, s: string)
    ensures IsSubstring(fragment, s) ==> forall c :: c in fragment ==> c in s
  {
    if IsSubstring(fragment, s) {
      var before, after :| s == before + fragment + after;
      forall c | c in fragment ensures c in s {
        var i :| 0 <= i < |fragment| && fragment[i] == c;
        assert s[|before| + i] == c;
      }
    }
  }
}
