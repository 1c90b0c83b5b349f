// The folder path check of the openEHR directory endpoint: the Java
// regular expression  ^(?:/?(?:\w+|\s|-)*/?)+$  applied with
// Matcher.matches(), and the per-character test it amounts to.
module FolderPath {

  /** `\w` without UNICODE_CHARACTER_CLASS: [a-zA-Z_0-9]. */
  predicate IsWordChar(c: char) {
    'a' <= c <= 'z' || 'A' <= c <= 'Z' || '0' <= c <= '9' || c == '_'
  }

  /** `\s` without UNICODE_CHARACTER_CLASS: [ \t\n\x0B\f\r]. */
  predicate IsSpaceChar(c: char) {
    c == ' ' || c == '\t' || c == '\n' || c == '\U{0B}' || c == '\U{0C}' || c == '\r'
  }

  /** A character `(?:\w+|\s|-)` can consume. */
  predicate IsBodyChar(c: char) { IsWordChar(c) || IsSpaceChar(c) || c == '-' }

  /** The language of `(?:\w+|\s|-)*`: any string of body characters. */
  predicate IsBody(s: string) { forall i :: 0 <= i < |s| ==> IsBodyChar(s[i]) }

  // The language of one iteration  /?(?:\w+|\s|-)*/?
  predicate IsGroup(s: string) {
    || IsBody(s)
    || (|s| >= 1 && s[0] == '/' && IsBody(s[1..]))
    || (|s| >= 1 && s[|s| - 1] == '/' && IsBody(s[..|s| - 1]))
    || (|s| >= 2 && s[0] == '/' && s[|s| - 1] == '/' && IsBody(s[1..|s| - 1]))
  }

  /**
   * The language of `(?:group)+` anchored at both ends: one iteration
   * covering the whole string (possibly empty), or a non-empty iteration
   * followed by more. Iterations that match the empty string can be
   * dropped from any longer match, so this is the whole language.
   */
  predicate MatchesPathPattern(s: string)
    decreases |s|
  {
    IsGroup(s) || exists k :: 0 < k < |s| && IsGroup(s[..k]) && MatchesPathPattern(s[k..])
  }

  /** A character the pattern can consume anywhere. */
  predicate IsPathChar(c: char) { IsBodyChar(c) || c == '/' }

  /**
   * isValidPath: true exactly when the path matches the pattern, which is
   * when every character is a word character, whitespace, '-' or '/'.
   */
  function IsValidPath(path: string): (r: bool)
    ensures r <==> MatchesPathPattern(path)
  {
    PatternIffPathChars(path);
    forall i | 0 <= i < |path| :: IsPathChar(path[i])
  }

  lemma GroupHasPathChars(s: string)
    requires IsGroup(s)
    ensures forall i :: 0 <= i < |s| ==> IsPathChar(s[i])
  {
    forall i | 0 <= i < |s| ensures IsPathChar(s[i]) {
      if IsBody(s) {
        assert IsBodyChar(s[i]);
      } else if |s| >= 1 && s[0] == '/' && IsBody(s[1..]) {
        if i > 0 { assert s[i] == s[1..][i - 1]; }
      } else if |s| >= 1 && s[|s| - 1] == '/' && IsBody(s[..|s| - 1]) {
        if i < |s| - 1 { assert s[i] == s[..|s| - 1][i]; }
      } else {
        if 0 < i < |s| - 1 { assert s[i] == s[1..|s| - 1][i - 1]; }
      }
    }
  }

  lemma {:induction false} PatternIffPathChars(s: string)
    ensures MatchesPathPattern(s) <==> forall i :: 0 <= i < |s| ==> IsPathChar(s[i])
    decreases |s|
  {
    if forall i :: 0 <= i < |s| ==> IsPathChar(s[i]) {
      // every path character on its own is one iteration of the group
      if |s| <= 1 {
        if |s| == 1 && s[0] == '/' {
          assert s[1..] == [];
        }
        assert IsGroup(s);
      } else {
        var head, tail := s[..1], s[1..];
        if s[0] == '/' {
          assert head[1..] == [];
        }
        assert IsGroup(head);
        PatternIffPathChars(tail);
        assert MatchesPathPattern(tail);
      }
    }
    if MatchesPathPattern(s) {
      if IsGroup(s) {
        GroupHasPathChars(s);
      } else {
        var k :| 0 < k < |s| && IsGroup(s[..k]) && MatchesPathPattern(s[k..]);
        GroupHasPathChars(s[..k]);
        PatternIffPathChars(s[k..]);
        forall i | 0 <= i < |s| ensures IsPathChar(s[i]) {
          if i < k { assert s[i] == s[..k][i]; } else { assert s[i] == s[k..][i - k]; }
        }
      }
    }
  }

  /** The root in both spellings, trailing slashes and multi-segment paths are accepted. */
  lemma AcceptedPaths()
    ensures IsValidPath("") && IsValidPath("/") && IsValidPath("a/")
    ensures IsValidPath("/a/b-c d_1/")
  {
  }

  /** Any other character makes the path malformed, e.g. '.', ':' or '?'. */
  lemma RejectedPaths()
    ensures !IsValidPath("../etc") && !IsValidPath("a:b") && !IsValidPath("/a?b")
  {
    assert !IsPathChar("../etc"[0]);
    assert !IsPathChar("a:b"[1]);
    assert !IsPathChar("/a?b"[2]);
  }
}
