/**
 * The root-element check of `InitializeSettings`: a match of the pattern
 * `^[a-z_:][a-z0-9.-_:]+$` under IgnoreCase, with .NET's meaning of `$` (end of input, or just
 * before a final newline). Inside the second class `.-_` is a range from '.' to '_', so the
 * hyphen itself is not in the class.
 */
module RootName {

  datatype CharRange = CharRange(lo: char, hi: char)

  predicate InRanges(ranges: seq<CharRange>, c: char)
    decreases |ranges|
  {
    |ranges| > 0 && ((ranges[0].lo <= c <= ranges[0].hi) || InRanges(ranges[1..], c))
  }

  /** ASCII case swap. */
  function SwapCase(c: char): char
  {
    if 'a' <= c <= 'z' then (c as int - 32) as char
    else if 'A' <= c <= 'Z' then (c as int + 32) as char
    else c
  }

  /** Class membership under IgnoreCase: the character or its other-case form is in a range. */
  predicate InClass(ranges: seq<CharRange>, c: char)
  {
    InRanges(ranges, c) || InRanges(ranges, SwapCase(c))
  }

  /** `[a-z_:]` */
  const FirstClass: seq<CharRange> := [CharRange('a', 'z'), CharRange('_', '_'), CharRange(':', ':')]

  /** `[a-z0-9.-_:]` */
  const RestClass: seq<CharRange> := [CharRange('a', 'z'), CharRange('0', '9'), CharRange('.', '_'), CharRange(':', ':')]

  /** `[a-z_:][a-z0-9.-_:]+` matched against the whole of `s`. */
  predicate MatchesBody(s: string)
  {
    |s| >= 2 && InClass(FirstClass, s[0]) && forall i :: 1 <= i < |s| ==> InClass(RestClass, s[i])
  }

  /** The anchored match: `$` also accepts one trailing '\n'. */
  predicate MatchesRootPattern(s: string)
  {
    MatchesBody(s) || (|s| > 0 && s[|s| - 1] == '\n' && MatchesBody(s[..|s| - 1]))
  }

  predicate IsAsciiLetter(c: char)
  {
    'a' <= c <= 'z' || 'A' <= c <= 'Z'
  }

  /** The characters the first class admits. */
  predicate StartChar(c: char)
  {
    IsAsciiLetter(c) || c == '_' || c == ':'
  }

  /** The characters the second class admits: letters, digits, ':' and everything from '.' to '_'. */
  predicate LaterChar(c: char)
  {
    IsAsciiLetter(c) || '0' <= c <= '9' || c == ':' || '.' <= c <= '_'
  }

  lemma FirstClassChars(c: char)
    ensures InClass(FirstClass, c) <==> StartChar(c)
  {
  }

  lemma RestClassChars(c: char)
    ensures InClass(RestClass, c) <==> LaterChar(c)
  {
  }

  /**
   * The pattern body in plain terms: a letter, '_' or ':' followed by at least one further
   * character, each a letter, a digit, ':' or in the range '.'..'_'.
   */
  lemma BodyChars(s: string)
    ensures MatchesBody(s) <==> |s| >= 2 && StartChar(s[0]) && forall i :: 1 <= i < |s| ==> LaterChar(s[i])
  {
  }

  /** The whole check in plain terms. */
  lemma RootPatternChars(s: string)
    ensures MatchesRootPattern(s) <==>
      (|s| >= 2 && StartChar(s[0]) && forall i :: 1 <= i < |s| ==> LaterChar(s[i])) ||
      (|s| >= 3 && s[|s| - 1] == '\n' && StartChar(s[0]) && forall i :: 1 <= i < |s| - 1 ==> LaterChar(s[i]))
  {
  }

  /** Single-character names are rejected. */
  lemma SingleCharRejected(s: string)
    requires |s| == 1
    ensures !MatchesRootPattern(s)
  {
  }

  /** No name containing '-' is accepted, although XML allows it after the first character. */
  lemma HyphenRejected(s: string)
    requires '-' in s
    ensures !MatchesRootPattern(s)
  {
  }

  /** Examples: "1bad" is rejected, "App" is accepted. */
  lemma Examples()
    ensures !MatchesRootPattern("1bad")
    ensures MatchesRootPattern("App")
  {
  }

  /**
   * The pattern admits names that are not XML names: a ';' or '@' after the first character,
   * and a trailing newline.
   */
  lemma AdmitsNonXmlNames()
    ensures MatchesRootPattern("a;b")
    ensures MatchesRootPattern("a@b")
    ensures MatchesRootPattern("ab\n")
  {
  }
}
