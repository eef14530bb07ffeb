/** The fixed regular expression `.+\.[A-Za-z0-9]{2,4}$` of `UrlHasFileExtension`, with .NET
    semantics: the search is unanchored on the left, `.` matches any character but a line feed,
    and `$` (without the multi-line option) matches at the end of the text or just before a final
    line feed. */
module FileExtension {

  predicate IsAsciiAlnum(c: char) {
    'a' <= c <= 'z' || 'A' <= c <= 'Z' || '0' <= c <= '9'
  }

  /** Where `$` may match. */
  predicate EndAnchor(s: string, e: int) {
    e == |s| || (0 <= e == |s| - 1 && s[e] == '\n')
  }

  /** One match of the regex: `.+` spans `s[i..j]`, the dot is `s[j]`, and the 2 to 4 letters or
      digits run from `j + 1` up to the anchor `e`. */
  predicate MatchAt(s: string, i: int, j: int, e: int) {
    && 0 <= i < j
    && j + 3 <= e <= j + 5
    && e <= |s|
    && EndAnchor(s, e)
    && (forall t :: i <= t < j ==> s[t] != '\n')
    && s[j] == '.'
    && (forall t :: j < t < e ==> IsAsciiAlnum(s[t]))
  }

  /** `Regex.Match(s).Success` for the pattern: some match exists anywhere in `s`. */
  ghost predicate RegexMatches(s: string) {
    exists i, j, e :: MatchAt(s, i, j, e)
  }

  /** The anchor `e` is preceded by a dot, then `k` letters or digits, with a character other
      than a line feed just before the dot. */
  predicate TailAt(s: string, e: int, k: int)
    requires 0 <= e <= |s|
  {
    0 <= k && k + 2 <= e && s[e - k - 2] != '\n' && s[e - k - 1] == '.' && forall t :: e - k <= t < e ==> IsAsciiAlnum(s[t])
  }

  predicate TailEndingAt(s: string, e: int)
    requires 0 <= e <= |s|
  {
    TailAt(s, e, 2) || TailAt(s, e, 3) || TailAt(s, e, 4)
  }

  /** The decision procedure: try both places `$` can match and the three extension lengths. */
  predicate HasExtensionSuffix(s: string) {
    TailEndingAt(s, |s|) || (|s| > 0 && s[|s| - 1] == '\n' && TailEndingAt(s, |s| - 1))
  }

  /** The decision procedure answers exactly what the regex search answers, in both directions. */
  lemma HasExtensionSuffixIsRegex(s: string)
    ensures HasExtensionSuffix(s) <==> RegexMatches(s)
  {
    if HasExtensionSuffix(s) {
      var e := if TailEndingAt(s, |s|) then |s| else |s| - 1;
      assert TailEndingAt(s, e);
      var k := if TailAt(s, e, 2) then 2 else if TailAt(s, e, 3) then 3 else 4;
      assert TailAt(s, e, k);
      assert MatchAt(s, e - k - 2, e - k - 1, e);
    }
    if RegexMatches(s) {
      var i, j, e :| MatchAt(s, i, j, e);
      assert s[j - 1] != '\n';
      assert TailAt(s, e, e - j - 1);
    }
  }
}
