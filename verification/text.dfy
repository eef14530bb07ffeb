/** The string operations of the .NET base library that the CDN code uses, restricted to ASCII
    case mapping and ordinal comparison. */
module Text {

  /** `char.ToUpper` on an ASCII letter; any other character is left alone. */
  function UpperChar(c: char): char {
    if 'a' <= c <= 'z' then (c as int - 32) as char else c
  }

  /** `char.ToLower` on an ASCII letter; any other character is left alone. */
  function LowerChar(c: char): char {
    if 'A' <= c <= 'Z' then (c as int + 32) as char else c
  }

  /** `string.ToUpper()`, character by character. */
  function ToUpper(s: string): (r: string)
    ensures |r| == |s|
    ensures forall i :: 0 <= i < |s| ==> r[i] == UpperChar(s[i])
  {
    seq(|s|, i requires 0 <= i < |s| => UpperChar(s[i]))
  }

  /** `string.ToLower()`, character by character. */
  function ToLower(s: string): (r: string)
    ensures |r| == |s|
    ensures forall i :: 0 <= i < |s| ==> r[i] == LowerChar(s[i])
  {
    seq(|s|, i requires 0 <= i < |s| => LowerChar(s[i]))
  }

  /** Lower-casing commutes with taking a slice. */
  lemma ToLowerSlice(s: string, i: int, j: int)
    requires 0 <= i <= j <= |s|
    ensures ToLower(s)[i..j] == ToLower(s[i..j])
  {
  }

  /** Upper-casing commutes with taking a slice. */
  lemma ToUpperSlice(s: string, i: int, j: int)
    requires 0 <= i <= j <= |s|
    ensures ToUpper(s)[i..j] == ToUpper(s[i..j])
  {
  }

  /** Two strings agree after upper-casing exactly when they agree after lower-casing: both say
      they differ at most in the case of ASCII letters. */
  lemma SameUpToCase(s: string, t: string)
    ensures ToUpper(s) == ToUpper(t) <==> ToLower(s) == ToLower(t)
  {
    if |s| == |t| {
      forall i | 0 <= i < |s|
        ensures UpperChar(s[i]) == UpperChar(t[i]) <==> LowerChar(s[i]) == LowerChar(t[i])
      {
      }
      assert ToUpper(s) == ToUpper(t) <==> forall i :: 0 <= i < |s| ==> ToUpper(s)[i] == ToUpper(t)[i];
    }
  }

  predicate StartsWith(s: string, prefix: string) {
    |prefix| <= |s| && s[..|prefix|] == prefix
  }

  predicate EndsWith(s: string, suffix: string) {
    |suffix| <= |s| && s[|s| - |suffix|..] == suffix
  }

  /** `sub` occurs in `s` starting at index `i`. */
  predicate OccursAt(s: string, sub: string, i: int) {
    0 <= i && i + |sub| <= |s| && s[i..i + |sub|] == sub
  }

  /** Ordinal `IndexOf` searching from `from`: the first occurrence at or after `from`, or -1. */
  function IndexOfFrom(s: string, sub: string, from: nat): (r: int)
    requires from <= |s|
    ensures r == -1 || (from <= r && OccursAt(s, sub, r))
    ensures r == -1 ==> forall i :: from <= i ==> !OccursAt(s, sub, i)
    ensures r != -1 ==> forall i :: from <= i < r ==> !OccursAt(s, sub, i)
    decreases |s| - from
  {
    if OccursAt(s, sub, from) then from
    else if from == |s| then -1
    else IndexOfFrom(s, sub, from + 1)
  }

  /** Ordinal `string.IndexOf(sub)`: the first occurrence of `sub` in `s`, or -1. */
  function IndexOf(s: string, sub: string): (r: int)
    ensures r == -1 <==> forall i :: !OccursAt(s, sub, i)
    ensures r != -1 ==> OccursAt(s, sub, r) && forall i :: 0 <= i < r ==> !OccursAt(s, sub, i)
  {
    IndexOfFrom(s, sub, 0)
  }

  /** Cutting `s` after its first occurrence of `sub` keeps that occurrence first. */
  lemma IndexOfInPrefix(s: string, sub: string, n: int)
    requires IndexOf(s, sub) != -1 && IndexOf(s, sub) + |sub| <= n <= |s|
    ensures IndexOf(s[..n], sub) == IndexOf(s, sub)
  {
    var i := IndexOf(s, sub);
    forall j | OccursAt(s[..n], sub, j)
      ensures OccursAt(s, sub, j)
    {
      assert s[..n][j..j + |sub|] == s[j..j + |sub|];
    }
    assert OccursAt(s[..n], sub, i);
  }

  /** Ordinal `string.Contains(sub)`. */
  predicate Contains(s: string, sub: string) {
    IndexOf(s, sub) != -1
  }

  /** `string.TrimEnd(c)`: drops every trailing occurrence of `c`. */
  function TrimEnd(s: string, c: char): (r: string)
    ensures r <= s
    ensures |r| == 0 || r[|r| - 1] != c
    ensures forall i :: |r| <= i < |s| ==> s[i] == c
    decreases |s|
  {
    if |s| == 0 || s[|s| - 1] != c then s
    else TrimEnd(s[..|s| - 1], c)
  }

  /** Sitecore's `StringUtil.EnsurePrefix(c, s)`: `s` with `c` in front unless it already starts with it. */
  function EnsurePrefix(c: char, s: string): (r: string)
    ensures |r| > 0 && r[0] == c
    ensures |s| > 0 && s[0] == c ==> r == s
    ensures !(|s| > 0 && s[0] == c) ==> r == [c] + s
  {
    if |s| > 0 && s[0] == c then s else [c] + s
  }

  predicate IsDigit(c: char) {
    '0' <= c <= '9'
  }

  /** `int.ToString()` for a natural number: its shortest decimal form. */
  function NatToDecimal(n: nat): (r: string)
    ensures |r| > 0
    ensures forall i :: 0 <= i < |r| ==> IsDigit(r[i])
    ensures |r| > 1 ==> r[0] != '0'
    ensures n > 0 ==> r[0] != '0'
    decreases n
  {
    if n < 10 then [('0' as int + n) as char]
    else NatToDecimal(n / 10) + [('0' as int + n % 10) as char]
  }

  /** The number a string of decimal digits denotes. */
  function DecimalValue(s: string): nat
    requires forall i :: 0 <= i < |s| ==> IsDigit(s[i])
  {
    if |s| == 0 then 0
    else
      var d := s[|s| - 1];
      assert IsDigit(d);
      10 * DecimalValue(s[..|s| - 1]) + (d as int - '0' as int)
  }

  /** `NatToDecimal` loses nothing: the digits it writes denote the number it was given. */
  lemma {:induction false} DecimalRoundTrip(n: nat)
    ensures DecimalValue(NatToDecimal(n)) == n
    decreases n
  {
    if n >= 10 {
      var r := NatToDecimal(n);
      assert r[..|r| - 1] == NatToDecimal(n / 10);
      DecimalRoundTrip(n / 10);
    }
  }
}
