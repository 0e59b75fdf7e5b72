/**
 * The java.lang.String operations the search service relies on:
 * trim(), trim().isEmpty() and toLowerCase() (ASCII letters only).
 */
module JavaStrings {

  /** String.trim() removes every leading and trailing code unit at or below U+0020. */
  predicate IsTrimmable(c: char) {
    c <= ' '
  }

  /** The suffix of s left after dropping its leading trimmable characters. */
  function TrimStart(s: string): (r: string)
    ensures |r| <= |s| && r == s[|s| - |r|..]
    ensures forall i :: 0 <= i < |s| - |r| ==> IsTrimmable(s[i])
    ensures r != [] ==> !IsTrimmable(r[0])
  {
    if s != [] && IsTrimmable(s[0]) then TrimStart(s[1..]) else s
  }

  /** The prefix of s left after dropping its trailing trimmable characters. */
  function TrimEnd(s: string): (r: string)
    ensures |r| <= |s| && r == s[..|r|]
    ensures forall i :: |r| <= i < |s| ==> IsTrimmable(s[i])
    ensures r != [] ==> !IsTrimmable(r[|r| - 1])
  {
    if s != [] && IsTrimmable(s[|s| - 1]) then TrimEnd(s[..|s| - 1]) else s
  }

  /**
   * String.trim(): the stretch of s that begins at some offset k, with only
   * trimmable characters before it and after it, and that neither begins nor
   * ends with a trimmable character.
   */
  function Trim(s: string): (r: string)
    ensures exists k ::
      && 0 <= k <= |s| - |r| && r == s[k..][..|r|]
      && (forall i :: 0 <= i < k ==> IsTrimmable(s[i]))
      && (forall i :: k + |r| <= i < |s| ==> IsTrimmable(s[i]))
    ensures r != [] ==> !IsTrimmable(r[0]) && !IsTrimmable(r[|r| - 1])
  {
    var t := TrimStart(s);
    var k := |s| - |t|;
    assert TrimEnd(t) == s[k..][..|TrimEnd(t)|];
    TrimEnd(t)
  }

  /** s.trim().isEmpty(): the string trims to nothing exactly when all its characters are trimmable. */
  predicate IsBlank(s: string): (b: bool)
    ensures b <==> forall i :: 0 <= i < |s| ==> IsTrimmable(s[i])
  {
    Trim(s) == []
  }

  /**
   * Character.toLowerCase on the ASCII upper-case letters; every other
   * character is left as it is (see README for why this suffices here).
   */
  function LowerChar(c: char): char {
    if 'A' <= c <= 'Z' then (c as int + 32) as char else c
  }

  /** String.toLowerCase(), character by character. */
  function ToLowerCase(s: string): (r: string)
    ensures |r| == |s|
    ensures forall i :: 0 <= i < |s| ==> r[i] == LowerChar(s[i])
  {
    if s == [] then [] else [LowerChar(s[0])] + ToLowerCase(s[1..])
  }

  /**
   * Same length and the same characters up to ASCII case. This is what
   * comparing toLowerCase() results decides under the ASCII-only LowerChar;
   * it is narrower than String.equalsIgnoreCase, which also folds non-ASCII
   * letters through Character.toUpperCase.
   */
  predicate EqualsIgnoringAsciiCase(a: string, b: string) {
    |a| == |b| && forall i :: 0 <= i < |a| ==> LowerChar(a[i]) == LowerChar(b[i])
  }

  /** A string that toLowerCase leaves unchanged. */
  predicate IsLowerCase(t: string) {
    forall i :: 0 <= i < |t| ==> LowerChar(t[i]) == t[i]
  }

  /** Lower-casing s yields the lower-case string t exactly when s equals t ignoring case. */
  lemma LowerCaseMatchIff(s: string, t: string)
    requires IsLowerCase(t)
    ensures ToLowerCase(s) == t <==> EqualsIgnoringAsciiCase(s, t)
  {
    var l := ToLowerCase(s);
    if EqualsIgnoringAsciiCase(s, t) {
      assert forall i :: 0 <= i < |t| ==> l[i] == t[i];
    }
  }

  /** Strings equal up to case lower-case to the same string. */
  lemma LowerCaseIgnoresCase(a: string, b: string)
    requires EqualsIgnoringAsciiCase(a, b)
    ensures ToLowerCase(a) == ToLowerCase(b)
  {
    var la, lb := ToLowerCase(a), ToLowerCase(b);
    assert forall i :: 0 <= i < |la| ==> la[i] == lb[i];
  }
}
