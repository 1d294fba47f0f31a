/**
 * The parts of Rust's `str` API the launcher uses: `trim`, `contains`
 * with a string pattern, and `replace("\\", "/")`.
 */
module Text {

  /**
   * Rust's `char::is_whitespace`: the characters with the Unicode
   * White_Space property, which is what `str::trim` strips.
   */
  predicate IsWhitespace(c: char) {
    var n := c as int;
    (0x09 <= n <= 0x0D) || n == 0x20 || n == 0x85 || n == 0xA0 || n == 0x1680
    || (0x2000 <= n <= 0x200A) || n == 0x2028 || n == 0x2029 || n == 0x202F
    || n == 0x205F || n == 0x3000
  }

  /** Every character of `s` is whitespace (vacuously so for the empty string). */
  predicate IsBlank(s: string) {
    forall i :: 0 <= i < |s| ==> IsWhitespace(s[i])
  }

  /** `s` with its leading whitespace removed: the longest suffix not starting with whitespace. */
  function TrimStart(s: string): (r: string)
    ensures |r| <= |s| && r == s[|s| - |r|..]
    ensures r == [] || !IsWhitespace(r[0])
    ensures forall i :: 0 <= i < |s| - |r| ==> IsWhitespace(s[i])
  {
    if s != [] && IsWhitespace(s[0]) then TrimStart(s[1..]) else s
  }

  /** `s` with its trailing whitespace removed: the longest prefix not ending with whitespace. */
  function TrimEnd(s: string): (r: string)
    ensures |r| <= |s| && r == s[..|r|]
    ensures r == [] || !IsWhitespace(r[|r| - 1])
    ensures forall i :: |r| <= i < |s| ==> IsWhitespace(s[i])
  {
    if s != [] && IsWhitespace(s[|s| - 1]) then TrimEnd(s[..|s| - 1]) else s
  }

  /** Rust's `str::trim`. */
  function Trim(s: string): string {
    TrimEnd(TrimStart(s))
  }

  /** `s.trim().is_empty()` holds exactly for the strings made only of whitespace. */
  lemma TrimEmptyIffBlank(s: string)
    ensures Trim(s) == [] <==> IsBlank(s)
  {
    var t := TrimStart(s);
    if t != [] {
      assert t[0] == s[|s| - |t|];
      assert Trim(s)[|Trim(s)| - 1] == s[|s| - |t| + |Trim(s)| - 1];
    }
  }

  /** `needle` occurs in `hay` at position `i`. */
  predicate OccursAt(needle: string, hay: string, i: nat) {
    i + |needle| <= |hay| && hay[i..i + |needle|] == needle
  }

  /** Rust's `str::contains` with a string pattern: a literal, case-sensitive substring test. */
  predicate Contains(hay: string, needle: string) {
    exists i: nat :: i <= |hay| && OccursAt(needle, hay, i)
  }

  /** Every string contains itself. */
  lemma ContainsSelf(s: string)
    ensures Contains(s, s)
  {
    assert OccursAt(s, s, 0);
  }

  /** Every string contains the empty string. */
  lemma ContainsEmpty(s: string)
    ensures Contains(s, "")
  {
    assert OccursAt("", s, 0);
  }

  /** A string contains each of its prefixes. */
  lemma ContainsPrefix(hay: string, needle: string)
    requires |needle| <= |hay| && hay[..|needle|] == needle
    ensures Contains(hay, needle)
  {
    assert OccursAt(needle, hay, 0);
  }

  /** A needle longer than the haystack never occurs in it. */
  lemma ContainsNoLonger(hay: string, needle: string)
    requires Contains(hay, needle)
    ensures |needle| <= |hay|
  {
  }

  /** A haystack containing a non-empty needle contains the needle's first character. */
  lemma ContainsFirstChar(hay: string, needle: string)
    requires Contains(hay, needle) && needle != []
    ensures needle[0] in hay
  {
    var i: nat :| i <= |hay| && OccursAt(needle, hay, i);
    assert hay[i] == hay[i..i + |needle|][0];
  }

  /** Each `\` of `s` turned into `/`, every other character kept in place. */
  function ReplaceBackslashes(s: string): (r: string)
    ensures |r| == |s|
    ensures forall i :: 0 <= i < |s| ==> r[i] == (if s[i] == '\\' then '/' else s[i])
  {
    if s == [] then []
    else [if s[0] == '\\' then '/' else s[0]] + ReplaceBackslashes(s[1..])
  }

  /** The replacement leaves no backslash behind, and applying it again changes nothing. */
  lemma ReplaceBackslashesNormalizes(s: string)
    ensures '\\' !in ReplaceBackslashes(s)
    ensures ReplaceBackslashes(ReplaceBackslashes(s)) == ReplaceBackslashes(s)
  {
    var r := ReplaceBackslashes(s);
    assert forall i :: 0 <= i < |r| ==> r[i] != '\\';
  }
}
