/** The JavaScript string operations the handlers rely on, over Dafny strings. Strings are
    sequences of Unicode scalar values; every needle the handlers search for is ASCII, so
    the UTF-16 representation JavaScript uses gives the same answers. */
module Strings {

  /** `s.startsWith(p)` */
  predicate StartsWith(s: string, p: string) {
    |p| <= |s| && s[..|p|] == p
  }

  /** `s.endsWith(p)` */
  predicate EndsWith(s: string, p: string) {
    |p| <= |s| && s[|s| - |p|..] == p
  }

  /** `sub` occurs in `s` starting at index `i`. */
  predicate OccursAt(s: string, sub: string, i: int) {
    0 <= i <= |s| - |sub| && s[i..i + |sub|] == sub
  }

  /** `s.includes(sub)` */
  predicate Contains(s: string, sub: string) {
    exists i | 0 <= i <= |s| :: OccursAt(s, sub, i)
  }

  /** Containment is transitive: a string that contains `outer` contains everything
      `outer` contains. */
  lemma ContainsTransitive(s: string, outer: string, inner: string)
    requires Contains(s, outer) && Contains(outer, inner)
    ensures Contains(s, inner)
  {
    var i :| 0 <= i <= |s| && OccursAt(s, outer, i);
    var j :| 0 <= j <= |outer| && OccursAt(outer, inner, j);
    forall k | 0 <= k < |inner|
      ensures s[i + j + k] == inner[k]
    {
      assert inner[k] == outer[j + k] == s[i..i + |outer|][j + k];
    }
    assert OccursAt(s, inner, i + j);
  }

  /** A string contains each of its prefixes and suffixes. */
  lemma ContainsAffixes(a: string, b: string)
    ensures Contains(a + b, a) && Contains(a + b, b)
  {
    assert OccursAt(a + b, a, 0);
    assert OccursAt(a + b, b, |a|);
  }

  function AsciiLower(c: char): char {
    if 'A' <= c <= 'Z' then (c as int + 32) as char else c
  }

  /** ASCII lower case of every character; other characters are left as they are. */
  function AsciiLowerAll(s: string): (r: string)
    ensures |r| == |s|
    ensures forall i :: 0 <= i < |s| ==> r[i] == AsciiLower(s[i])
  {
    seq(|s|, i requires 0 <= i < |s| => AsciiLower(s[i]))
  }

  /** The characters `String.prototype.toUpperCase` maps onto an upper-case ASCII letter,
      one for one: the ASCII lower-case letters, dotless i (U+0131) and long s (U+017F).
      Every other character is left as it is. Characters whose upper case is several
      characters (ß to SS, the Latin ligatures) are not expanded; none of their expansions
      occurs inside DENY or SAMEORIGIN, so equality with those words is decided the same. */
  function JsUpperChar(c: char): char {
    if 'a' <= c <= 'z' then (c as int - 32) as char
    else if c == '\U{0131}' then 'I'
    else if c == '\U{017F}' then 'S'
    else c
  }

  function JsUpper(s: string): (r: string)
    ensures |r| == |s|
    ensures forall i :: 0 <= i < |s| ==> r[i] == JsUpperChar(s[i])
  {
    seq(|s|, i requires 0 <= i < |s| => JsUpperChar(s[i]))
  }

  /** `s.toLowerCase().startsWith(p)` for an ASCII lower-case prefix `p` without the letter
      i. Only A-Z, the Kelvin sign and the dotted capital I lower-case to ASCII; the first
      becomes k and the second starts with i, neither of which such a prefix contains, so
      comparing ASCII lower case is exact. */
  predicate StartsWithIgnoringCase(s: string, p: string) {
    |p| <= |s| && forall i :: 0 <= i < |p| ==> AsciiLower(s[i]) == p[i]
  }

  /** The WhiteSpace and LineTerminator characters `String.prototype.trim` removes
      (ECMA-262, sections 12.2 and 12.3). */
  predicate IsJsWhitespace(c: char) {
    c == '\t' || c == '\n' || c == '\U{000B}' || c == '\U{000C}' || c == '\r' || c == ' '
    || c == '\U{00A0}' || c == '\U{1680}' || ('\U{2000}' <= c <= '\U{200A}')
    || c == '\U{2028}' || c == '\U{2029}' || c == '\U{202F}' || c == '\U{205F}'
    || c == '\U{3000}' || c == '\U{FEFF}'
  }

  predicate AllJsWhitespace(s: string) {
    forall i :: 0 <= i < |s| ==> IsJsWhitespace(s[i])
  }

  /** The number of white-space characters `s` starts with. */
  function LeadingSpace(s: string): (n: nat)
    ensures n <= |s| && AllJsWhitespace(s[..n])
    ensures n == |s| || !IsJsWhitespace(s[n])
  {
    if s != [] && IsJsWhitespace(s[0]) then
      var n := 1 + LeadingSpace(s[1..]);
      assert s[..n] == [s[0]] + s[1..][..n - 1];
      n
    else 0
  }

  /** Where the white space `s` ends with begins. */
  function TrailingSpace(s: string): (n: nat)
    ensures n <= |s| && AllJsWhitespace(s[n..])
    ensures n == 0 || !IsJsWhitespace(s[n - 1])
  {
    if s != [] && IsJsWhitespace(s[|s| - 1]) then
      var n := TrailingSpace(s[..|s| - 1]);
      assert s[n..] == s[..|s| - 1][n..] + [s[|s| - 1]];
      n
    else |s|
  }

  /** `s.trim()`: the longest infix of `s` that neither starts nor ends with white space,
      with only white space cut off on either side. */
  function Trim(s: string): (r: string)
    ensures exists i, j :: 0 <= i <= j <= |s| && r == s[i..j]
                        && AllJsWhitespace(s[..i]) && AllJsWhitespace(s[j..])
    ensures r == [] || (!IsJsWhitespace(r[0]) && !IsJsWhitespace(r[|r| - 1]))
  {
    var j := TrailingSpace(s);
    var i := LeadingSpace(s[..j]);
    assert s[..j][..i] == s[..i];
    s[i..j]
  }

  /** A string that neither starts nor ends with white space is its own trim. */
  lemma TrimUntouched(s: string)
    requires s != [] && !IsJsWhitespace(s[0]) && !IsJsWhitespace(s[|s| - 1])
    ensures Trim(s) == s
  {
    assert TrailingSpace(s) == |s|;
    assert s[..|s|] == s;
    assert LeadingSpace(s) == 0;
  }

  /** Decimal rendering of a natural number, as template literals print it. */
  function Decimal(n: nat): (r: string)
    ensures |r| > 0 && forall k :: 0 <= k < |r| ==> '0' <= r[k] <= '9'
    ensures DecimalValue(r) == n
  {
    if n < 10 then [('0' as int + n) as char]
    else
      var r := Decimal(n / 10) + [('0' as int + n % 10) as char];
      assert r[..|r| - 1] == Decimal(n / 10);
      r
  }

  /** The value of a string of decimal digits. */
  function DecimalValue(s: string): int
    requires forall k :: 0 <= k < |s| ==> '0' <= s[k] <= '9'
  {
    if s == [] then 0 else 10 * DecimalValue(s[..|s| - 1]) + (s[|s| - 1] as int - '0' as int)
  }
}
