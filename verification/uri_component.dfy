/** `encodeURIComponent` and `decodeURIComponent` of ECMA-262 (section 19.2.6), over
    strings of Unicode scalar values: every character outside the unreserved set is
    written as the percent-escaped bytes of its UTF-8 encoding, with upper-case hex
    digits. */
module UriComponent {
  import opened Wrappers

  type Byte = b: int | 0 <= b < 256

  /** The characters `encodeURIComponent` leaves as they are: ASCII letters and digits and
      `- _ . ! ~ * ' ( )`. */
  predicate IsUnreserved(c: char) {
    ('A' <= c <= 'Z') || ('a' <= c <= 'z') || ('0' <= c <= '9')
    || c == '-' || c == '_' || c == '.' || c == '!' || c == '~' || c == '*'
    || c == '\'' || c == '(' || c == ')'
  }

  predicate IsUpperHexDigit(c: char) {
    ('0' <= c <= '9') || ('A' <= c <= 'F')
  }

  function HexDigit(n: int): (c: char)
    requires 0 <= n < 16
    ensures IsUpperHexDigit(c)
  {
    if n < 10 then ('0' as int + n) as char else ('A' as int + n - 10) as char
  }

  /** The value of a hex digit of either case; None for any other character. */
  function HexValue(c: char): Option<int> {
    if '0' <= c <= '9' then Some(c as int - '0' as int)
    else if 'A' <= c <= 'F' then Some(c as int - 'A' as int + 10)
    else if 'a' <= c <= 'f' then Some(c as int - 'a' as int + 10)
    else None
  }

  lemma HexRoundTrip(n: int)
    requires 0 <= n < 16
    ensures HexValue(HexDigit(n)) == Some(n)
  {
  }

  /** `%XX` for one byte. */
  function Escape(b: Byte): string {
    ['%', HexDigit(b / 16), HexDigit(b % 16)]
  }

  /** The UTF-8 encoding of a scalar value (RFC 3629, section 3), computed by repeated
      division by 64 so that decoding can undo it one step at a time. */
  function Utf8(c: char): (bs: seq<Byte>)
    ensures 1 <= |bs| <= 4
  {
    var n := c as int;
    if n < 0x80 then [n]
    else if n < 0x800 then [0xC0 + n / 64, 0x80 + n % 64]
    else if n < 0x10000 then [0xE0 + n / 64 / 64, 0x80 + n / 64 % 64, 0x80 + n % 64]
    else [0xF0 + n / 64 / 64 / 64, 0x80 + n / 64 / 64 % 64, 0x80 + n / 64 % 64, 0x80 + n % 64]
  }

  function EscapeAll(bs: seq<Byte>): (r: string)
    ensures |r| == 3 * |bs|
  {
    if bs == [] then [] else Escape(bs[0]) + EscapeAll(bs[1..])
  }

  function EncodeChar(c: char): string {
    if IsUnreserved(c) then [c] else EscapeAll(Utf8(c))
  }

  /** `encodeURIComponent(s)`. The result is made only of unreserved characters, `%` and
      upper-case hex digits, so it never contains a delimiter such as `&`, `#`, `=` or `?`. */
  function EncodeURIComponent(s: string): (r: string)
    ensures forall k :: 0 <= k < |r| ==> IsUnreserved(r[k]) || r[k] == '%' || IsUpperHexDigit(r[k])
    ensures |r| >= |s|
  {
    if s == [] then []
    else
      var head := EncodeChar(s[0]);
      EscapeAllAlphabet(Utf8(s[0]));
      head + EncodeURIComponent(s[1..])
  }

  lemma EscapeAllAlphabet(bs: seq<Byte>)
    ensures forall k :: 0 <= k < |EscapeAll(bs)| ==> EscapeAll(bs)[k] == '%' || IsUpperHexDigit(EscapeAll(bs)[k])
  {
    if bs != [] {
      EscapeAllAlphabet(bs[1..]);
      assert EscapeAll(bs) == Escape(bs[0]) + EscapeAll(bs[1..]);
    }
  }

  /** The byte written as `%XX` at index `i`, if there is one. */
  function EscapedByteAt(s: string, i: nat): Option<Byte> {
    if i + 3 <= |s| && s[i] == '%' && HexValue(s[i + 1]).Some? && HexValue(s[i + 2]).Some? then
      Some(16 * HexValue(s[i + 1]).value + HexValue(s[i + 2]).value)
    else None
  }

  /** A UTF-8 continuation byte (10xxxxxx) written as `%XX` at index `i`, as its low six
      bits. */
  function ContinuationAt(s: string, i: nat): Option<int> {
    match EscapedByteAt(s, i)
    case Some(b) => if 0x80 <= b < 0xC0 then Some(b - 0x80) else None
    case None => None
  }

  predicate IsScalar(n: int) {
    (0 <= n < 0xD800) || (0xE000 <= n < 0x110000)
  }

  /** Decodes the first character of a non-empty string: the character and the number of
      input characters it took. None where `decodeURIComponent` throws a URIError: a `%`
      not followed by two hex digits, a stray continuation byte, a lead byte above F7, a
      missing continuation byte, an over-long form, a surrogate or a value above 10FFFF. */
  function DecodeFirst(s: string): Option<(char, nat)>
    requires s != []
  {
    if s[0] != '%' then Some((s[0], 1))
    else match EscapedByteAt(s, 0)
      case None => None
      case Some(b) =>
        if b < 0x80 then Some((b as char, 3))
        else if b < 0xC0 then None
        else if b < 0xE0 then
          match ContinuationAt(s, 3)
          case None => None
          case Some(x1) =>
            var n := (b - 0xC0) * 64 + x1;
            if 0x80 <= n then Some((n as char, 6)) else None
        else if b < 0xF0 then
          match (ContinuationAt(s, 3), ContinuationAt(s, 6))
          case (Some(x1), Some(x2)) =>
            var n := ((b - 0xE0) * 64 + x1) * 64 + x2;
            if 0x800 <= n && IsScalar(n) then Some((n as char, 9)) else None
          case _ => None
        else if b < 0xF8 then
          match (ContinuationAt(s, 3), ContinuationAt(s, 6), ContinuationAt(s, 9))
          case (Some(x1), Some(x2), Some(x3)) =>
            var n := (((b - 0xF0) * 64 + x1) * 64 + x2) * 64 + x3;
            if 0x10000 <= n && IsScalar(n) then Some((n as char, 12)) else None
          case _ => None
        else None
  }

  /** `decodeURIComponent(s)`; None where it throws a URIError. */
  function DecodeURIComponent(s: string): Option<string>
    decreases |s|
  {
    if s == [] then Some([])
    else match DecodeFirst(s)
      case None => None
      case Some((c, k)) =>
        if 1 <= k <= |s| then
          match DecodeURIComponent(s[k..])
          case None => None
          case Some(rest) => Some([c] + rest)
        else None
  }

  lemma EscapeRead(b: Byte, s: string, i: nat)
    requires i + 3 <= |s| && s[i..i + 3] == Escape(b)
    ensures EscapedByteAt(s, i) == Some(b)
  {
    assert s[i] == '%' && s[i + 1] == HexDigit(b / 16) && s[i + 2] == HexDigit(b % 16);
    HexRoundTrip(b / 16);
    HexRoundTrip(b % 16);
  }

  lemma {:induction false} EscapeAllAt(bs: seq<Byte>, k: nat)
    requires k < |bs|
    ensures EscapeAll(bs)[3 * k..3 * k + 3] == Escape(bs[k])
  {
    if k > 0 {
      EscapeAllAt(bs[1..], k - 1);
      assert EscapeAll(bs) == Escape(bs[0]) + EscapeAll(bs[1..]);
    }
  }

  /** The escape of byte `k` of `bs`, read back out of `EscapeAll(bs) + rest`. */
  lemma ReadEscaped(bs: seq<Byte>, rest: string, k: nat)
    requires k < |bs|
    ensures EscapedByteAt(EscapeAll(bs) + rest, 3 * k) == Some(bs[k])
  {
    var e := EscapeAll(bs);
    EscapeAllAt(bs, k);
    SliceOfPrefix(e, rest, 3 * k);
    EscapeRead(bs[k], e + rest, 3 * k);
  }

  lemma {:induction false} SliceOfPrefix(a: string, b: string, i: nat)
    requires i + 3 <= |a|
    ensures (a + b)[i..i + 3] == a[i..i + 3]
  {
  }

  lemma DecodeTwoBytes(c: char, rest: string)
    requires 0x80 <= c as int < 0x800
    ensures DecodeFirst(EscapeAll(Utf8(c)) + rest) == Some((c, 6))
  {
    var bs := Utf8(c);
    ReadEscaped(bs, rest, 0);
    ReadEscaped(bs, rest, 1);
  }

  lemma DecodeThreeBytes(c: char, rest: string)
    requires 0x800 <= c as int < 0x10000
    ensures DecodeFirst(EscapeAll(Utf8(c)) + rest) == Some((c, 9))
  {
    var bs := Utf8(c);
    ReadEscaped(bs, rest, 0);
    ReadEscaped(bs, rest, 1);
    ReadEscaped(bs, rest, 2);
  }

  lemma DecodeFourBytes(c: char, rest: string)
    requires 0x10000 <= c as int
    ensures DecodeFirst(EscapeAll(Utf8(c)) + rest) == Some((c, 12))
  {
    var n := c as int;
    var bs := Utf8(c);
    var s := EscapeAll(bs) + rest;
    ReadEscaped(bs, rest, 0);
    ReadEscaped(bs, rest, 1);
    ReadEscaped(bs, rest, 2);
    ReadEscaped(bs, rest, 3);
    FourByteValue(n);
    var x1, x2, x3 := n / 64 / 64 % 64, n / 64 % 64, n % 64;
    assert ContinuationAt(s, 3) == Some(x1);
    assert ContinuationAt(s, 6) == Some(x2);
    assert ContinuationAt(s, 9) == Some(x3);
    DecodeFourAt(s, bs[0], x1, x2, x3);
  }

  /** A lead byte F0-F7 and three continuation bytes decode to the value they spell. */
  lemma DecodeFourAt(s: string, b: Byte, x1: int, x2: int, x3: int)
    requires s != [] && EscapedByteAt(s, 0) == Some(b) && 0xF0 <= b < 0xF8
    requires ContinuationAt(s, 3) == Some(x1) && ContinuationAt(s, 6) == Some(x2)
    requires ContinuationAt(s, 9) == Some(x3)
    requires 0x10000 <= (((b - 0xF0) * 64 + x1) * 64 + x2) * 64 + x3
    requires IsScalar((((b - 0xF0) * 64 + x1) * 64 + x2) * 64 + x3)
    ensures DecodeFirst(s) == Some((((((b - 0xF0) * 64 + x1) * 64 + x2) * 64 + x3) as char, 12))
  {
  }

  /** The six-bit groups of a four-byte sequence put back together give the value. */
  lemma FourByteValue(n: int)
    requires 0x10000 <= n < 0x110000
    ensures n / 64 / 64 / 64 < 8
    ensures ((n / 64 / 64 / 64 * 64 + n / 64 / 64 % 64) * 64 + n / 64 % 64) * 64 + n % 64 == n
  {
    var a := n / 64;
    var b := a / 64;
    assert b == b / 64 * 64 + b % 64;
    assert a == b * 64 + a % 64;
    assert n == a * 64 + n % 64;
  }

  /** Decoding the encoding of one character, followed by anything, gives back that
      character and consumes exactly its encoding. */
  lemma DecodeEncodedChar(c: char, rest: string)
    ensures DecodeFirst(EncodeChar(c) + rest) == Some((c, |EncodeChar(c)|))
  {
    var n := c as int;
    if !IsUnreserved(c) {
      if n < 0x80 {
        ReadEscaped(Utf8(c), rest, 0);
      } else if n < 0x800 {
        DecodeTwoBytes(c, rest);
      } else if n < 0x10000 {
        DecodeThreeBytes(c, rest);
      } else {
        DecodeFourBytes(c, rest);
      }
    }
  }

  lemma {:induction false} EncodeURIComponentCons(s: string)
    requires s != []
    ensures EncodeURIComponent(s) == EncodeChar(s[0]) + EncodeURIComponent(s[1..])
  {
  }

  /** decodeURIComponent undoes encodeURIComponent on every string. */
  lemma {:induction false} DecodeEncode(s: string)
    ensures DecodeURIComponent(EncodeURIComponent(s)) == Some(s)
    decreases |s|
  {
    if s != [] {
      var e := EncodeURIComponent(s);
      var head := EncodeChar(s[0]);
      var tail := EncodeURIComponent(s[1..]);
      EncodeURIComponentCons(s);
      DecodeEncodedChar(s[0], tail);
      assert e[|head|..] == tail;
      DecodeEncode(s[1..]);
      assert [s[0]] + s[1..] == s;
    }
  }
}
