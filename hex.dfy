/**
 * Base-16 text as the sensor reads and writes it: Python's `int(text, 16)`
 * (every numeric field of an inbound fragment) and `hex(n)` (the price
 * field of the outbound set_current_price command).
 */
module Hex {
  import opened Wrappers

  predicate IsHexDigit(c: char) {
    '0' <= c <= '9' || 'a' <= c <= 'f' || 'A' <= c <= 'F'
  }

  predicate AllHexDigits(s: string) {
    forall i :: 0 <= i < |s| ==> IsHexDigit(s[i])
  }

  function DigitValue(c: char): (v: nat)
    requires IsHexDigit(c)
    ensures v < 16
  {
    if '0' <= c <= '9' then c as int - '0' as int
    else if 'a' <= c <= 'f' then c as int - 'a' as int + 10
    else c as int - 'A' as int + 10
  }

  function Pow16(k: nat): (p: nat)
    ensures p >= 1
  {
    if k == 0 then 1 else 16 * Pow16(k - 1)
  }

  /** The value of a digit string, most significant digit first; it fits in as many digits as it has. */
  function DigitsValue(s: string): (v: nat)
    requires AllHexDigits(s)
    ensures v < Pow16(|s|)
    decreases |s|
  {
    if s == [] then 0
    else
      var init := s[..|s| - 1];
      assert AllHexDigits(init) by {
        forall i | 0 <= i < |init| ensures IsHexDigit(init[i]) { assert init[i] == s[i]; }
      }
      DigitsValue(init) * 16 + DigitValue(s[|s| - 1])
  }

  /** ASCII white space, which `int()` strips from both ends of its argument. */
  predicate IsSpace(c: char) {
    c == ' ' || '\t' <= c <= '\r'
  }

  function TrimLeft(s: string): string {
    if s != [] && IsSpace(s[0]) then TrimLeft(s[1..]) else s
  }

  function TrimRight(s: string): string {
    if s != [] && IsSpace(s[|s| - 1]) then TrimRight(s[..|s| - 1]) else s
  }

  function Strip(s: string): string {
    TrimRight(TrimLeft(s))
  }

  /** The text after an optional leading sign. */
  function Unsigned(t: string): string {
    if t != [] && (t[0] == '-' || t[0] == '+') then t[1..] else t
  }

  /** The text after an optional `0x` or `0X` prefix. */
  function Unprefixed(u: string): string {
    if |u| >= 2 && u[0] == '0' && (u[1] == 'x' || u[1] == 'X') then u[2..] else u
  }

  /** Sign, prefix and digits of text that has already been stripped of white space. */
  function ParseStripped(t: string): Option<int> {
    var digits := Unprefixed(Unsigned(t));
    if digits != [] && AllHexDigits(digits) then
      var magnitude: int := DigitsValue(digits);
      Some(if t[0] == '-' then -magnitude else magnitude)
    else None
  }

  /**
   * Python's `int(text, 16)`: surrounding white space, an optional sign, an
   * optional `0x`/`0X` prefix and at least one hexadecimal digit of either
   * case. `None` stands for the ValueError raised on anything else.
   */
  function ParseHex(text: string): Option<int> {
    ParseStripped(Strip(text))
  }

  predicate IsLowerHexDigit(c: char) {
    '0' <= c <= '9' || 'a' <= c <= 'f'
  }

  predicate AllLowerHex(s: string) {
    forall i :: 0 <= i < |s| ==> IsLowerHexDigit(s[i])
  }

  /** The lower-case digit `hex()` prints for a value below 16. */
  function LowerDigit(k: nat): (c: char)
    requires k < 16
    ensures IsLowerHexDigit(c) && IsHexDigit(c) && DigitValue(c) == k
  {
    if k < 10 then ('0' as int + k) as char else ('a' as int + k - 10) as char
  }

  /** Appending a digit shifts the value one place up and adds the digit. */
  lemma DigitsValueSnoc(s: string, c: char)
    requires AllHexDigits(s) && IsHexDigit(c)
    ensures AllHexDigits(s + [c])
    ensures DigitsValue(s + [c]) == DigitsValue(s) * 16 + DigitValue(c)
  {
    assert (s + [c])[..|s|] == s;
  }

  /**
   * The digits `hex()` prints for a non-negative number: lower case, with no
   * leading zero except for zero itself, and reading back as the number.
   */
  function HexDigits(n: nat): (s: string)
    ensures |s| >= 1 && AllLowerHex(s) && AllHexDigits(s)
    ensures s[0] == '0' ==> n == 0 && s == "0"
    ensures DigitsValue(s) == n
  {
    var last := LowerDigit(n % 16);
    if n < 16 then
      assert [last][..0] == [];
      [last]
    else
      var init := HexDigits(n / 16);
      DigitsValueSnoc(init, last);
      init + [last]
  }

  /** Python's `hex(n)`: `0x` and the digits, with a leading `-` for a negative number. */
  function PyHex(n: int): (s: string)
    ensures |s| >= 3
    ensures n >= 0 ==> s[..2] == "0x" && s[2..] == HexDigits(n)
    ensures n < 0 ==> s[..3] == "-0x" && s[3..] == HexDigits(-n)
  {
    if n < 0 then "-0x" + HexDigits(-n) else "0x" + HexDigits(n)
  }

  lemma StripUnspaced(s: string)
    requires s != [] && !IsSpace(s[0]) && !IsSpace(s[|s| - 1])
    ensures Strip(s) == s
  {
  }

  /** Text with a sign or prefix in front of hex digits has no white space to strip. */
  lemma StripPrefixed(sign: string, d: string)
    requires sign == "-0x" || sign == "0x"
    requires d != [] && AllHexDigits(d)
    ensures Strip(sign + d) == sign + d
  {
    var s := sign + d;
    assert !IsSpace(d[|d| - 1]);
    assert s[|s| - 1] == d[|d| - 1];
    StripUnspaced(s);
  }

  lemma DigitsAfterPrefix(sign: string, d: string)
    requires sign == "-0x" || sign == "0x"
    ensures Unprefixed(Unsigned(sign + d)) == d
  {
    var u := "0x" + d;
    if sign == "-0x" {
      assert (sign + d)[1..] == u;
    }
    assert u[2..] == d;
  }

  /** `int()` reads `0x` followed by digits as the value of the digits, and `-0x` followed by digits as its negation. */
  lemma ParsePrefixed(d: string, negative: bool)
    requires d != [] && AllHexDigits(d)
    ensures ParseHex((if negative then "-0x" else "0x") + d) == Some(if negative then -(DigitsValue(d) as int) else DigitsValue(d))
  {
    var sign := if negative then "-0x" else "0x";
    var t := sign + d;
    StripPrefixed(sign, d);
    assert ParseHex(t) == ParseStripped(t);
    DigitsAfterPrefix(sign, d);
    assert t[0] == '-' <==> negative;
  }

  /** Stripping text made only of white space leaves nothing. */
  lemma {:induction false} TrimLeftBlank(s: string)
    requires forall i :: 0 <= i < |s| ==> IsSpace(s[i])
    ensures TrimLeft(s) == []
    decreases |s|
  {
    if s != [] {
      assert forall i :: 0 <= i < |s[1..]| ==> IsSpace(s[1..][i]) by {
        forall i | 0 <= i < |s[1..]| ensures IsSpace(s[1..][i]) { assert s[1..][i] == s[i + 1]; }
      }
      TrimLeftBlank(s[1..]);
    }
  }

  /** `int(text, 16)` raises ValueError on empty or blank text. */
  lemma ParseHexBlank(text: string)
    requires forall i :: 0 <= i < |text| ==> IsSpace(text[i])
    ensures ParseHex(text) == None
  {
    TrimLeftBlank(text);
  }

  /** Bare digits, without sign or prefix, read as their value. */
  lemma ParseHexPlainDigits(d: string)
    requires d != [] && AllHexDigits(d)
    ensures ParseHex(d) == Some(DigitsValue(d))
  {
    assert IsHexDigit(d[0]) && IsHexDigit(d[|d| - 1]);
    StripUnspaced(d);
    assert |d| >= 2 ==> IsHexDigit(d[1]);
  }

  /** Reading back what `hex()` printed gives the number again, for every integer. */
  lemma ParseHexOfPyHex(n: int)
    ensures ParseHex(PyHex(n)) == Some(n)
  {
    ParsePrefixed(HexDigits(if n < 0 then -n else n), n < 0);
  }
}
