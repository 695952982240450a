/** Hexadecimal digits, written upper-case as Foundation's `%X` format and percent-encoding do. */
module Hex {

  /** Accepts either case, as a percent-decoder must. */
  predicate IsDigit(c: char) {
    '0' <= c <= '9' || 'A' <= c <= 'F' || 'a' <= c <= 'f'
  }

  predicate IsUpperDigit(c: char) {
    '0' <= c <= '9' || 'A' <= c <= 'F'
  }

  function Value(c: char): (d: nat)
    requires IsDigit(c)
    ensures d < 16
  {
    if '0' <= c <= '9' then c as int - '0' as int
    else if 'A' <= c <= 'F' then c as int - 'A' as int + 10
    else c as int - 'a' as int + 10
  }

  /** The upper-case digit for `d`; `Value` reads it back. */
  function Digit(d: nat): (c: char)
    requires d < 16
    ensures IsUpperDigit(c) && IsDigit(c) && Value(c) == d
    ensures c as int < 0x80
  {
    if d < 10 then ('0' as int + d) as char else ('A' as int + d - 10) as char
  }

  function Pow16(w: nat): (p: nat)
    ensures p >= 1
  {
    if w == 0 then 1 else 16 * Pow16(w - 1)
  }

  /** Eight digits hold exactly the 32-bit values. */
  lemma Pow16Eight()
    ensures Pow16(8) == 0x1_0000_0000
  {
    assert Pow16(2) == 0x100;
    assert Pow16(4) == 0x1_0000;
    assert Pow16(6) == 0x100_0000;
  }

  /** `String(format: "%0<w>X", n)` for an `n` that fits in `w` digits. */
  function Fixed(n: nat, w: nat): (s: string)
    requires n < Pow16(w)
    ensures |s| == w
    ensures forall i :: 0 <= i < |s| ==> IsUpperDigit(s[i]) && IsDigit(s[i])
  {
    if w == 0 then "" else Fixed(n / 16, w - 1) + [Digit(n % 16)]
  }

  /** The value of a string of hexadecimal digits. */
  function DigitsValue(s: string): nat
    requires forall i :: 0 <= i < |s| ==> IsDigit(s[i])
  {
    if s == [] then 0 else DigitsValue(s[..|s| - 1]) * 16 + Value(s[|s| - 1])
  }

  /** A fixed-width rendering reads back as the number it renders. */
  lemma {:induction false} FixedRoundTrip(n: nat, w: nat)
    requires n < Pow16(w)
    ensures DigitsValue(Fixed(n, w)) == n
  {
    if w > 0 {
      var s := Fixed(n, w);
      assert s[..|s| - 1] == Fixed(n / 16, w - 1);
      FixedRoundTrip(n / 16, w - 1);
    }
  }
}
