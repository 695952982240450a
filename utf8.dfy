/**
  UTF-8 encoding (RFC 3629, section 3), which Foundation applies in
  `String.data(using: .utf8)`. A Dafny `char` is a Unicode scalar value, so
  every string is encodable and the encoding never fails.
*/
module Utf8 {
  import opened Bytes

  /** True when `c` is in the ASCII range, the only range UTF-8 encodes as itself. */
  predicate IsAscii(c: char) {
    c as int < 0x80
  }

  /** The one to four bytes that encode one scalar value. */
  function EncodeScalar(c: char): (r: Bytes)
    ensures 1 <= |r| <= 4
    ensures IsAscii(c) ==> r == [c as int]
    ensures !IsAscii(c) ==> forall i :: 0 <= i < |r| ==> r[i] >= 0x80
  {
    var n := c as int;
    if n < 0x80 then
      [n]
    else if n < 0x800 then
      [0xC0 + n / 0x40, 0x80 + n % 0x40]
    else if n < 0x1_0000 then
      [0xE0 + n / 0x1000, 0x80 + n / 0x40 % 0x40, 0x80 + n % 0x40]
    else
      [0xF0 + n / 0x4_0000, 0x80 + n / 0x1000 % 0x40, 0x80 + n / 0x40 % 0x40, 0x80 + n % 0x40]
  }

  /** `s.data(using: .utf8)`. */
  function Encode(s: string): (r: Bytes)
    ensures |s| <= |r| <= 4 * |s|
  {
    if s == [] then [] else EncodeScalar(s[0]) + Encode(s[1..])
  }

  /** Encoding distributes over concatenation, so a string built from pieces encodes piece by piece. */
  lemma {:induction false} EncodeAppend(a: string, b: string)
    ensures Encode(a + b) == Encode(a) + Encode(b)
  {
    if a == [] {
      assert a + b == b;
    } else {
      assert (a + b)[0] == a[0];
      assert (a + b)[1..] == a[1..] + b;
      EncodeAppend(a[1..], b);
    }
  }
}
