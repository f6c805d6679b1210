/**
 * UTF-8 as Go's unicode/utf8 package does it: the encoder used by encoding/json
 * when it copies a non-ASCII rune, and utf8.DecodeRune, which the JSON reader uses
 * to coerce raw string bytes into runes (an ill-formed byte becomes U+FFFD).
 *
 * A Dafny `char` is a Unicode scalar value, so every `string` here is well-formed.
 */
module Utf8 {

  type byte = b: int | 0 <= b < 256

  /** U+FFFD, Go's utf8.RuneError. */
  const RuneError: char := '\U{FFFD}'

  predicate IsContinuation(b: int) { 0x80 <= b <= 0xBF }

  /** The UTF-8 encoding of one scalar value: one byte below U+0080, else a lead byte and continuation bytes. */
  function EncodeChar(c: char): (r: seq<byte>)
    ensures 1 <= |r| <= 4
    ensures |r| == 1 <==> (c as int) < 0x80
    ensures |r| == 1 ==> r[0] == c as int
    ensures |r| > 1 ==> forall i :: 0 <= i < |r| ==> r[i] >= 0x80
  {
    var n := c as int;
    if n < 0x80 then [n]
    else if n < 0x800 then [0xC0 + n / 64, 0x80 + n % 64]
    else if n < 0x10000 then [0xE0 + n / 4096, 0x80 + (n / 64) % 64, 0x80 + n % 64]
    else [0xF0 + n / 262144, 0x80 + (n / 4096) % 64, 0x80 + (n / 64) % 64, 0x80 + n % 64]
  }

  /**
   * Go's utf8.DecodeRune: the first rune of s and the number of bytes it takes.
   * Only the shortest form of a scalar value is accepted (Table 3-7 of the Unicode
   * standard); anything else, including a truncated sequence, yields (RuneError, 1).
   */
  function DecodeRune(s: seq<byte>): (r: (char, nat))
    requires |s| > 0
    ensures 1 <= r.1 <= 4 && r.1 <= |s|
  {
    var b0: int := s[0];
    var b1: int := if |s| > 1 then s[1] else 0;
    var b2: int := if |s| > 2 then s[2] else 0;
    var b3: int := if |s| > 3 then s[3] else 0;
    if b0 < 0x80 then (b0 as char, 1)
    else if b0 < 0xC2 || b0 > 0xF4 then (RuneError, 1)
    else
      var size := if b0 < 0xE0 then 2 else if b0 < 0xF0 then 3 else 4;
      var lo := if b0 == 0xE0 then 0xA0 else if b0 == 0xF0 then 0x90 else 0x80;
      var hi := if b0 == 0xED then 0x9F else if b0 == 0xF4 then 0x8F else 0xBF;
      if |s| < size || b1 < lo || hi < b1 then (RuneError, 1)
      else if size == 2 then (((b0 - 0xC0) * 64 + (b1 - 0x80)) as char, 2)
      else if !IsContinuation(b2) then (RuneError, 1)
      else if size == 3 then (((b0 - 0xE0) * 4096 + (b1 - 0x80) * 64 + (b2 - 0x80)) as char, 3)
      else if !IsContinuation(b3) then (RuneError, 1)
      else (((b0 - 0xF0) * 262144 + (b1 - 0x80) * 4096 + (b2 - 0x80) * 64 + (b3 - 0x80)) as char, 4)
  }

  /** Decoding the encoding of a scalar value gives it back, whatever follows it. */
  lemma DecodeEncodeChar(c: char, rest: seq<byte>)
    ensures DecodeRune(EncodeChar(c) + rest) == (c, |EncodeChar(c)|)
  {
    var n := c as int;
    if n < 0x80 {
      assert (EncodeChar(c) + rest)[0] == n;
    } else if n < 0x800 {
      DecodeEncode2(c, rest);
    } else if n < 0x10000 {
      DecodeEncode3(c, rest);
    } else {
      DecodeEncode4(c, rest);
    }
  }

  lemma DecodeEncode2(c: char, rest: seq<byte>)
    requires 0x80 <= c as int < 0x800
    ensures DecodeRune(EncodeChar(c) + rest) == (c, 2)
  {
    var n := c as int;
    var s := EncodeChar(c) + rest;
    assert s[0] == 0xC0 + n / 64 && s[1] == 0x80 + n % 64;
    assert (n / 64) * 64 + n % 64 == n;
  }

  lemma DecodeEncode3(c: char, rest: seq<byte>)
    requires 0x800 <= c as int < 0x10000
    ensures DecodeRune(EncodeChar(c) + rest) == (c, 3)
  {
    var n := c as int;
    var hi, mid, lo := n / 4096, (n / 64) % 64, n % 64;
    Parts3(n);
    var s := EncodeChar(c) + rest;
    assert s[0] == 0xE0 + hi && s[1] == 0x80 + mid && s[2] == 0x80 + lo;
  }

  lemma DecodeEncode4(c: char, rest: seq<byte>)
    requires 0x10000 <= c as int
    ensures DecodeRune(EncodeChar(c) + rest) == (c, 4)
  {
    var n := c as int;
    var hi, m3, m2, m1 := n / 262144, (n / 4096) % 64, (n / 64) % 64, n % 64;
    Parts4(n);
    var s := EncodeChar(c) + rest;
    assert s[0] == 0xF0 + hi && s[1] == 0x80 + m3 && s[2] == 0x80 + m2 && s[3] == 0x80 + m1;
  }

  /** The three digits of a three-byte scalar value, and the second-byte bounds the decoder checks. */
  lemma Parts3(n: int)
    requires 0x800 <= n < 0x10000 && !(0xD800 <= n < 0xE000)
    ensures var hi, mid, lo := n / 4096, (n / 64) % 64, n % 64;
      hi * 4096 + mid * 64 + lo == n && 0 <= hi < 16
      && (hi == 0 ==> mid >= 32) && (hi == 13 ==> mid < 32)
  {
    var q, lo := n / 64, n % 64;
    var hi, mid := q / 64, q % 64;
    assert n == q * 64 + lo;
    assert q == hi * 64 + mid;
    assert n / 4096 == hi;
  }

  /** The four digits of a four-byte scalar value, and the second-byte bounds the decoder checks. */
  lemma Parts4(n: int)
    requires 0x10000 <= n < 0x110000
    ensures var hi, m3, m2, m1 := n / 262144, (n / 4096) % 64, (n / 64) % 64, n % 64;
      hi * 262144 + m3 * 4096 + m2 * 64 + m1 == n && 0 <= hi <= 4
      && (hi == 0 ==> m3 >= 16) && (hi == 4 ==> m3 < 16)
  {
    var q1, m1 := n / 64, n % 64;
    var q2, m2 := q1 / 64, q1 % 64;
    var hi, m3 := q2 / 64, q2 % 64;
    assert n == q1 * 64 + m1 && q1 == q2 * 64 + m2 && q2 == hi * 64 + m3;
    assert n / 4096 == q2 && n / 262144 == hi;
  }

  /**
   * Conversely, whatever DecodeRune accepts (anything but its error result) is exactly
   * the encoding of the rune it returns: the decoder only takes well-formed input.
   */
  lemma DecodeRuneIsEncoding(s: seq<byte>)
    requires |s| > 0
    requires DecodeRune(s) != (RuneError, 1)
    ensures s[..DecodeRune(s).1] == EncodeChar(DecodeRune(s).0)
  {
    var size := DecodeRune(s).1;
    if size == 2 {
      TwoByteForm(s);
    } else if size == 3 {
      ThreeByteForm(s);
    } else if size == 4 {
      FourByteForm(s);
    }
  }

  lemma TwoByteForm(s: seq<byte>)
    requires |s| > 1 && 0xC2 <= s[0] < 0xE0 && IsContinuation(s[1])
    ensures DecodeRune(s).1 == 2 && s[..2] == EncodeChar(DecodeRune(s).0)
  {
    Digits2(s[0] - 0xC0, s[1] - 0x80);
  }

  lemma ThreeByteForm(s: seq<byte>)
    requires |s| > 2 && 0xE0 <= s[0] < 0xF0 && DecodeRune(s).1 == 3
    ensures s[..3] == EncodeChar(DecodeRune(s).0)
  {
    Digits3(s[0] - 0xE0, s[1] - 0x80, s[2] - 0x80);
  }

  lemma FourByteForm(s: seq<byte>)
    requires |s| > 3 && 0xF0 <= s[0] && DecodeRune(s).1 == 4
    ensures s[..4] == EncodeChar(DecodeRune(s).0)
  {
    Digits4(s[0] - 0xF0, s[1] - 0x80, s[2] - 0x80, s[3] - 0x80);
  }

  // Base-64 digit arithmetic behind the multi-byte forms.

  lemma Digits2(x0: int, x1: int)
    requires 0 <= x0 && 0 <= x1 < 64
    ensures (x0 * 64 + x1) / 64 == x0 && (x0 * 64 + x1) % 64 == x1
  {
  }

  lemma Digits3(x0: int, x1: int, x2: int)
    requires 0 <= x0 && 0 <= x1 < 64 && 0 <= x2 < 64
    ensures var n := x0 * 4096 + x1 * 64 + x2;
      n / 4096 == x0 && (n / 64) % 64 == x1 && n % 64 == x2
  {
    var n := x0 * 4096 + x1 * 64 + x2;
    Digits2(x0 * 64 + x1, x2);
    Digits2(x0, x1);
    assert n == (x0 * 64 + x1) * 64 + x2;
  }

  lemma Digits4(x0: int, x1: int, x2: int, x3: int)
    requires 0 <= x0 && 0 <= x1 < 64 && 0 <= x2 < 64 && 0 <= x3 < 64
    ensures var n := x0 * 262144 + x1 * 4096 + x2 * 64 + x3;
      n / 262144 == x0 && (n / 4096) % 64 == x1 && (n / 64) % 64 == x2 && n % 64 == x3
  {
    var n := x0 * 262144 + x1 * 4096 + x2 * 64 + x3;
    Digits3(x0 * 64 + x1, x2, x3);
    Digits2(x0, x1);
    assert n == (x0 * 64 + x1) * 4096 + x2 * 64 + x3;
  }
}
