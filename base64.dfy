/**
 * Base64 with the standard alphabet and '=' padding (section 4 of RFC 4648), as
 * Go's base64.StdEncoding does it: EncodeToString, and DecodeString, which skips
 * '\r' and '\n' anywhere, insists on padding, and ignores the unused bits of the
 * last character (StdEncoding is not Strict).
 *
 * Both directions go through symbols, as Go's tables do: the encoder writes 6-bit
 * values (and padding) and spells them with the alphabet; the decoder reads each
 * character through the decode map first.
 */
module Base64 {
  import opened Wrappers
  import opened Utf8

  const PadChar: char := '='

  /** The symbol for '=': no 6-bit value. */
  const PadValue: int := 64

  /** The symbol for a character outside the alphabet (0xFF in Go's decodeMap). */
  const Invalid: int := -1

  /** A character of the standard alphabet: A-Z, a-z, 0-9, '+' and '/'. */
  predicate IsAlphabetChar(c: char) {
    ('A' <= c <= 'Z') || ('a' <= c <= 'z') || ('0' <= c <= '9') || c == '+' || c == '/'
  }

  predicate IsNewline(c: char) { c == '\n' || c == '\r' }

  predicate IsSextet(v: int) { 0 <= v < 64 }

  /** What the encoder writes: a 6-bit value or padding. */
  predicate IsSymbol(v: int) { 0 <= v <= PadValue }

  predicate AllSymbols(v: seq<int>) { forall i :: 0 <= i < |v| ==> IsSymbol(v[i]) }

  /** The character that stands for the 6-bit value i. */
  function IndexToChar(i: int): (c: char)
    requires IsSextet(i)
    ensures IsAlphabetChar(c)
  {
    if i < 26 then ('A' as int + i) as char
    else if i < 52 then ('a' as int + i - 26) as char
    else if i < 62 then ('0' as int + i - 52) as char
    else if i == 62 then '+'
    else '/'
  }

  /** The character written for a symbol. */
  function SymbolChar(v: int): (c: char)
    requires IsSymbol(v)
    ensures IsAlphabetChar(c) || c == PadChar
    ensures !IsNewline(c)
  {
    if v == PadValue then PadChar else IndexToChar(v)
  }

  /** The decoder's reading of one character: its 6-bit value in the alphabet, the padding for '=', Invalid for any other. */
  function CharValue(c: char): (v: int)
    ensures v == Invalid || IsSymbol(v)
    ensures v == Invalid <==> !IsAlphabetChar(c) && c != PadChar
    ensures v == PadValue <==> c == PadChar
  {
    if 'A' <= c <= 'Z' then c as int - 'A' as int
    else if 'a' <= c <= 'z' then c as int - 'a' as int + 26
    else if '0' <= c <= '9' then c as int - '0' as int + 52
    else if c == '+' then 62
    else if c == '/' then 63
    else if c == PadChar then PadValue
    else Invalid
  }

  /** The decode map inverts the alphabet. */
  lemma SymbolRoundTrip(v: int)
    requires IsSymbol(v)
    ensures CharValue(SymbolChar(v)) == v
  {
  }

  /** Three bytes as four 6-bit values. */
  function GroupSymbols(b0: byte, b1: byte, b2: byte): (g: seq<int>)
    ensures |g| == 4 && AllSymbols(g)
  {
    [b0 / 4, (b0 % 4) * 16 + b1 / 16, (b1 % 16) * 4 + b2 / 64, b2 % 64]
  }

  /** One last byte as two values and two paddings ("xx=="). */
  function Tail1Symbols(b0: byte): (g: seq<int>)
    ensures |g| == 4 && AllSymbols(g)
  {
    [b0 / 4, (b0 % 4) * 16, PadValue, PadValue]
  }

  /** Two last bytes as three values and one padding ("xxx="). */
  function Tail2Symbols(b0: byte, b1: byte): (g: seq<int>)
    ensures |g| == 4 && AllSymbols(g)
  {
    [b0 / 4, (b0 % 4) * 16 + b1 / 16, (b1 % 16) * 4, PadValue]
  }

  /** The symbols of the encoding: whole groups, then one padded group for the last one or two bytes. */
  function EncodeSymbols(b: seq<byte>): (v: seq<int>)
    ensures AllSymbols(v)
    ensures (v == []) <==> (b == [])
  {
    if |b| == 0 then []
    else if |b| == 1 then Tail1Symbols(b[0])
    else if |b| == 2 then Tail2Symbols(b[0], b[1])
    else GroupSymbols(b[0], b[1], b[2]) + EncodeSymbols(b[3..])
  }

  /** Spelling symbols with the alphabet, one character each. */
  function Spell(v: seq<int>): (s: string)
    requires AllSymbols(v)
    ensures |s| == |v|
    ensures forall i :: 0 <= i < |v| ==> s[i] == SymbolChar(v[i])
  {
    if v == [] then [] else [SymbolChar(v[0])] + Spell(v[1..])
  }

  /** Reading characters through the decode map, one symbol each. */
  function ReadSymbols(s: string): (v: seq<int>)
    ensures |v| == |s|
    ensures forall i :: 0 <= i < |s| ==> v[i] == CharValue(s[i])
  {
    if s == [] then [] else [CharValue(s[0])] + ReadSymbols(s[1..])
  }

  /** EncodeToString. */
  function Encode(b: seq<byte>): (s: string)
    ensures forall i :: 0 <= i < |s| ==> (IsAlphabetChar(s[i]) || s[i] == PadChar) && !IsNewline(s[i])
    ensures (s == []) <==> (b == [])
  {
    Spell(EncodeSymbols(b))
  }

  /** DecodeString: newlines are dropped first, then the text is read in quanta of four. */
  function Decode(s: string): Option<seq<byte>> {
    DecodeSymbols(ReadSymbols(RemoveNewlines(s)))
  }

  function RemoveNewlines(s: string): (r: string)
    ensures |r| <= |s|
    ensures forall i :: 0 <= i < |r| ==> !IsNewline(r[i])
  {
    if s == [] then []
    else if IsNewline(s[0]) then RemoveNewlines(s[1..])
    else [s[0]] + RemoveNewlines(s[1..])
  }

  /** Every character other than `\r` and `\n` is kept, as often as it occurs; no newline is. */
  lemma {:induction false} RemoveNewlinesKeeps(s: string)
    ensures forall c :: c in RemoveNewlines(s) <==> c in s && !IsNewline(c)
    ensures forall c :: !IsNewline(c) ==> multiset(RemoveNewlines(s))[c] == multiset(s)[c]
    decreases |s|
  {
    if s != [] {
      var x, t := s[0], s[1..];
      assert s == [x] + t;
      RemoveNewlinesKeeps(t);
      RemoveNewlinesStep(x, t);
      var p := if IsNewline(x) then [] else [x];
      assert multiset(s) == multiset{x} + multiset(t);
      assert multiset(RemoveNewlines(s)) == multiset(p) + multiset(RemoveNewlines(t));
    }
  }

  /** One character in front: dropped if it is a newline, kept in front otherwise. */
  lemma RemoveNewlinesStep(x: char, t: string)
    ensures RemoveNewlines([x] + t) == (if IsNewline(x) then [] else [x]) + RemoveNewlines(t)
  {
    assert ([x] + t)[0] == x && ([x] + t)[1..] == t;
  }

  /** Dropping the newlines keeps the order of the other characters: it works piece by piece. */
  lemma {:induction false} RemoveNewlinesConcat(a: string, b: string)
    ensures RemoveNewlines(a + b) == RemoveNewlines(a) + RemoveNewlines(b)
    decreases |a|
  {
    if a == [] {
      assert a + b == b;
    } else {
      var x, t := a[0], a[1..];
      assert a == [x] + t && a + b == [x] + (t + b);
      RemoveNewlinesConcat(t, b);
      RemoveNewlinesStep(x, t + b);
      RemoveNewlinesStep(x, t);
      var p, rt, rb := if IsNewline(x) then [] else [x], RemoveNewlines(t), RemoveNewlines(b);
      assert (p + rt) + rb == p + (rt + rb);
    }
  }

  // The three bytes a quantum of 6-bit values i0..i3 stands for; the bits of a
  // value that fall past the last byte are dropped.

  function Byte0(i0: int, i1: int): byte
    requires IsSextet(i0) && IsSextet(i1)
  {
    i0 * 4 + i1 / 16
  }

  function Byte1(i1: int, i2: int): byte
    requires IsSextet(i1) && IsSextet(i2)
  {
    (i1 % 16) * 16 + i2 / 4
  }

  function Byte2(i2: int, i3: int): byte
    requires IsSextet(i2) && IsSextet(i3)
  {
    (i2 % 4) * 64 + i3
  }

  /**
   * The quantum loop. A quantum is four 6-bit values, or, in last place only, two
   * values and two paddings or three values and one padding; anything else is
   * CorruptInputError (a short quantum, '=' too early, any other character, or text
   * after the padding).
   */
  function DecodeSymbols(v: seq<int>): (r: Option<seq<byte>>)
    decreases |v|
  {
    if v == [] then Some([])
    else if |v| < 4 then None
    else if !IsSextet(v[0]) || !IsSextet(v[1]) then None
    else if v[2] == PadValue then
      if v[3] == PadValue && |v| == 4 then Some([Byte0(v[0], v[1])]) else None
    else if !IsSextet(v[2]) then None
    else if v[3] == PadValue then
      if |v| == 4 then Some([Byte0(v[0], v[1]), Byte1(v[1], v[2])]) else None
    else if !IsSextet(v[3]) then None
    else
      match DecodeSymbols(v[4..])
      case None => None
      case Some(tail) => Some([Byte0(v[0], v[1]), Byte1(v[1], v[2]), Byte2(v[2], v[3])] + tail)
  }

  // The bit arithmetic of one group, by the width of the low part.

  lemma Split16(a: int, r: int)
    requires 0 <= a && 0 <= r < 16
    ensures (a * 16 + r) / 16 == a && (a * 16 + r) % 16 == r
  {
  }

  lemma Split4(a: int, r: int)
    requires 0 <= a && 0 <= r < 4
    ensures (a * 4 + r) / 4 == a && (a * 4 + r) % 4 == r
  {
  }

  /** The 6-bit values of a whole group give the three bytes back. */
  lemma GroupBits(b0: byte, b1: byte, b2: byte)
    ensures var c0, c1, c2, c3 := b0 / 4, (b0 % 4) * 16 + b1 / 16, (b1 % 16) * 4 + b2 / 64, b2 % 64;
      Byte0(c0, c1) == b0 && Byte1(c1, c2) == b1 && Byte2(c2, c3) == b2
  {
    Split16(b0 % 4, b1 / 16);
    Split4(b1 % 16, b2 / 64);
  }

  /** The bits of a last byte written alone ("xx==") give it back. */
  lemma Tail1Bits(b0: byte)
    ensures Byte0(b0 / 4, (b0 % 4) * 16) == b0
  {
    Split16(b0 % 4, 0);
  }

  /** The bits of two last bytes written together ("xxx=") give them back. */
  lemma Tail2Bits(b0: byte, b1: byte)
    ensures var c0, c1, c2 := b0 / 4, (b0 % 4) * 16 + b1 / 16, (b1 % 16) * 4;
      Byte0(c0, c1) == b0 && Byte1(c1, c2) == b1
  {
    Split16(b0 % 4, b1 / 16);
    Split4(b1 % 16, 0);
  }

  /** A whole group's symbols, followed by symbols that decode, decode to its three bytes first. */
  lemma GroupRoundTrip(b0: byte, b1: byte, b2: byte, rest: seq<int>)
    requires DecodeSymbols(rest).Some?
    ensures DecodeSymbols(GroupSymbols(b0, b1, b2) + rest) == Some([b0, b1, b2] + DecodeSymbols(rest).value)
  {
    var g := GroupSymbols(b0, b1, b2);
    assert IsSextet(g[0]) && IsSextet(g[1]) && IsSextet(g[2]) && IsSextet(g[3]);
    var v := g + rest;
    assert v[0] == g[0] && v[1] == g[1] && v[2] == g[2] && v[3] == g[3] && v[4..] == rest;
    GroupBits(b0, b1, b2);
  }

  lemma Tail1RoundTrip(b0: byte)
    ensures DecodeSymbols(Tail1Symbols(b0)) == Some([b0])
  {
    var g := Tail1Symbols(b0);
    assert IsSextet(g[0]) && IsSextet(g[1]) && g[2] == PadValue && g[3] == PadValue && |g| == 4;
    Tail1Bits(b0);
  }

  lemma Tail2RoundTrip(b0: byte, b1: byte)
    ensures DecodeSymbols(Tail2Symbols(b0, b1)) == Some([b0, b1])
  {
    var g := Tail2Symbols(b0, b1);
    assert IsSextet(g[0]) && IsSextet(g[1]) && IsSextet(g[2]) && g[2] != PadValue;
    assert g[3] == PadValue && |g| == 4;
    Tail2Bits(b0, b1);
  }

  /** The symbols of the encoding decode back to the bytes. */
  lemma {:induction false} SymbolsRoundTrip(b: seq<byte>)
    ensures DecodeSymbols(EncodeSymbols(b)) == Some(b)
    decreases |b|
  {
    if |b| == 1 {
      assert b == [b[0]];
      Tail1RoundTrip(b[0]);
    } else if |b| == 2 {
      assert b == [b[0], b[1]];
      Tail2RoundTrip(b[0], b[1]);
    } else if |b| >= 3 {
      var t := b[3..];
      SymbolsRoundTrip(t);
      GroupRoundTrip(b[0], b[1], b[2], EncodeSymbols(t));
      assert b == [b[0], b[1], b[2]] + t;
    }
  }

  /** Reading back what was spelled gives the symbols. */
  lemma ReadSpelled(v: seq<int>)
    requires AllSymbols(v)
    ensures ReadSymbols(Spell(v)) == v
  {
    var r := ReadSymbols(Spell(v));
    forall i | 0 <= i < |v|
      ensures r[i] == v[i]
    {
      SymbolRoundTrip(v[i]);
    }
  }

  lemma {:induction false} NoNewlinesUnchanged(s: string)
    requires forall i :: 0 <= i < |s| ==> !IsNewline(s[i])
    ensures RemoveNewlines(s) == s
  {
    if s != [] {
      NoNewlinesUnchanged(s[1..]);
    }
  }

  /** Round trip: DecodeString(EncodeToString(b)) gives b back, for every byte string. */
  lemma DecodeEncode(b: seq<byte>)
    ensures Decode(Encode(b)) == Some(b)
  {
    NoNewlinesUnchanged(Encode(b));
    ReadSpelled(EncodeSymbols(b));
    SymbolsRoundTrip(b);
  }

  /** The length of the encoding: four characters per started group of three bytes. */
  lemma {:induction false} EncodedLength(b: seq<byte>)
    ensures |Encode(b)| % 4 == 0 && |Encode(b)| == 4 * ((|b| + 2) / 3)
    decreases |b|
  {
    if |b| >= 3 {
      var t := b[3..];
      EncodedLength(t);
      assert EncodeSymbols(b) == GroupSymbols(b[0], b[1], b[2]) + EncodeSymbols(t);
      assert (|b| + 2) / 3 == (|t| + 2) / 3 + 1;
    }
  }

  /**
   * A character that is neither in the standard alphabet, nor '=', nor a newline makes
   * decoding fail wherever it stands; in particular the URL-safe '-' and '_' of
   * section 5 of RFC 4648 are refused.
   */
  lemma ForeignCharRejected(s: string, i: int)
    requires 0 <= i < |s|
    requires !IsAlphabetChar(s[i]) && s[i] != PadChar && !IsNewline(s[i])
    ensures Decode(s) == None
  {
    var r := RemoveNewlines(s);
    RemoveNewlinesKeeps(s);
    assert s[i] in s;
    var j :| 0 <= j < |r| && r[j] == s[i];
    var v := ReadSymbols(r);
    assert v[j] == Invalid;
    SymbolsRejectInvalid(v, j);
  }

  lemma {:induction false} SymbolsRejectInvalid(v: seq<int>, j: int)
    requires 0 <= j < |v| && v[j] == Invalid
    ensures DecodeSymbols(v) == None
    decreases |v|
  {
    if |v| >= 4 && j >= 4 {
      SymbolsRejectInvalid(v[4..], j - 4);
    }
  }

  /** What DecodeString accepts: once newlines are removed, whole quanta, three bytes for each but the last. */
  lemma DecodedLength(s: string)
    requires Decode(s).Some?
    ensures var r := RemoveNewlines(s); var n := |Decode(s).value|;
      |r| % 4 == 0 && n <= 3 * (|r| / 4) && (r != [] ==> n > 3 * (|r| / 4) - 3)
  {
    SymbolsLength(ReadSymbols(RemoveNewlines(s)));
  }

  lemma {:induction false} SymbolsLength(v: seq<int>)
    requires DecodeSymbols(v).Some?
    ensures |v| % 4 == 0
    ensures var n := |DecodeSymbols(v).value|; n <= 3 * (|v| / 4) && (v != [] ==> n > 3 * (|v| / 4) - 3)
    decreases |v|
  {
    if v != [] && v[2] != PadValue && v[3] != PadValue {
      var t := v[4..];
      assert DecodeSymbols(t).Some? && |DecodeSymbols(v).value| == 3 + |DecodeSymbols(t).value|;
      SymbolsLength(t);
      assert |v| / 4 == |t| / 4 + 1;
    }
  }
}
