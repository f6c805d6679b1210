/**
 * The part of Go's encoding/json (RFC 8259) that the cursor codec uses.
 *
 * Writer: json.Marshal's string quoting with HTML escaping on, as in Go before 1.22:
 * '"' and '\' are backslash-escaped, newline, carriage return and tab get their short
 * escapes, every other byte below 0x20 and '<', '>', '&' become \u00XX with lower-case
 * hex, U+2028 and U+2029 become the six-byte escapes backslash-u-2028 and
 * backslash-u-2029, and every other rune is copied as UTF-8.
 *
 * Reader: the syntax json.Unmarshal checks before decoding (its scanner, including the
 * nesting limit of 10000), producing a value tree; strings are unquoted as Go does it
 * (escapes, surrogate pairs, U+FFFD for a lone surrogate or an ill-formed byte).
 */
module Json {
  import opened Wrappers
  import opened Utf8

  /** Go's maxNestingDepth: at most this many arrays and objects may be open at once. */
  const MaxNestingDepth: nat := 10000

  datatype Value =
    | Null
    | Bool(b: bool)
    | Number(literal: seq<byte>)
    | String(s: string)
    | Array(items: seq<Value>)
    | Object(members: seq<Member>)

  datatype Member = Member(key: string, value: Value)

  /** A parser's result: the value read and the input after it. */
  datatype Parsed<T> = Parsed(value: T, rest: seq<byte>)

  // Byte values of the ASCII characters the grammar uses.
  const QuoteMark: byte := 0x22
  const Backslash: byte := 0x5C
  const Slash: byte := 0x2F
  const Colon: byte := 0x3A
  const Comma: byte := 0x2C
  const OpenBrace: byte := 0x7B
  const CloseBrace: byte := 0x7D
  const OpenBracket: byte := 0x5B
  const CloseBracket: byte := 0x5D
  const Minus: byte := 0x2D
  const Plus: byte := 0x2B
  const Dot: byte := 0x2E

  /** The byte of an ASCII character. */
  function Ascii(c: char): byte
    requires (c as int) < 0x80
  {
    c as int
  }

  function AsciiBytes(s: string): (r: seq<byte>)
    requires forall i :: 0 <= i < |s| ==> (s[i] as int) < 0x80
    ensures |r| == |s| && forall i :: 0 <= i < |s| ==> r[i] == s[i] as int
  {
    if s == [] then [] else [Ascii(s[0])] + AsciiBytes(s[1..])
  }

  // ---------------------------------------------------------------------------
  // Writer

  /** "0123456789abcdef"[n]. */
  function HexDigit(n: int): (b: byte)
    requires 0 <= n < 16
    ensures HexValue(b) == Some(n)
  {
    if n < 10 then 0x30 + n else 0x61 + n - 10
  }

  /** Bytes json.Marshal may copy into a string unescaped when HTML escaping is on. */
  predicate IsHtmlSafe(b: byte) {
    0x20 <= b < 0x80 && b != QuoteMark && b != Backslash && b != 0x3C && b != 0x3E && b != 0x26
  }

  /** The bytes json.Marshal writes for one rune of a string. */
  function EscapeChar(c: char): (r: seq<byte>)
    ensures |r| >= 1 && r[0] != QuoteMark
    ensures forall i :: 0 <= i < |r| ==> r[i] >= 0x20 && r[i] != 0x3C && r[i] != 0x3E && r[i] != 0x26
    ensures (c as int) < 0x80 && IsHtmlSafe(c as int) <==> r == [c as int]
  {
    var n := c as int;
    if n < 0x80 then
      if IsHtmlSafe(n) then [n]
      else if n == QuoteMark || n == Backslash then [Backslash, n]
      else if c == '\n' then [Backslash, Ascii('n')]
      else if c == '\r' then [Backslash, Ascii('r')]
      else if c == '\t' then [Backslash, Ascii('t')]
      else [Backslash, Ascii('u'), Ascii('0'), Ascii('0'), HexDigit(n / 16), HexDigit(n % 16)]
    else if c == '\U{2028}' || c == '\U{2029}' then
      [Backslash, Ascii('u'), Ascii('2'), Ascii('0'), Ascii('2'), HexDigit(n % 16)]
    else EncodeChar(c)
  }

  function QuoteBody(s: string): (r: seq<byte>)
    ensures r != [] ==> r[0] != QuoteMark
  {
    if s == [] then [] else EscapeChar(s[0]) + QuoteBody(s[1..])
  }

  /** A string as a JSON string literal, as json.Marshal writes it. */
  function Quote(s: string): (r: seq<byte>)
    ensures |r| >= 2 && r[0] == QuoteMark && r[|r| - 1] == QuoteMark
  {
    [QuoteMark] + QuoteBody(s) + [QuoteMark]
  }

  // ---------------------------------------------------------------------------
  // Reader

  /** The scanner's isSpace: space, tab, newline, carriage return. */
  predicate IsWhitespace(b: byte) { b == 0x20 || b == 0x09 || b == 0x0A || b == 0x0D }

  predicate IsDigit(b: byte) { 0x30 <= b <= 0x39 }

  function SkipWhitespace(s: seq<byte>): (r: seq<byte>)
    ensures |r| <= |s|
    ensures r != [] ==> !IsWhitespace(r[0])
  {
    if s != [] && IsWhitespace(s[0]) then SkipWhitespace(s[1..]) else s
  }

  function SkipDigits(s: seq<byte>): (r: seq<byte>)
    ensures |r| <= |s|
    ensures r != [] ==> !IsDigit(r[0])
  {
    if s != [] && IsDigit(s[0]) then SkipDigits(s[1..]) else s
  }

  /** The value of a hexadecimal digit, either case. */
  function HexValue(b: byte): (r: Option<int>)
    ensures r.Some? ==> 0 <= r.value < 16
  {
    if 0x30 <= b <= 0x39 then Some(b - 0x30)
    else if 0x61 <= b <= 0x66 then Some(b - 0x61 + 10)
    else if 0x41 <= b <= 0x46 then Some(b - 0x41 + 10)
    else None
  }

  /** Go's getu4: the four hex digits of "\uXXXX" at s[i..i+6], or None. */
  function Hex4(s: seq<byte>, i: nat): (r: Option<int>)
    ensures r.Some? ==> 0 <= r.value < 0x10000 && i + 6 <= |s|
  {
    if i + 6 > |s| || s[i] != Backslash || s[i + 1] != Ascii('u') then None
    else
      var h0, h1, h2, h3 := HexValue(s[i + 2]), HexValue(s[i + 3]), HexValue(s[i + 4]), HexValue(s[i + 5]);
      if h0.None? || h1.None? || h2.None? || h3.None? then None
      else Some(((h0.value * 16 + h1.value) * 16 + h2.value) * 16 + h3.value)
  }

  predicate IsSurrogate(r: int) { 0xD800 <= r < 0xE000 }

  /**
   * The rune of an escape sequence at the start of s (s[0] is the backslash) and its
   * length. A \u escape of a high surrogate followed by a \u escape of a low surrogate
   * is one rune; any other surrogate becomes U+FFFD and only its own six bytes are taken.
   */
  function ParseEscape(s: seq<byte>): (r: Option<(char, nat)>)
    requires |s| > 0 && s[0] == Backslash
    ensures r.Some? ==> 2 <= r.value.1 <= |s|
  {
    if |s| < 2 then None
    else
      var e := s[1];
      if e == QuoteMark || e == Backslash || e == Slash then Some((e as char, 2))
      else if e == Ascii('b') then Some(('\U{0008}', 2))
      else if e == Ascii('f') then Some(('\U{000C}', 2))
      else if e == Ascii('n') then Some(('\n', 2))
      else if e == Ascii('r') then Some(('\r', 2))
      else if e == Ascii('t') then Some(('\t', 2))
      else if e == Ascii('u') then
        match Hex4(s, 0)
        case None => None
        case Some(r1) =>
          if !IsSurrogate(r1) then Some((r1 as char, 6))
          else
            var r2 := Hex4(s, 6);
            if r1 < 0xDC00 && r2.Some? && 0xDC00 <= r2.value < 0xE000 then
              Some((((r1 - 0xD800) * 0x400 + (r2.value - 0xDC00) + 0x10000) as char, 12))
            else Some((RuneError, 6))
      else None
  }

  /** One rune of a string's contents and its length in bytes; ill-formed UTF-8 gives U+FFFD. */
  function ParseStringChar(s: seq<byte>): (r: Option<(char, nat)>)
    requires |s| > 0 && s[0] != QuoteMark
    ensures r.Some? ==> 1 <= r.value.1 <= |s|
  {
    if s[0] < 0x20 then None
    else if s[0] == Backslash then ParseEscape(s)
    else if s[0] < 0x80 then Some((s[0] as char, 1))
    else Some(DecodeRune(s))
  }

  /** The contents of a string literal after its opening quote, up to and including the closing quote. */
  function ParseStringBody(s: seq<byte>): (r: Option<Parsed<string>>)
    ensures r.Some? ==> |r.value.rest| < |s|
    decreases |s|
  {
    if s == [] then None
    else if s[0] == QuoteMark then Some(Parsed([], s[1..]))
    else
      match ParseStringChar(s)
      case None => None
      case Some((c, n)) =>
        match ParseStringBody(s[n..])
        case None => None
        case Some(Parsed(cs, rest)) => Some(Parsed([c] + cs, rest))
  }

  /** A literal word (true, false, null) at the start of s. */
  function ParseWord(s: seq<byte>, word: string, v: Value): (r: Option<Parsed<Value>>)
    requires |word| > 0 && forall i :: 0 <= i < |word| ==> (word[i] as int) < 0x80
    ensures r.Some? ==> |r.value.rest| < |s|
  {
    var w := AsciiBytes(word);
    if |s| >= |w| && s[..|w|] == w then Some(Parsed(v, s[|w|..])) else None
  }

  /** A number: '-'?, then 0 or a digit string not starting with 0, then an optional fraction and exponent. */
  function ParseNumber(s: seq<byte>): (r: Option<Parsed<Value>>)
    ensures r.Some? ==> |r.value.rest| < |s|
  {
    var t := if s != [] && s[0] == Minus then s[1..] else s;
    if t == [] || !IsDigit(t[0]) then None
    else
      var t1 := if t[0] == Ascii('0') then t[1..] else SkipDigits(t[1..]);
      var fraction := t1 != [] && t1[0] == Dot;
      if fraction && (|t1| < 2 || !IsDigit(t1[1])) then None
      else
        var t2 := if fraction then SkipDigits(t1[2..]) else t1;
        var exponent := t2 != [] && (t2[0] == Ascii('e') || t2[0] == Ascii('E'));
        var t3 := if exponent && |t2| > 1 && (t2[1] == Plus || t2[1] == Minus) then t2[2..]
                  else if exponent then t2[1..] else t2;
        if exponent && (t3 == [] || !IsDigit(t3[0])) then None
        else
          var rest := if exponent then SkipDigits(t3[1..]) else t3;
          Some(Parsed(Number(s[..|s| - |rest|]), rest))
  }

  /**
   * One value at the start of s (no leading whitespace); depth is how many arrays and
   * objects are open around it.
   */
  function ParseValue(s: seq<byte>, depth: nat): (r: Option<Parsed<Value>>)
    ensures r.Some? ==> |r.value.rest| < |s|
    decreases |s|, 0
  {
    if s == [] then None
    else if s[0] == OpenBrace then
      if depth + 1 > MaxNestingDepth then None else ParseObject(s[1..], depth + 1)
    else if s[0] == OpenBracket then
      if depth + 1 > MaxNestingDepth then None else ParseArray(s[1..], depth + 1)
    else if s[0] == QuoteMark then
      match ParseStringBody(s[1..])
      case None => None
      case Some(Parsed(str, rest)) => Some(Parsed(String(str), rest))
    else if s[0] == Ascii('t') then ParseWord(s, "true", Bool(true))
    else if s[0] == Ascii('f') then ParseWord(s, "false", Bool(false))
    else if s[0] == Ascii('n') then ParseWord(s, "null", Null)
    else if s[0] == Minus || IsDigit(s[0]) then ParseNumber(s)
    else None
  }

  /** An object after its '{'. */
  function ParseObject(s: seq<byte>, depth: nat): (r: Option<Parsed<Value>>)
    ensures r.Some? ==> |r.value.rest| < |s|
    decreases |s|, 2
  {
    var t := SkipWhitespace(s);
    if t != [] && t[0] == CloseBrace then Some(Parsed(Object([]), t[1..]))
    else
      match ParseMembers(t, depth)
      case None => None
      case Some(Parsed(ms, rest)) => Some(Parsed(Object(ms), rest))
  }

  /** The members of an object, the first one starting at s, up to and including the '}'. */
  function ParseMembers(s: seq<byte>, depth: nat): (r: Option<Parsed<seq<Member>>>)
    ensures r.Some? ==> |r.value.rest| < |s|
    decreases |s|, 1
  {
    if s == [] || s[0] != QuoteMark then None
    else
      match ParseStringBody(s[1..])
      case None => None
      case Some(Parsed(key, r1)) =>
        var r2 := SkipWhitespace(r1);
        if r2 == [] || r2[0] != Colon then None
        else
          match ParseValue(SkipWhitespace(r2[1..]), depth)
          case None => None
          case Some(Parsed(v, r3)) =>
            var r4 := SkipWhitespace(r3);
            if r4 != [] && r4[0] == CloseBrace then Some(Parsed([Member(key, v)], r4[1..]))
            else if r4 != [] && r4[0] == Comma then
              match ParseMembers(SkipWhitespace(r4[1..]), depth)
              case None => None
              case Some(Parsed(ms, rest)) => Some(Parsed([Member(key, v)] + ms, rest))
            else None
  }

  /** An array after its '['. */
  function ParseArray(s: seq<byte>, depth: nat): (r: Option<Parsed<Value>>)
    ensures r.Some? ==> |r.value.rest| < |s|
    decreases |s|, 2
  {
    var t := SkipWhitespace(s);
    if t != [] && t[0] == CloseBracket then Some(Parsed(Array([]), t[1..]))
    else
      match ParseElements(t, depth)
      case None => None
      case Some(Parsed(vs, rest)) => Some(Parsed(Array(vs), rest))
  }

  /** The elements of an array, the first one starting at s, up to and including the ']'. */
  function ParseElements(s: seq<byte>, depth: nat): (r: Option<Parsed<seq<Value>>>)
    ensures r.Some? ==> |r.value.rest| < |s|
    decreases |s|, 1
  {
    match ParseValue(s, depth)
    case None => None
    case Some(Parsed(v, r1)) =>
      var r2 := SkipWhitespace(r1);
      if r2 != [] && r2[0] == CloseBracket then Some(Parsed([v], r2[1..]))
      else if r2 != [] && r2[0] == Comma then
        match ParseElements(SkipWhitespace(r2[1..]), depth)
        case None => None
        case Some(Parsed(vs, rest)) => Some(Parsed([v] + vs, rest))
      else None
  }

  /** A whole JSON text: one value with optional whitespace around it and nothing else. */
  function Parse(s: seq<byte>): Option<Value> {
    match ParseValue(SkipWhitespace(s), 0)
    case None => None
    case Some(Parsed(v, rest)) => if SkipWhitespace(rest) == [] then Some(v) else None
  }

  // ---------------------------------------------------------------------------
  // Field-name matching

  /**
   * Whether an object key selects a struct field with the given ASCII name. Go tries
   * the exact name, then a case-insensitive comparison (equalFoldRight, used for names
   * holding 's' or 'k', and the simpler ASCII folds otherwise, before Go 1.21): same
   * length, and each key rune equal to the name's byte, to it in the other case, or to
   * the long s U+017F where the name has 's'/'S' or the Kelvin sign U+212A where it has
   * 'k'/'K'. strings.EqualFold agrees with this for ASCII names.
   */
  predicate NameMatches(key: string, name: string)
    requires IsAsciiText(name)
  {
    |key| == |name| && forall i :: 0 <= i < |name| ==> RuneMatches(key[i], name[i])
  }

  predicate IsAsciiText(s: string) {
    forall i :: 0 <= i < |s| ==> (s[i] as int) < 0x80
  }

  predicate RuneMatches(k: char, n: char)
    requires (n as int) < 0x80
  {
    k == n
    || ('a' <= n <= 'z' && k as int == n as int - 32)
    || ('A' <= n <= 'Z' && k as int == n as int + 32)
    || ((n == 's' || n == 'S') && k == '\U{017F}')
    || ((n == 'k' || n == 'K') && k == '\U{212A}')
  }

  // ---------------------------------------------------------------------------
  // Objects of string fields

  /** Output with no byte below 0x20 and no '<', '>' or '&': what HTML escaping guarantees. */
  predicate IsHtmlSafeText(b: seq<byte>) {
    forall i :: 0 <= i < |b| ==> b[i] >= 0x20 && b[i] != 0x3C && b[i] != 0x3E && b[i] != 0x26
  }

  /**
   * json.Marshal of a struct whose fields are all strings: the (name, value) pair of
   * each field that is written, in declaration order.
   */
  function WriteObject(fields: seq<(string, string)>): (r: seq<byte>)
    ensures |r| >= 2 && r[0] == OpenBrace && r[|r| - 1] == CloseBrace
  {
    if fields == [] then [OpenBrace, CloseBrace] else [OpenBrace] + WriteMembers(fields)
  }

  /** The members after the '{', each "name":"value", separated by ',' and closed by '}'. */
  function WriteMembers(fields: seq<(string, string)>): (r: seq<byte>)
    requires fields != []
    ensures |r| >= 2 && r[0] == QuoteMark && r[|r| - 1] == CloseBrace
  {
    Quote(fields[0].0) + [Colon] + Quote(fields[0].1)
    + (if |fields| == 1 then [CloseBrace] else [Comma] + WriteMembers(fields[1..]))
  }

  /** The value tree of such an object's members. */
  function StringMembers(fields: seq<(string, string)>): (ms: seq<Member>)
    ensures |ms| == |fields|
    ensures forall i :: 0 <= i < |fields| ==> ms[i] == Member(fields[i].0, String(fields[i].1))
  {
    if fields == [] then [] else [Member(fields[0].0, String(fields[0].1))] + StringMembers(fields[1..])
  }

  // ---------------------------------------------------------------------------
  // The reader inverts the writer

  /** The reader takes back exactly the bytes the writer made for one rune, and gives that rune. */
  lemma EscapeCharParses(c: char, rest: seq<byte>)
    ensures var s := EscapeChar(c) + rest;
      s[0] != QuoteMark && ParseStringChar(s) == Some((c, |EscapeChar(c)|))
  {
    var n := c as int;
    var e := EscapeChar(c);
    var s := e + rest;
    if n < 0x80 {
      if !IsHtmlSafe(n) && n != QuoteMark && n != Backslash && c != '\n' && c != '\r' && c != '\t' {
        assert e == [Backslash, Ascii('u'), Ascii('0'), Ascii('0'), HexDigit(n / 16), HexDigit(n % 16)];
        assert Hex4(s, 0) == Some(((0 * 16 + 0) * 16 + n / 16) * 16 + n % 16);
      }
    } else if c == '\U{2028}' || c == '\U{2029}' {
      assert Hex4(s, 0) == Some(((2 * 16 + 0) * 16 + 2) * 16 + n % 16);
    } else {
      DecodeEncodeChar(c, rest);
    }
  }

  /** The body of a quoted string followed by the closing quote reads back as the string. */
  lemma {:induction false} QuoteBodyParses(s: string, rest: seq<byte>)
    ensures ParseStringBody(QuoteBody(s) + [QuoteMark] + rest) == Some(Parsed(s, rest))
  {
    if s == [] {
      assert QuoteBody(s) + [QuoteMark] + rest == [QuoteMark] + rest;
    } else {
      var tail := QuoteBody(s[1..]) + [QuoteMark] + rest;
      var e := EscapeChar(s[0]);
      assert QuoteBody(s) + [QuoteMark] + rest == e + tail;
      EscapeCharParses(s[0], tail);
      assert (e + tail)[|e|..] == tail;
      QuoteBodyParses(s[1..], rest);
      assert [s[0]] + s[1..] == s;
    }
  }

  /** Round trip of one string: reading what json.Marshal wrote for s gives s, and the reader stops right after it. */
  lemma QuoteParses(s: string, rest: seq<byte>, depth: nat)
    ensures ParseValue(Quote(s) + rest, depth) == Some(Parsed(String(s), rest))
  {
    var t := Quote(s) + rest;
    assert t[0] == QuoteMark;
    assert t[1..] == QuoteBody(s) + [QuoteMark] + rest;
    QuoteBodyParses(s, rest);
  }

  lemma SkipNoWhitespace(s: seq<byte>)
    requires s != [] && !IsWhitespace(s[0])
    ensures SkipWhitespace(s) == s
  {
  }

  /** ParseMembers on a member whose key and value have been read, then '}' or ','. */
  lemma MemberStep(s: seq<byte>, key: string, r1: seq<byte>, v: Value, r3: seq<byte>, more: Option<Parsed<seq<Member>>>, depth: nat)
    requires s != [] && s[0] == QuoteMark
    requires ParseStringBody(s[1..]) == Some(Parsed(key, r1))
    requires r1 != [] && r1[0] == Colon
    requires ParseValue(SkipWhitespace(r1[1..]), depth) == Some(Parsed(v, r3))
    requires r3 != [] && (r3[0] == CloseBrace || r3[0] == Comma)
    requires r3[0] == CloseBrace ==> more == Some(Parsed([], r3[1..]))
    requires r3[0] == Comma ==> more == ParseMembers(SkipWhitespace(r3[1..]), depth) && more.Some?
    ensures ParseMembers(s, depth) == Some(Parsed([Member(key, v)] + more.value.value, more.value.rest))
  {
    SkipNoWhitespace(r1);
    SkipNoWhitespace(r3);
    if r3[0] == CloseBrace {
      assert [Member(key, v)] + [] == [Member(key, v)];
    }
  }

  /** A quoted key followed by anything: the reader takes the key and stops right after its closing quote. */
  lemma QuotedKeyParses(k: string, after: seq<byte>)
    ensures var s := Quote(k) + after; s != [] && s[0] == QuoteMark && ParseStringBody(s[1..]) == Some(Parsed(k, after))
  {
    var s := Quote(k) + after;
    assert s[1..] == QuoteBody(k) + [QuoteMark] + after;
    QuoteBodyParses(k, after);
  }

  /** The parts of a member json.Marshal wrote: the key, the colon, and the value up to what follows. */
  lemma MemberParts(k: string, v: string, tail: seq<byte>, depth: nat)
    ensures var after := [Colon] + (Quote(v) + tail); var s := Quote(k) + after;
      s != [] && s[0] == QuoteMark && ParseStringBody(s[1..]) == Some(Parsed(k, after))
      && after[0] == Colon && ParseValue(SkipWhitespace(after[1..]), depth) == Some(Parsed(String(v), tail))
  {
    var value := Quote(v) + tail;
    var after := [Colon] + value;
    QuotedKeyParses(k, after);
    assert after[1..] == value;
    SkipNoWhitespace(value);
    QuoteParses(v, tail, depth);
  }

  /** Regrouping a concatenation, applied to the exact terms so that no element-wise proof is needed. */
  lemma Regroup<T>(a: seq<T>, b: seq<T>, c: seq<T>)
    ensures (a + b) + c == a + (b + c)
  {
  }

  /** The first member json.Marshal wrote, followed by whatever comes after it. */
  lemma FirstMemberParses(k: string, v: string, tail: seq<byte>, more: Option<Parsed<seq<Member>>>, depth: nat)
    requires tail != [] && (tail[0] == CloseBrace || tail[0] == Comma)
    requires tail[0] == CloseBrace ==> more == Some(Parsed([], tail[1..]))
    requires tail[0] == Comma ==> more == ParseMembers(SkipWhitespace(tail[1..]), depth) && more.Some?
    ensures ParseMembers(Quote(k) + [Colon] + Quote(v) + tail, depth)
      == Some(Parsed([Member(k, String(v))] + more.value.value, more.value.rest))
  {
    var after := [Colon] + (Quote(v) + tail);
    var s := Quote(k) + after;
    Regroup(Quote(k), [Colon], Quote(v));
    Regroup(Quote(k), [Colon] + Quote(v), tail);
    Regroup([Colon], Quote(v), tail);
    MemberParts(k, v, tail, depth);
    MemberStep(s, k, after, String(v), tail, more, depth);
  }

  /** The members json.Marshal wrote read back as the same names and string values. */
  lemma {:induction false} WriteMembersParse(fields: seq<(string, string)>, rest: seq<byte>, depth: nat)
    requires fields != []
    ensures ParseMembers(WriteMembers(fields) + rest, depth) == Some(Parsed(StringMembers(fields), rest))
    decreases |fields|
  {
    if |fields| > 1 {
      WriteMembersParse(fields[1..], rest, depth);
      NextMemberParses(fields, rest, depth);
    } else {
      LastMemberParses(fields, rest, depth);
    }
  }

  lemma LastMemberParses(fields: seq<(string, string)>, rest: seq<byte>, depth: nat)
    requires |fields| == 1
    ensures ParseMembers(WriteMembers(fields) + rest, depth) == Some(Parsed(StringMembers(fields), rest))
  {
    var k, v := fields[0].0, fields[0].1;
    var tail := [CloseBrace] + rest;
    Regroup(Quote(k) + [Colon] + Quote(v), [CloseBrace], rest);
    assert tail[1..] == rest;
    FirstMemberParses(k, v, tail, Some(Parsed([], rest)), depth);
    assert StringMembers(fields) == [Member(k, String(v))] + [];
  }

  lemma NextMemberParses(fields: seq<(string, string)>, rest: seq<byte>, depth: nat)
    requires |fields| > 1
    requires ParseMembers(WriteMembers(fields[1..]) + rest, depth) == Some(Parsed(StringMembers(fields[1..]), rest))
    ensures ParseMembers(WriteMembers(fields) + rest, depth) == Some(Parsed(StringMembers(fields), rest))
  {
    var k, v := fields[0].0, fields[0].1;
    var next := WriteMembers(fields[1..]) + rest;
    var tail := [Comma] + next;
    Regroup(Quote(k) + [Colon] + Quote(v), [Comma] + WriteMembers(fields[1..]), rest);
    Regroup([Comma], WriteMembers(fields[1..]), rest);
    assert tail[1..] == next;
    SkipNoWhitespace(next);
    FirstMemberParses(k, v, tail, Some(Parsed(StringMembers(fields[1..]), rest)), depth);
    assert StringMembers(fields) == [Member(k, String(v))] + StringMembers(fields[1..]);
  }

  /** Round trip of an object of string fields: json.Unmarshal's syntax pass reads back what json.Marshal wrote. */
  lemma WriteObjectParses(fields: seq<(string, string)>)
    ensures Parse(WriteObject(fields)) == Some(Object(StringMembers(fields)))
  {
    var s := WriteObject(fields);
    SkipNoWhitespace(s);
    if fields == [] {
      assert s[1..] == [CloseBrace];
      SkipNoWhitespace(s[1..]);
      assert ParseObject(s[1..], 1) == Some(Parsed(Object([]), []));
    } else {
      assert s[1..] == WriteMembers(fields) + [];
      SkipNoWhitespace(s[1..]);
      WriteMembersParse(fields, [], 1);
      assert ParseObject(s[1..], 1) == Some(Parsed(Object(StringMembers(fields)), []));
    }
    assert ParseValue(s, 0) == Some(Parsed(Object(StringMembers(fields)), []));
  }

  // ---------------------------------------------------------------------------
  // HTML escaping

  lemma HtmlSafeConcat(a: seq<byte>, b: seq<byte>)
    requires IsHtmlSafeText(a) && IsHtmlSafeText(b)
    ensures IsHtmlSafeText(a + b)
  {
    forall i | 0 <= i < |a + b| ensures (a + b)[i] >= 0x20 && (a + b)[i] != 0x3C && (a + b)[i] != 0x3E && (a + b)[i] != 0x26 {
      if i >= |a| {
        assert (a + b)[i] == b[i - |a|];
      }
    }
  }

  /** With HTML escaping on, a quoted string holds no '<', '>', '&' and no control byte, whatever the string. */
  lemma {:induction false} QuoteIsHtmlSafe(s: string)
    ensures IsHtmlSafeText(QuoteBody(s)) && IsHtmlSafeText(Quote(s))
  {
    if s != [] {
      QuoteIsHtmlSafe(s[1..]);
      HtmlSafeConcat(EscapeChar(s[0]), QuoteBody(s[1..]));
    }
    HtmlSafeConcat([QuoteMark], QuoteBody(s));
    HtmlSafeConcat([QuoteMark] + QuoteBody(s), [QuoteMark]);
  }

  /** The same holds of a whole object of string fields. */
  lemma {:induction false} WriteObjectIsHtmlSafe(fields: seq<(string, string)>)
    ensures IsHtmlSafeText(WriteObject(fields))
    decreases |fields|
  {
    if fields != [] {
      WriteMembersIsHtmlSafe(fields);
      HtmlSafeConcat([OpenBrace], WriteMembers(fields));
    }
  }

  lemma {:induction false} WriteMembersIsHtmlSafe(fields: seq<(string, string)>)
    requires fields != []
    ensures IsHtmlSafeText(WriteMembers(fields))
    decreases |fields|
  {
    var tail := if |fields| == 1 then [CloseBrace] else [Comma] + WriteMembers(fields[1..]);
    if |fields| > 1 {
      WriteMembersIsHtmlSafe(fields[1..]);
      HtmlSafeConcat([Comma], WriteMembers(fields[1..]));
    }
    QuoteIsHtmlSafe(fields[0].0);
    QuoteIsHtmlSafe(fields[0].1);
    HtmlSafeConcat(Quote(fields[0].0), [Colon]);
    HtmlSafeConcat(Quote(fields[0].0) + [Colon], Quote(fields[0].1));
    HtmlSafeConcat(Quote(fields[0].0) + [Colon] + Quote(fields[0].1), tail);
  }
}
