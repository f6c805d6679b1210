/**
 * internal/db/util.go: the optional page limit, read from a query-string value with
 * fmt.Sscanf(s, "%d", &i) into an int32.
 */
module DbUtil {
  import opened Wrappers

  /** Go's int32. */
  type Int32 = x: int | -0x8000_0000 <= x < 0x8000_0000

  /**
   * Why Sscanf fails: io.EOF (nothing to read where the number should be), "unexpected
   * newline", "expected integer", and a value outside int32 (strconv.ErrRange or
   * "integer overflow on token").
   */
  datatype ScanError = EndOfInput | UnexpectedNewline | ExpectedInteger | OutOfRange

  /** fmt's isSpace: the runes of its space table, all below U+10000. */
  predicate IsScanSpace(c: char) {
    var n := c as int;
    (0x09 <= n <= 0x0D) || n == 0x20 || n == 0x85 || n == 0xA0 || n == 0x1680
    || (0x2000 <= n <= 0x200A) || n == 0x2028 || n == 0x2029 || n == 0x202F || n == 0x205F || n == 0x3000
  }

  predicate IsDigitChar(c: char) { '0' <= c <= '9' }

  /**
   * SkipSpace as Sscanf runs it (newlines are not spaces there): leading spaces are
   * dropped, and a newline among them is an error ("\r\n" too: the '\r' is dropped first).
   */
  function SkipSpace(s: string): (r: Result<string, ScanError>)
    ensures r.Success? ==> |r.value| <= |s| && r.value == s[|s| - |r.value|..]
    ensures r.Success? && r.value != [] ==> !IsScanSpace(r.value[0])
    ensures r.Failure? ==> r.error == UnexpectedNewline
    ensures r.Success? ==> forall i :: 0 <= i < |s| - |r.value| ==> IsScanSpace(s[i]) && s[i] != '\n'
    ensures r.Failure? <==> exists k :: 0 <= k < |s| && s[k] == '\n' && forall i :: 0 <= i < k ==> IsScanSpace(s[i])
  {
    if s == [] then Success(s)
    else if s[0] == '\n' then Failure(UnexpectedNewline)
    else if IsScanSpace(s[0]) then SkipSpace(s[1..])
    else Success(s)
  }

  /** How many decimal digits s starts with. */
  function LeadingDigits(s: string): (n: nat)
    ensures n <= |s|
    ensures forall i :: 0 <= i < n ==> IsDigitChar(s[i])
    ensures n < |s| ==> !IsDigitChar(s[n])
  {
    if s != [] && IsDigitChar(s[0]) then 1 + LeadingDigits(s[1..]) else 0
  }

  /** The value of a string of decimal digits, most significant first. */
  function DecimalValue(ds: string): nat
    requires forall i :: 0 <= i < |ds| ==> IsDigitChar(ds[i])
  {
    if ds == [] then 0
    else
      var last := ds[|ds| - 1];
      assert IsDigitChar(last);
      DecimalValue(ds[..|ds| - 1]) * 10 + (last as int - '0' as int)
  }

  /** The value of a token, or the range error when it does not fit in an int32. */
  function InRange(v: int): (r: Result<Int32, ScanError>)
    ensures r.Success? <==> -0x8000_0000 <= v < 0x8000_0000
    ensures r.Success? ==> r.value == v
    ensures r.Failure? ==> r.error == OutOfRange
  {
    if -0x8000_0000 <= v < 0x8000_0000 then Success(v) else Failure(OutOfRange)
  }

  /** The digits of the token, after its sign: at least one, and they end the token. */
  function ScanDigits(negative: bool, u: string): Result<Int32, ScanError> {
    if u == [] then Failure(EndOfInput)
    else
      var n := LeadingDigits(u);
      if n == 0 then Failure(ExpectedInteger)
      else
        var magnitude: int := DecimalValue(u[..n]);
        InRange(if negative then -magnitude else magnitude)
  }

  /**
   * fmt.Sscanf(s, "%d", &i) for an int32 i: spaces, an optional sign, then at least one
   * digit; the digits end the token and whatever follows them is not read.
   */
  function ScanInt32(s: string): Result<Int32, ScanError> {
    var t :- SkipSpace(s);
    if t == [] then Failure(EndOfInput)
    else if t[0] == '+' || t[0] == '-' then ScanDigits(t[0] == '-', t[1..])
    else ScanDigits(false, t)
  }

  /** stringToInt32Ptr: no limit for "", otherwise the scanned value or the scan error. */
  function StringToInt32Ptr(s: string): (r: Result<Option<Int32>, ScanError>)
    ensures r == Success(None) <==> s == ""
    ensures r.Success? && s != "" ==> r.value.Some?
  {
    if s == "" then Success(None)
    else
      match ScanInt32(s)
      case Failure(e) => Failure(e)
      case Success(v) => Success(Some(v))
  }

  // ---------------------------------------------------------------------------
  // Decimal text: the partner of the scanner

  function DigitChar(d: int): (c: char)
    requires 0 <= d < 10
    ensures IsDigitChar(c) && c as int - '0' as int == d
  {
    ('0' as int + d) as char
  }

  /** The decimal digits of n, without leading zeros, as strconv.Itoa writes them. */
  function FormatNat(n: nat): (s: string)
    ensures |s| > 0 && forall i :: 0 <= i < |s| ==> IsDigitChar(s[i])
  {
    if n < 10 then [DigitChar(n)] else FormatNat(n / 10) + [DigitChar(n % 10)]
  }

  /** The decimal text of an integer, with '-' for a negative one. */
  function FormatInt(n: int): (s: string)
    ensures |s| > 0
  {
    if n < 0 then "-" + FormatNat(-n) else FormatNat(n)
  }

  lemma {:induction false} DecimalValueOfFormat(n: nat)
    ensures DecimalValue(FormatNat(n)) == n
  {
    if n >= 10 {
      var s := FormatNat(n);
      assert s[..|s| - 1] == FormatNat(n / 10);
      DecimalValueOfFormat(n / 10);
    }
  }

  lemma {:induction false} LeadingDigitsOf(ds: string, rest: string)
    requires forall i :: 0 <= i < |ds| ==> IsDigitChar(ds[i])
    requires rest == [] || !IsDigitChar(rest[0])
    ensures LeadingDigits(ds + rest) == |ds|
  {
    if ds != [] {
      assert (ds + rest)[1..] == ds[1..] + rest;
      LeadingDigitsOf(ds[1..], rest);
    }
  }

  /** The digits of a magnitude, followed by a non-digit or nothing, are the whole number token. */
  lemma DigitsToken(m: nat, rest: string)
    requires rest == [] || !IsDigitChar(rest[0])
    ensures var u := FormatNat(m) + rest;
      LeadingDigits(u) == |FormatNat(m)| && DecimalValue(u[..LeadingDigits(u)]) == m
  {
    var ds := FormatNat(m);
    LeadingDigitsOf(ds, rest);
    DecimalValueOfFormat(m);
    assert (ds + rest)[..|ds|] == ds;
  }

  /** The digits step on decimal text: the signed magnitude, range-checked. */
  lemma ScanDigitsOf(negative: bool, m: nat, rest: string)
    requires rest == [] || !IsDigitChar(rest[0])
    ensures ScanDigits(negative, FormatNat(m) + rest) == InRange(if negative then -(m as int) else m)
  {
    DigitsToken(m, rest);
  }

  /** Sscanf's space skipping leaves text that starts with a sign or a digit alone. */
  lemma NothingToSkip(s: string)
    requires s != [] && (s[0] == '-' || IsDigitChar(s[0]))
    ensures SkipSpace(s) == Success(s)
  {
  }

  /** A '-' followed by a digit is scanned as the digits of a negative number. */
  lemma ScanMinus(u: string)
    requires u != [] && IsDigitChar(u[0])
    ensures ScanInt32(['-'] + u) == ScanDigits(true, u)
  {
    var s := ['-'] + u;
    NothingToSkip(s);
    assert s[0] == '-' && s[1..] == u;
  }

  /** Text that starts with a digit is scanned as the digits of a natural number. */
  lemma ScanDigitFirst(u: string)
    requires u != [] && IsDigitChar(u[0])
    ensures ScanInt32(u) == ScanDigits(false, u)
  {
    NothingToSkip(u);
  }

  /** The scan of decimal text: its value when it fits in an int32, else the range error. */
  lemma ScanDecimal(n: int, rest: string)
    requires rest == [] || !IsDigitChar(rest[0])
    ensures ScanInt32(FormatInt(n) + rest) == InRange(n)
  {
    if n < 0 {
      ScanNegative(n, rest);
    } else {
      ScanNatural(n, rest);
    }
  }

  lemma ScanNegative(n: int, rest: string)
    requires n < 0
    requires rest == [] || !IsDigitChar(rest[0])
    ensures ScanInt32(FormatInt(n) + rest) == InRange(n)
  {
    var u := FormatNat(-n) + rest;
    assert IsDigitChar(u[0]);
    assert FormatInt(n) + rest == ['-'] + u;
    ScanMinus(u);
    ScanDigitsOf(true, -n, rest);
  }

  lemma ScanNatural(n: int, rest: string)
    requires n >= 0
    requires rest == [] || !IsDigitChar(rest[0])
    ensures ScanInt32(FormatInt(n) + rest) == InRange(n)
  {
    var u := FormatNat(n) + rest;
    assert IsDigitChar(u[0]);
    assert FormatInt(n) + rest == u;
    ScanDigitFirst(u);
    ScanDigitsOf(false, n, rest);
  }

  /**
   * Round trip: the decimal text of an int32, followed by anything that does not start
   * with a digit, scans back as that value (the text after the number is ignored).
   */
  lemma ScanFormatted(n: Int32, rest: string)
    requires rest == [] || !IsDigitChar(rest[0])
    ensures StringToInt32Ptr(FormatInt(n) + rest) == Success(Some(n))
  {
    ScanDecimal(n, rest);
  }

  /** A decimal number outside int32 is refused. */
  lemma OutOfRangeRefused(n: int, rest: string)
    requires !(-0x8000_0000 <= n < 0x8000_0000)
    requires rest == [] || !IsDigitChar(rest[0])
    ensures StringToInt32Ptr(FormatInt(n) + rest) == Failure(OutOfRange)
  {
    ScanDecimal(n, rest);
  }

  /** Text that does not start, after spaces and a sign, with a digit is refused. */
  lemma NonNumericRefused(s: string)
    requires s != [] && !IsScanSpace(s[0]) && s[0] != '+' && s[0] != '-' && !IsDigitChar(s[0])
    ensures StringToInt32Ptr(s) == Failure(ExpectedInteger)
  {
  }

  /** The cases of stringToInt32Ptr's table test that parse: "123", "-456" and "0". */
  lemma ParsesPositive()
    ensures StringToInt32Ptr("123") == Success(Some(123))
  {
    assert FormatNat(123) == FormatNat(12) + "3";
    assert FormatInt(123) + "" == "123";
    ScanFormatted(123, "");
  }

  lemma ParsesNegative()
    ensures StringToInt32Ptr("-456") == Success(Some(-456))
  {
    assert FormatNat(456) == FormatNat(45) + "6";
    assert FormatInt(-456) + "" == "-456";
    ScanFormatted(-456, "");
  }

  lemma ParsesZero()
    ensures StringToInt32Ptr("0") == Success(Some(0))
  {
    assert FormatInt(0) + "" == "0";
    ScanFormatted(0, "");
  }

  /** The cases of the table test that give no value: "" (no error) and "abc" ("expected integer"). */
  lemma EmptyAndNonNumericCases()
    ensures StringToInt32Ptr("") == Success(None)
    ensures StringToInt32Ptr("abc") == Failure(ExpectedInteger)
  {
    NonNumericRefused("abc");
  }
}
