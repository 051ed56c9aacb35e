/** Python's conversions between text and numbers, on ASCII digits:
    `str(n)`, `int(s)`, `float(s)`, `s.strip()`, `round(x, 3)`. */
module Numbers {
  import opened Wrappers
  import opened Strings

  /** `str.isspace()` of one character; also what `\s` matches in a `re` pattern. */
  predicate IsSpace(c: char) {
    if c <= ' ' then c == ' ' || '\t' <= c <= '\r' || '\U{1c}' <= c <= '\U{1f}'
    else if c < '\U{85}' then false
    else IsWideSpace(c)
  }

  predicate IsWideSpace(c: char) {
    c == '\U{85}' || c == '\U{a0}' || c == '\U{1680}' || '\U{2000}' <= c <= '\U{200a}' || c == '\U{2028}' || c == '\U{2029}'
    || c == '\U{202f}' || c == '\U{205f}' || c == '\U{3000}'
  }

  predicate IsDigit(c: char) {
    '0' <= c <= '9'
  }

  function DigitValue(c: char): (d: nat)
    requires IsDigit(c)
    ensures d < 10
  {
    (c as int) - ('0' as int)
  }

  function DigitChar(d: nat): (c: char)
    requires d < 10
    ensures IsDigit(c) && DigitValue(c) == d
  {
    (('0' as int) + d) as char
  }

  predicate AllDigits(s: string) {
    forall i :: 0 <= i < |s| ==> IsDigit(s[i])
  }

  /** The value of a string of decimal digits. */
  function DigitsValue(s: string): nat
    requires AllDigits(s)
  {
    if s == [] then 0 else DigitsValue(s[..|s| - 1]) * 10 + DigitValue(s[|s| - 1])
  }

  function Pow10(n: nat): (p: nat)
    ensures p >= 1
  {
    if n == 0 then 1 else 10 * Pow10(n - 1)
  }

  /** Python's `str(n)` for a non-negative integer: its decimal digits,
      which read back as `n`. */
  function NatToString(n: nat): (r: string)
    ensures |r| >= 1 && AllDigits(r) && DigitsValue(r) == n
  {
    if n < 10 then [DigitChar(n)]
    else
      var r := NatToString(n / 10) + [DigitChar(n % 10)];
      assert r[..|r| - 1] == NatToString(n / 10);
      r
  }

  /** Python's `str(i)` for any integer. */
  function IntToString(i: int): (r: string)
    ensures |r| >= 1 && (i >= 0 <==> IsDigit(r[0]))
  {
    if i < 0 then "-" + NatToString(-i) else NatToString(i)
  }

  /** Index of the first non-whitespace character at or after `i`. */
  function SkipSpaces(s: string, i: nat): (r: nat)
    requires i <= |s|
    ensures i <= r <= |s|
    ensures r < |s| ==> !IsSpace(s[r])
    decreases |s| - i
  {
    if i < |s| && IsSpace(s[i]) then SkipSpaces(s, i + 1) else i
  }

  /** One past the last non-whitespace character before index `j`. */
  function SkipSpacesBack(s: string, j: nat): (r: nat)
    requires j <= |s|
    ensures r <= j
    ensures r > 0 ==> !IsSpace(s[r - 1])
  {
    if j > 0 && IsSpace(s[j - 1]) then SkipSpacesBack(s, j - 1) else j
  }

  function StripLeft(s: string): (r: string)
    ensures |r| > 0 ==> !IsSpace(r[0])
  {
    s[SkipSpaces(s, 0)..]
  }

  function StripRight(s: string): (r: string)
    ensures |r| > 0 ==> !IsSpace(r[|r| - 1])
  {
    s[..SkipSpacesBack(s, |s|)]
  }

  /** Python's `s.strip()`: drop whitespace at both ends. */
  function Strip(s: string): (r: string)
    ensures |r| > 0 ==> !IsSpace(r[0]) && !IsSpace(r[|r| - 1])
  {
    StripRight(StripLeft(s))
  }

  /** Python's `digitpart`: ASCII digits with single underscores between them. */
  predicate IsDigitPart(s: string) {
    && |s| > 0 && IsDigit(s[0]) && IsDigit(s[|s| - 1])
    && (forall i :: 0 <= i < |s| ==> IsDigit(s[i]) || s[i] == '_')
    && (forall i :: 0 <= i < |s| - 1 ==> !(s[i] == '_' && s[i + 1] == '_'))
  }

  function DropUnderscores(s: string): (r: string)
    ensures (forall i :: 0 <= i < |s| ==> IsDigit(s[i]) || s[i] == '_') ==> AllDigits(r)
    ensures AllDigits(s) ==> r == s
  {
    if s == [] then []
    else if s[0] == '_' then DropUnderscores(s[1..])
    else [s[0]] + DropUnderscores(s[1..])
  }

  function DigitPartValue(s: string): nat
    requires IsDigitPart(s)
  {
    DigitsValue(DropUnderscores(s))
  }

  /** Python's `int(s)` in base 10: surrounding whitespace, an optional sign,
      then a digit part. */
  function ParseInt(s: string): Option<int> {
    var t := Strip(s);
    if |t| > 0 && (t[0] == '+' || t[0] == '-') then
      if IsDigitPart(t[1..]) then
        var v: int := DigitPartValue(t[1..]);
        Some(if t[0] == '-' then -v else v)
      else None
    else if IsDigitPart(t) then Some(DigitPartValue(t))
    else None
  }

  /** The value of the fraction digits `s` after a decimal point:
      `0.s` exactly. */
  function FracValue(s: string): real
    requires AllDigits(s)
  {
    if s == [] then 0.0 else (DigitValue(s[0]) as real + FracValue(s[1..])) / 10.0
  }

  /** `10 ** e` as a real, for any integer exponent. */
  function Scale(e: int): (r: real)
    ensures r > 0.0
  {
    if e >= 0 then Pow10(e) as real else 1.0 / (Pow10(-e) as real)
  }

  /** A digit part or nothing, read as a whole number. */
  function OptionalDigitPart(s: string): (r: Option<nat>)
    ensures r.Some? ==> forall i :: 0 <= i < |s| ==> IsDigit(s[i]) || s[i] == '_'
  {
    if s == "" then Some(0) else if IsDigitPart(s) then Some(DigitPartValue(s)) else None
  }

  /** Python's `decimal` production: `digitpart "." [digitpart] | "." digitpart | digitpart`. */
  function ParseMantissa(m: string): Option<real> {
    match Find(m, ".")
    case None => if IsDigitPart(m) then Some(DigitPartValue(m) as real) else None
    case Some(k) =>
      var ip := m[..k];
      var fp := m[k + 1..];
      if ip == "" && fp == "" then None
      else
        match (OptionalDigitPart(ip), OptionalDigitPart(fp))
        case (Some(a), Some(b)) =>
          Some(a as real + FracValue(DropUnderscores(fp)))
        case _ => None
  }

  /** The exponent after `e` or `E`: an optional sign, then a digit part. */
  function ParseExponent(x: string): Option<int> {
    if |x| > 0 && (x[0] == '+' || x[0] == '-') then
      if IsDigitPart(x[1..]) then
        var v: int := DigitPartValue(x[1..]);
        Some(if x[0] == '-' then -v else v)
      else None
    else if IsDigitPart(x) then Some(DigitPartValue(x))
    else None
  }

  /** The first `e` or `E` of a numeric literal, if any. */
  function ExponentMark(b: string): Option<nat> {
    match (Find(b, "e"), Find(b, "E"))
    case (None, None) => None
    case (Some(i), None) => Some(i)
    case (None, Some(j)) => Some(j)
    case (Some(i), Some(j)) => Some(if i < j then i else j)
  }

  /** An unsigned decimal literal with an optional exponent. */
  function ParseUnsigned(b: string): Option<real> {
    match ExponentMark(b)
    case None => ParseMantissa(b)
    case Some(k) =>
      if k >= |b| then None
      else
        match (ParseMantissa(b[..k]), ParseExponent(b[k + 1..]))
        case (Some(m), Some(e)) => Some(m * Scale(e))
        case _ => None
  }

  /** Python's `float(s)` on decimal literals: surrounding whitespace, an
      optional sign, a decimal with an optional exponent, digit parts with
      single underscores. The value is the exact decimal, not its nearest
      binary double. */
  function ParseFloat(s: string): Option<real> {
    var t := Strip(s);
    if |t| > 0 && (t[0] == '+' || t[0] == '-') then
      match ParseUnsigned(t[1..])
      case None => None
      case Some(v) => Some(if t[0] == '-' then -v else v)
    else ParseUnsigned(t)
  }

  /** Python's `round(x, 3)` expressed in thousandths: the nearest integer to
      `1000 * x`, halves to even. */
  function RoundMillis(x: real): (r: int)
    ensures -0.5 <= (r as real) - 1000.0 * x <= 0.5
    ensures (1000.0 * x).Floor as real == 1000.0 * x ==> r == (1000.0 * x).Floor
  {
    var y := 1000.0 * x;
    var f := y.Floor;
    var d := y - f as real;
    if d < 0.5 then f
    else if d > 0.5 then f + 1
    else if f % 2 == 0 then f
    else f + 1
  }

  // ---------------------------------------------------------------------
  // Round trips and the values of the literals a timing sheet contains.

  lemma DigitPartOfDigits(s: string)
    requires |s| > 0 && AllDigits(s)
    ensures IsDigitPart(s) && DigitPartValue(s) == DigitsValue(s)
  {
  }

  lemma StripNoSpace(s: string)
    requires |s| > 0 && !IsSpace(s[0]) && !IsSpace(s[|s| - 1])
    ensures Strip(s) == s
  {
  }

  lemma DigitNotSpace(c: char)
    requires IsDigit(c)
    ensures !IsSpace(c)
  {
  }

  /** A non-empty digit string has no whitespace to strip. */
  lemma StripDigits(s: string)
    requires |s| > 0 && AllDigits(s)
    ensures Strip(s) == s
  {
    DigitNotSpace(s[0]);
    DigitNotSpace(s[|s| - 1]);
    StripNoSpace(s);
  }

  /** `int(D)` of a digit string is its value. */
  lemma ParseIntDigits(s: string)
    requires |s| > 0 && AllDigits(s)
    ensures ParseInt(s) == Some(DigitsValue(s) as int)
  {
    StripDigits(s);
    DigitPartOfDigits(s);
  }

  /** `int(str(n)) == n`. */
  lemma ParseIntOfString(n: nat)
    ensures ParseInt(NatToString(n)) == Some(n as int)
  {
    ParseIntDigits(NatToString(n));
  }

  /** The characters of a digit string are not one of the given marks. */
  lemma DigitsLackChar(s: string, x: char)
    requires AllDigits(s) && !IsDigit(x)
    ensures !Contains(s, [x])
  {
    ContainsChar(s, x);
  }

  lemma DigitsLackMarks(s: string)
    requires AllDigits(s)
    ensures 'e' !in s && 'E' !in s && '.' !in s && '_' !in s
  {
  }

  /** A literal that starts and ends with a digit has no sign and nothing to
      strip. */
  lemma ParseFloatUnsigned(b: string)
    requires |b| > 0 && IsDigit(b[0]) && IsDigit(b[|b| - 1])
    ensures ParseFloat(b) == ParseUnsigned(b)
  {
    DigitNotSpace(b[0]);
    DigitNotSpace(b[|b| - 1]);
    StripNoSpace(b);
  }

  /** Without an `e` or `E`, a literal is a bare mantissa. */
  lemma NoExponent(b: string)
    requires 'e' !in b && 'E' !in b
    ensures ParseUnsigned(b) == ParseMantissa(b)
  {
    ContainsChar(b, 'e');
    ContainsChar(b, 'E');
  }

  /** The exact value of the decimal `ip.fp` written with digit strings. */
  function DecimalValue(ip: string, fp: string): real
    requires AllDigits(ip) && AllDigits(fp)
  {
    DigitsValue(ip) as real + FracValue(fp)
  }

  /** The mantissa `ip.fp` of two digit strings. */
  lemma {:induction false} MantissaDecimal(ip: string, fp: string)
    requires |ip| > 0 && |fp| > 0 && AllDigits(ip) && AllDigits(fp)
    ensures ParseMantissa(ip + "." + fp) == Some(DecimalValue(ip, fp))
  {
    var b := ip + "." + fp;
    DigitsLackChar(ip, '.');
    FindAppendChar(ip, '.', fp);
    assert b[..|ip|] == ip && b[|ip| + 1..] == fp;
    DigitPartOfDigits(ip);
    DigitPartOfDigits(fp);
  }

  /** `float("SS.mmm") == SS + mmm / 1000` for digit strings `SS`, `mmm`. */
  lemma {:induction false} ParseFloatDecimal(ip: string, fp: string)
    requires |ip| > 0 && |fp| > 0 && AllDigits(ip) && AllDigits(fp)
    ensures ParseFloat(ip + "." + fp) == Some(DecimalValue(ip, fp))
  {
    var b := ip + "." + fp;
    assert b[0] == ip[0] && b[|b| - 1] == fp[|fp| - 1];
    ParseFloatUnsigned(b);
    DigitsLackMarks(ip);
    DigitsLackMarks(fp);
    NoExponent(b);
    MantissaDecimal(ip, fp);
  }

  /** `float(D)` of a digit string is its value. */
  lemma ParseFloatDigits(s: string)
    requires |s| > 0 && AllDigits(s)
    ensures ParseFloat(s) == Some(DigitsValue(s) as real)
  {
    StripDigits(s);
    ContainsChar(s, 'e');
    ContainsChar(s, 'E');
    ContainsChar(s, '.');
    DigitPartOfDigits(s);
  }

  /** A digit string with one character that is none of a digit, `_`, `.`,
      `e`, `E` inside is not a float. */
  lemma {:induction false} ParseFloatBadMark(ip: string, x: char, fp: string)
    requires |ip| > 0 && |fp| > 0 && AllDigits(ip) && AllDigits(fp)
    requires !IsDigit(x) && x !in "_.eE"
    ensures ParseFloat(ip + [x] + fp) == None
  {
    var b := ip + [x] + fp;
    DigitNotSpace(ip[0]);
    DigitNotSpace(fp[|fp| - 1]);
    StripNoSpace(b);
    assert !(b[0] == '+' || b[0] == '-');
    ContainsChar(b, 'e');
    ContainsChar(b, 'E');
    ContainsChar(b, '.');
    assert ExponentMark(b) == None;
    assert Find(b, ".") == None;
    assert b[|ip|] == x;
    assert !IsDigitPart(b);
  }
}
