/** Lap-time tokens of a timing sheet: the lap pattern
    `\s[1-2]'\d\d.\d\d\d\s\d{1,2}\s`, its left-to-right non-overlapping scan
    (`re.findall`), and the conversion of one token to a lap time.
    Lap times are integer milliseconds. */
module LapTimes {
  import opened Wrappers
  import opened Strings
  import opened Numbers

  /** The part of the lap pattern before `\d{1,2}\s`, plus the first lap
      digit: `\s[1-2]'\d\d.\d\d\d\s\d` at index `i` (`.` is any character
      but a newline). */
  predicate LapHead(s: string, i: nat) {
    && i + 12 <= |s|
    && IsSpace(s[i]) && (s[i + 1] == '1' || s[i + 1] == '2') && s[i + 2] == '\''
    && IsDigit(s[i + 3]) && IsDigit(s[i + 4]) && s[i + 5] != '\n'
    && IsDigit(s[i + 6]) && IsDigit(s[i + 7]) && IsDigit(s[i + 8])
    && IsSpace(s[i + 9]) && IsDigit(s[i + 10])
  }

  /** The length of the lap-pattern match at index `i`, or 0 when there is
      none. The greedy `\d{1,2}` takes two digits when the character after
      them is whitespace, and otherwise one. */
  function LapMatchLength(s: string, i: nat): (n: nat)
    ensures n == 0 || n == 12 || n == 13
    ensures n > 0 ==> i + n <= |s| && LapHead(s, i) && IsSpace(s[i + n - 1])
  {
    if !LapHead(s, i) then 0
    else if i + 13 <= |s| && IsDigit(s[i + 11]) && IsSpace(s[i + 12]) then 13
    else if IsSpace(s[i + 11]) then 12
    else 0
  }

  /** A string that is one whole match of the lap pattern. */
  predicate IsLapToken(t: string) {
    |t| > 0 && LapMatchLength(t, 0) == |t|
  }

  /** A match found inside a text is a lap token on its own. */
  lemma MatchIsToken(s: string, i: nat)
    requires LapMatchLength(s, i) > 0
    ensures IsLapToken(s[i..i + LapMatchLength(s, i)])
  {
    var n := LapMatchLength(s, i);
    var t := s[i..i + n];
    assert forall k :: 0 <= k < n ==> t[k] == s[i + k];
  }

  /** `re.findall(lap_pattern, s[i:])`: matches taken left to right, each
      scan resuming after the previous match. */
  function LapTokensFrom(s: string, i: nat): seq<string>
    requires i <= |s|
    decreases |s| - i
  {
    if i == |s| then []
    else
      var n := LapMatchLength(s, i);
      if n > 0 then [s[i..i + n]] + LapTokensFrom(s, i + n)
      else LapTokensFrom(s, i + 1)
  }

  /** Every match found is a lap token. */
  lemma {:induction false} LapTokensFromSpec(s: string, i: nat)
    requires i <= |s|
    ensures forall k :: 0 <= k < |LapTokensFrom(s, i)| ==> IsLapToken(LapTokensFrom(s, i)[k])
    decreases |s| - i
  {
    if i < |s| {
      var n := LapMatchLength(s, i);
      if n > 0 {
        MatchIsToken(s, i);
        LapTokensFromSpec(s, i + n);
      } else {
        LapTokensFromSpec(s, i + 1);
      }
    }
  }

  /** `re.findall(lap_pattern, s)`. */
  function LapTokens(s: string): seq<string> {
    LapTokensFrom(s, 0)
  }

  /** Every element of `re.findall(lap_pattern, s)` is a lap token. */
  lemma LapTokensSpec(s: string)
    ensures forall k :: 0 <= k < |LapTokens(s)| ==> IsLapToken(LapTokens(s)[k])
  {
    LapTokensFromSpec(s, 0);
  }

  /** `_trim_laptimes`: the second newline-separated segment of a token;
      a token without a newline raises `IndexError`. */
  function TrimLapTime(lap: string): (r: Result<string>)
    ensures r.Err? <==> '\n' !in lap
    ensures r.Err? ==> r.error == IndexError
  {
    var parts := Split(lap, "\n");
    ContainsChar(lap, '\n');
    if |parts| < 2 then
      SplitNone(lap, "\n");
      Err(IndexError)
    else
      assert Find(lap, "\n").Some?;
      Ok(parts[1])
  }

  /** `_min_to_seconds`, in milliseconds: split at `'`, read the minutes with
      `int`, the seconds with `float`, and round `60 * minutes + seconds` to
      three decimals. `int` and `float` failures raise `ValueError`, a
      missing seconds field raises `IndexError`. */
  function MinToMillis(laptime: string): Result<int> {
    var minsec := Split(laptime, "'");
    match ParseInt(minsec[0])
    case None => Err(ValueError)
    case Some(m) =>
      if |minsec| < 2 then Err(IndexError)
      else
        match ParseFloat(minsec[1])
        case None => Err(ValueError)
        case Some(sec) => Ok(RoundMillis(m as real * 60.0 + sec))
  }

  /** One lap token to milliseconds: `_min_to_seconds(_trim_laptimes(lap))`. */
  function LapMillis(lap: string): Result<int> {
    match TrimLapTime(lap)
    case Err(e) => Err(e)
    case Ok(t) => MinToMillis(t)
  }

  // ---------------------------------------------------------------------
  // What a matched token converts to.

  /** The lap time a token reads as: minutes, seconds and thousandths. */
  function CanonicalMillis(t: string): int
    requires IsLapToken(t)
  {
    DigitValue(t[1]) * 60000 + (DigitValue(t[3]) * 10 + DigitValue(t[4])) * 1000
      + DigitValue(t[6]) * 100 + DigitValue(t[7]) * 10 + DigitValue(t[8])
  }

  /** A lap token starts with its whitespace, then the minute. The time text
      between the first and second newline is `M'SS.mmm` exactly when both
      the leading whitespace and the whitespace after the thousandths are
      newlines. */
  lemma {:induction false} TrimCanonical(t: string)
    requires |t| >= 10 && t[0] == '\n' && t[9] == '\n' && '\n' !in t[1..9]
    ensures TrimLapTime(t) == Ok(t[1..9])
  {
    var core := t[1..9];
    var rest := t[10..];
    assert t == [] + ['\n'] + (core + ['\n'] + rest);
    SplitAppend([], '\n', core + ['\n'] + rest);
    SplitAppend(core, '\n', rest);
    ContainsChar(core, '\n');
    SplitNone(core, "\n");
    assert Split([], "\n") == [[]];
  }

  /** A time text `M'SSxmmm` with a separator `x` that is neither a quote
      nor a newline. */
  predicate IsTimeShape(core: string) {
    && |core| == 8 && IsDigit(core[0]) && core[1] == '\'' && IsDigit(core[2]) && IsDigit(core[3])
    && core[4] != '\'' && core[4] != '\n' && IsDigit(core[5]) && IsDigit(core[6]) && IsDigit(core[7])
  }

  /** A canonical time text `M'SS.mmm`. */
  predicate IsTimeText(core: string) {
    IsTimeShape(core) && core[4] == '.'
  }

  /** The minutes, seconds and thousandths of a canonical time text. */
  function MinutesField(core: string): nat
    requires IsTimeText(core)
  {
    DigitValue(core[0])
  }

  function SecondsField(core: string): nat
    requires IsTimeText(core)
  {
    DigitValue(core[2]) * 10 + DigitValue(core[3])
  }

  function MillisField(core: string): nat
    requires IsTimeText(core)
  {
    DigitValue(core[5]) * 100 + DigitValue(core[6]) * 10 + DigitValue(core[7])
  }

  /** The milliseconds a canonical time text stands for. */
  function TimeTextMillis(core: string): int
    requires IsTimeText(core)
  {
    MinutesField(core) * 60000 + SecondsField(core) * 1000 + MillisField(core)
  }

  /** `M'SS.mmm` splits at its one quote into the minutes and the seconds. */
  lemma SplitTimeText(core: string)
    requires IsTimeShape(core)
    ensures Split(core, "'") == [core[..1], core[2..]]
  {
    var m := core[..1];
    var sec := core[2..];
    assert core == m + ['\''] + sec;
    SplitAppend(m, '\'', sec);
    ContainsChar(m, '\'');
    ContainsChar(sec, '\'');
    SplitNone(m, "'");
    SplitNone(sec, "'");
  }

  /** The minutes field of `M'SS.mmm` reads as `M`. */
  lemma ParseMinutes(core: string)
    requires IsTimeShape(core)
    ensures ParseInt(core[..1]) == Some(DigitValue(core[0]))
  {
    var m := core[..1];
    ParseIntDigits(m);
    assert m[..0] == [];
  }

  /** The seconds field `SS.mmm` of `M'SS.mmm` reads as its decimal value. */
  lemma ParseSeconds(core: string)
    requires IsTimeText(core)
    ensures ParseFloat(core[2..]) == Some(DecimalValue(core[2..4], core[5..]))
  {
    assert core[2..] == core[2..4] + "." + core[5..];
    ParseFloatDecimal(core[2..4], core[5..]);
  }

  /** `60 * M + SS.mmm`, in thousandths, is `M*60000 + SS*1000 + mmm`. */
  lemma TimeTextArithmetic(core: string)
    requires IsTimeText(core)
    ensures 1000.0 * (MinutesField(core) as real * 60.0 + DecimalValue(core[2..4], core[5..])) == TimeTextMillis(core) as real
  {
    var ip := core[2..4];
    var fp := core[5..];
    DigitsTwo(ip);
    FracThree(fp);
  }

  /** The value `v` the seconds field reads as, with `60 * M + v` equal to
      the time in thousandths. */
  lemma SecondsOf(core: string) returns (v: real)
    requires IsTimeText(core)
    ensures ParseFloat(core[2..]) == Some(v)
    ensures 1000.0 * (MinutesField(core) as real * 60.0 + v) == TimeTextMillis(core) as real
  {
    ParseSeconds(core);
    TimeTextArithmetic(core);
    v := DecimalValue(core[2..4], core[5..]);
  }

  /** Rounding to three decimals keeps a value that already has at most
      three. */
  lemma RoundMillisExact(x: real, k: int)
    requires 1000.0 * x == k as real
    ensures RoundMillis(x) == k
  {
  }

  /** A canonical time text `M'SS.mmm` converts to `M*60000 + SS*1000 + mmm`
      milliseconds. */
  lemma MinToMillisCanonical(core: string)
    requires IsTimeText(core)
    ensures MinToMillis(core) == Ok(TimeTextMillis(core))
  {
    SplitTimeText(core);
    ParseMinutes(core);
    var v := SecondsOf(core);
    MinToMillisParts(core, MinutesField(core), v);
    RoundMillisExact(MinutesField(core) as real * 60.0 + v, TimeTextMillis(core));
  }

  /** `MinToMillis` once both sides of the `'` have parsed. */
  lemma MinToMillisParts(laptime: string, m: int, sec: real)
    requires |Split(laptime, "'")| >= 2
    requires ParseInt(Split(laptime, "'")[0]) == Some(m)
    requires ParseFloat(Split(laptime, "'")[1]) == Some(sec)
    ensures MinToMillis(laptime) == Ok(RoundMillis(m as real * 60.0 + sec))
  {
  }

  lemma DigitsTwo(s: string)
    requires |s| == 2 && AllDigits(s)
    ensures DigitsValue(s) == DigitValue(s[0]) * 10 + DigitValue(s[1])
  {
    var s1 := s[..1];
    assert s[..|s| - 1] == s1;
    assert DigitsValue(s) == DigitsValue(s1) * 10 + DigitValue(s[1]);
    assert s1[..|s1| - 1] == [];
    assert DigitsValue(s1) == DigitsValue([]) * 10 + DigitValue(s1[0]);
  }

  lemma FracThree(s: string)
    requires |s| == 3 && AllDigits(s)
    ensures FracValue(s) == (DigitValue(s[0]) * 100 + DigitValue(s[1]) * 10 + DigitValue(s[2])) as real / 1000.0
  {
    var s1 := s[1..];
    var s2 := s1[1..];
    assert s2[1..] == [];
    assert FracValue(s2) == DigitValue(s[2]) as real / 10.0;
    assert FracValue(s1) == (DigitValue(s[1]) as real + FracValue(s2)) / 10.0;
  }

  /** A text `\nM'SS.mmm\n...` converts to the milliseconds of its time. */
  lemma LapMillisOfTime(t: string)
    requires |t| >= 10 && t[0] == '\n' && t[9] == '\n' && IsTimeText(t[1..9])
    ensures LapMillis(t) == Ok(TimeTextMillis(t[1..9]))
  {
    var core := t[1..9];
    assert '\n' !in core;
    TrimCanonical(t);
    MinToMillisCanonical(core);
  }

  /** A lap token with newlines at both ends of its time converts to
      `M*60000 + SS*1000 + mmm` milliseconds: at least 1'00.000 and, as the
      pattern lets the seconds run to 99, at most 2'99.999. */
  lemma LapMillisCanonical(t: string)
    requires IsLapToken(t) && t[0] == '\n' && t[5] == '.' && t[9] == '\n'
    ensures LapMillis(t) == Ok(CanonicalMillis(t))
    ensures 60000 <= CanonicalMillis(t) < 220000
  {
    var core := t[1..9];
    assert IsTimeText(core);
    LapMillisOfTime(t);
    assert TimeTextMillis(core) == CanonicalMillis(t);
  }

  /** A time text whose separator is none of a digit, `.`, `_`, `e`, `E`
      (nor a quote) is not a float: `_min_to_seconds` raises `ValueError`. */
  lemma MinToMillisBadSeparator(core: string)
    requires IsTimeShape(core) && !IsDigit(core[4]) && core[4] !in "_.eE"
    ensures MinToMillis(core) == Err(ValueError)
  {
    SplitTimeText(core);
    ParseMinutes(core);
    assert core[2..] == core[2..4] + [core[4]] + core[5..];
    ParseFloatBadMark(core[2..4], core[4], core[5..]);
  }

  /** A lap token with newlines around its time whose seconds separator is
      not one `float()` accepts makes the conversion raise `ValueError`. */
  lemma LapMillisBadSeparator(t: string)
    requires IsLapToken(t) && t[0] == '\n' && t[9] == '\n'
    requires !IsDigit(t[5]) && t[5] !in "_.eE'"
    ensures LapMillis(t) == Err(ValueError)
  {
    var core := t[1..9];
    assert IsTimeShape(core);
    assert '\n' !in core;
    TrimCanonical(t);
    MinToMillisBadSeparator(core);
  }

  /** A lap token without any newline makes `_trim_laptimes` raise
      `IndexError`. */
  lemma LapMillisNoNewline(t: string)
    requires '\n' !in t
    ensures LapMillis(t) == Err(IndexError)
  {
  }
}
