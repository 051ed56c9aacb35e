/** `RaceResources` of utils/RaceNames.py: the calendar of twenty events,
    from event number to three-letter code to the `"n_CODE"` name under
    which results are stored. A dictionary lookup is a function that gives
    `None` for a key the dictionary does not hold. */
module RaceNames {
  import opened Wrappers
  import opened Numbers

  /** `race_names[code]`: three-letter code to `"n_CODE"`. */
  function RaceName(code: string): Option<string> {
    match code
    case "POR" => Some("1_POR")
    case "ARG" => Some("2_ARG")
    case "AME" => Some("3_AME")
    case "SPA" => Some("4_SPA")
    case "FRA" => Some("5_FRA")
    case "ITA" => Some("6_ITA")
    case "GER" => Some("7_GER")
    case "NED" => Some("8_NED")
    case "GBR" => Some("9_GBR")
    case "AUT" => Some("10_AUT")
    case "CAT" => Some("11_CAT")
    case "RSM" => Some("12_RSM")
    case "IND" => Some("13_IND")
    case "JPN" => Some("14_JPN")
    case "INA" => Some("15_INA")
    case "AUS" => Some("16_AUS")
    case "THA" => Some("17_THA")
    case "MAL" => Some("18_MAL")
    case "QAT" => Some("19_QAT")
    case "VAL" => Some("20_VAL")
    case _ => None
  }

  /** `race_number[n]`: event number to three-letter code. */
  function RaceNumber(n: int): Option<string> {
    match n
    case 1 => Some("POR")
    case 2 => Some("ARG")
    case 3 => Some("AME")
    case 4 => Some("SPA")
    case 5 => Some("FRA")
    case 6 => Some("ITA")
    case 7 => Some("GER")
    case 8 => Some("NED")
    case 9 => Some("GBR")
    case 10 => Some("AUT")
    case 11 => Some("CAT")
    case 12 => Some("RSM")
    case 13 => Some("IND")
    case 14 => Some("JPN")
    case 15 => Some("INA")
    case 16 => Some("AUS")
    case 17 => Some("THA")
    case 18 => Some("MAL")
    case 19 => Some("QAT")
    case 20 => Some("VAL")
    case _ => None
  }

  /** `number_to_name`: both lookups, either of which raises `KeyError`
      for a missing key. */
  function NumberToName(n: int): Result<string> {
    match RaceNumber(n)
    case None => Err(KeyError)
    case Some(code) =>
      match RaceName(code)
      case None => Err(KeyError)
      case Some(name) => Ok(name)
  }

  /** The two tables agree: the event numbers are exactly 1 to 20, no two
      events share a code, and every code is a key of `race_names`, so the
      second lookup of `number_to_name` never raises. */
  lemma TablesMatch()
    ensures forall n :: RaceNumber(n).Some? <==> 1 <= n <= 20
    ensures forall a, b :: RaceNumber(a).Some? && RaceNumber(a) == RaceNumber(b) ==> a == b
    ensures forall n :: RaceNumber(n).Some? ==> RaceName(RaceNumber(n).value).Some?
  {
  }

  /** Every key of `race_names` is the code of some event: the codes of
      `race_number` are exactly the keys of `race_names`. */
  lemma NameIsCode(code: string)
    requires RaceName(code).Some?
    ensures exists n :: 1 <= n <= 20 && RaceNumber(n) == Some(code)
  {
    match code
    case "POR" => assert RaceNumber(1) == Some(code);
    case "ARG" => assert RaceNumber(2) == Some(code);
    case "AME" => assert RaceNumber(3) == Some(code);
    case "SPA" => assert RaceNumber(4) == Some(code);
    case "FRA" => assert RaceNumber(5) == Some(code);
    case "ITA" => assert RaceNumber(6) == Some(code);
    case "GER" => assert RaceNumber(7) == Some(code);
    case "NED" => assert RaceNumber(8) == Some(code);
    case "GBR" => assert RaceNumber(9) == Some(code);
    case "AUT" => assert RaceNumber(10) == Some(code);
    case "CAT" => assert RaceNumber(11) == Some(code);
    case "RSM" => assert RaceNumber(12) == Some(code);
    case "IND" => assert RaceNumber(13) == Some(code);
    case "JPN" => assert RaceNumber(14) == Some(code);
    case "INA" => assert RaceNumber(15) == Some(code);
    case "AUS" => assert RaceNumber(16) == Some(code);
    case "THA" => assert RaceNumber(17) == Some(code);
    case "MAL" => assert RaceNumber(18) == Some(code);
    case "QAT" => assert RaceNumber(19) == Some(code);
    case "VAL" => assert RaceNumber(20) == Some(code);
  }

  /** Event `n` is stored as its number, an underscore and its code. */
  ghost predicate NamedByNumber(n: int)
    requires 1 <= n <= 20
  {
    && RaceNumber(n).Some?
    && NumberToName(n) == Ok(NatToString(n) + "_" + RaceNumber(n).value)
  }

  /** Events `lo` to `hi` are each stored as their number, an underscore
      and their code. */
  ghost predicate NamedBetween(lo: int, hi: int)
    requires 1 <= lo && hi <= 20
    decreases hi - lo
  {
    hi < lo || (NamedByNumber(lo) && NamedBetween(lo + 1, hi))
  }

  /** One entry of both tables, checked on its literal values. */
  lemma Entry(n: int, digits: string, code: string, name: string)
    requires 1 <= n <= 20
    requires RaceNumber(n) == Some(code) && RaceName(code) == Some(name)
    requires NatToString(n) == digits && name == digits + "_" + code
    ensures NamedByNumber(n)
  {
  }

  /* The calendar, entry by entry, five events at a time. */

  lemma NamedOneToFive()
    ensures NamedBetween(1, 5)
  {
    Entry(1, "1", "POR", "1_POR");
    Entry(2, "2", "ARG", "2_ARG");
    Entry(3, "3", "AME", "3_AME");
    Entry(4, "4", "SPA", "4_SPA");
    Entry(5, "5", "FRA", "5_FRA");
  }

  lemma NamedSixToTen()
    ensures NamedBetween(6, 10)
  {
    Entry(6, "6", "ITA", "6_ITA");
    Entry(7, "7", "GER", "7_GER");
    Entry(8, "8", "NED", "8_NED");
    Entry(9, "9", "GBR", "9_GBR");
    Entry(10, "10", "AUT", "10_AUT");
  }

  lemma NamedElevenToFifteen()
    ensures NamedBetween(11, 15)
  {
    Entry(11, "11", "CAT", "11_CAT");
    Entry(12, "12", "RSM", "12_RSM");
    Entry(13, "13", "IND", "13_IND");
    Entry(14, "14", "JPN", "14_JPN");
    Entry(15, "15", "INA", "15_INA");
  }

  lemma NamedSixteenToTwenty()
    ensures NamedBetween(16, 20)
  {
    Entry(16, "16", "AUS", "16_AUS");
    Entry(17, "17", "THA", "17_THA");
    Entry(18, "18", "MAL", "18_MAL");
    Entry(19, "19", "QAT", "19_QAT");
    Entry(20, "20", "VAL", "20_VAL");
  }

  lemma {:induction false} NamedBetweenAt(lo: int, hi: int, n: int)
    requires 1 <= lo <= n <= hi <= 20 && NamedBetween(lo, hi)
    ensures NamedByNumber(n)
    decreases n - lo
  {
    if lo < n {
      NamedBetweenAt(lo + 1, hi, n);
    }
  }

  /** Every event of the calendar is stored as its number, an underscore
      and its code. */
  lemma NumberToNameSpec(n: int)
    requires 1 <= n <= 20
    ensures RaceNumber(n).Some?
    ensures NumberToName(n) == Ok(NatToString(n) + "_" + RaceNumber(n).value)
  {
    if n <= 5 {
      NamedOneToFive();
      NamedBetweenAt(1, 5, n);
    } else if n <= 10 {
      NamedSixToTen();
      NamedBetweenAt(6, 10, n);
    } else if n <= 15 {
      NamedElevenToFifteen();
      NamedBetweenAt(11, 15, n);
    } else {
      NamedSixteenToTwenty();
      NamedBetweenAt(16, 20, n);
    }
  }

  /** A number outside the calendar raises `KeyError`. */
  lemma NumberToNameOutside(n: int)
    requires n < 1 || n > 20
    ensures NumberToName(n) == Err(KeyError)
  {
  }
}
