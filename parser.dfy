/** `PdfParser` of utils/Parser.py from the extracted page text onward:
    the rider/lap-time table of a practice or race timing sheet, and the
    points of a race classification. */
module Parser {
  import opened Wrappers
  import opened Strings
  import opened Numbers
  import opened Dicts
  import opened LapTimes

  // ---------------------------------------------------------------------
  // Rider names.

  /** What the rider-name pattern finds in the text of a timing sheet: the
      text before the first rider, and for each rider the matched heading
      (nationality, name, position) with the text that follows it up to the
      next heading. */
  datatype NameScan = NameScan(preamble: string, riders: seq<(string, string)>)

  /** `re.findall(rider_name_pattern, text)`: the headings, in order. */
  function Headings(scan: NameScan): (r: seq<string>)
    ensures |r| == |scan.riders|
    ensures forall i :: 0 <= i < |r| ==> r[i] == scan.riders[i].0
  {
    seq(|scan.riders|, i requires 0 <= i < |scan.riders| => scan.riders[i].0)
  }

  /** `re.split(rider_name_pattern, text)`: the text around the headings, one
      piece more than there are headings. */
  function Pieces(scan: NameScan): (r: seq<string>)
    ensures |r| == |scan.riders| + 1 && r[0] == scan.preamble
    ensures forall i :: 0 <= i < |scan.riders| ==> r[i + 1] == scan.riders[i].1
  {
    [scan.preamble] + seq(|scan.riders|, i requires 0 <= i < |scan.riders| => scan.riders[i].1)
  }

  /** `_trim_names`: the second-to-last newline-separated segment of a
      heading; a heading without a newline raises `IndexError`. */
  function TrimName(name: string): (r: Result<string>)
    ensures r.Err? <==> '\n' !in name
    ensures r.Err? ==> r.error == IndexError
  {
    var parts := Split(name, "\n");
    ContainsChar(name, '\n');
    if |parts| < 2 then
      SplitNone(name, "\n");
      Err(IndexError)
    else
      assert Find(name, "\n").Some?;
      Ok(parts[|parts| - 2])
  }

  /** Whatever precedes them, the name is the segment between the last two
      newlines of the heading. */
  lemma TrimNameOf(x: string, y: string, z: string)
    requires '\n' !in y && '\n' !in z
    ensures TrimName(x + "\n" + y + "\n" + z) == Ok(y)
  {
    assert x + "\n" + y + "\n" + z == x + ['\n'] + (y + ['\n'] + z);
    SplitAppend(x, '\n', y + ['\n'] + z);
    SplitAppend(y, '\n', z);
    ContainsChar(y, '\n');
    ContainsChar(z, '\n');
    SplitNone(y, "\n");
    SplitNone(z, "\n");
  }

  // ---------------------------------------------------------------------
  // Lap tokens of one rider block.

  /** `times[:times.find("unfinished")]` when the word occurs, else `times`. */
  function CutUnfinished(times: string): string {
    match Find(times, "unfinished")
    case None => times
    case Some(i) => times[..i]
  }

  /** The cut keeps the text before the first "unfinished" and nothing
      after it: a prefix without the word, ending where the word starts,
      and the whole text when the word does not occur. */
  lemma CutUnfinishedSpec(times: string)
    ensures CutUnfinished(times) <= times
    ensures !Contains(CutUnfinished(times), "unfinished")
    ensures Contains(times, "unfinished") ==> OccursAt(times, "unfinished", |CutUnfinished(times)|)
    ensures !Contains(times, "unfinished") ==> CutUnfinished(times) == times
  {
    FindSpec(times, "unfinished");
    if Contains(times, "unfinished") {
      FindPrefix(times, "unfinished");
    }
  }

  /** The lap tokens a stint keeps: all of them in a race; otherwise the out
      lap (the first token) is dropped, and in every stint but the last one
      the pit-in lap (the last token) too. */
  function KeptTokens<T>(tokens: seq<T>, isRace: bool, isLast: bool): (r: seq<T>)
    ensures isRace ==> r == tokens
    ensures !isRace && isLast ==> |r| == (if |tokens| >= 1 then |tokens| - 1 else 0)
    ensures !isRace && !isLast ==> |r| == (if |tokens| >= 2 then |tokens| - 2 else 0)
    ensures !isRace ==> forall k :: 0 <= k < |r| ==> r[k] == tokens[k + 1]
  {
    if isRace then tokens
    else if isLast then (if |tokens| == 0 then [] else tokens[1..])
    else if |tokens| <= 2 then []
    else tokens[1..|tokens| - 1]
  }

  /** The stints of a rider block: the text between pit entries. */
  function Stints(block: string): seq<string> {
    Split(block, "\nP\n")
  }

  /** There is at least one stint and no stint contains a pit entry. */
  lemma StintsSpec(block: string)
    ensures |Stints(block)| >= 1
    ensures forall k :: 0 <= k < |Stints(block)| ==> !Contains(Stints(block)[k], "\nP\n")
  {
    SplitPieces(block, "\nP\n");
  }

  /** The lap tokens of every stint, after the cut at "unfinished". */
  function StintTokenLists(stints: seq<string>): (r: seq<seq<string>>)
    ensures |r| == |stints|
    ensures forall k :: 0 <= k < |r| ==> r[k] == LapTokens(CutUnfinished(stints[k]))
  {
    seq(|stints|, k requires 0 <= k < |stints| => LapTokens(CutUnfinished(stints[k])))
  }

  /** The retained tokens of stints `i..`, in stint order, given the tokens
      of each stint. */
  function KeptFrom<T>(tokss: seq<seq<T>>, i: nat, isRace: bool): seq<T>
    requires i <= |tokss|
    decreases |tokss| - i
  {
    if i == |tokss| then []
    else KeptTokens(tokss[i], isRace, i == |tokss| - 1) + KeptFrom(tokss, i + 1, isRace)
  }

  /** The retained tokens of a rider block. */
  function BlockTokens(block: string, isRace: bool): seq<string> {
    KeptFrom(StintTokenLists(Stints(block)), 0, isRace)
  }

  /** The lap times of one rider block, in milliseconds: the retained tokens
      of all its stints, converted in order; the first token that does not
      convert raises. */
  function BlockLaps(block: string, isRace: bool): Result<seq<int>> {
    MapAll(LapMillis, BlockTokens(block, isRace))
  }

  /** `BlockLaps` as a function of the block alone. */
  function BlockLapsOf(isRace: bool): string -> Result<seq<int>> {
    block => BlockLaps(block, isRace)
  }

  /** The concatenation of a list of lists. */
  function Concat<T>(xss: seq<seq<T>>): seq<T> {
    if xss == [] then [] else xss[0] + Concat(xss[1..])
  }

  /** In a race every token of every stint is kept, in stint order. */
  lemma {:induction false} RaceKeepsAll<T>(tokss: seq<seq<T>>, i: nat)
    requires i <= |tokss|
    ensures KeptFrom(tokss, i, true) == Concat(tokss[i..])
    decreases |tokss| - i
  {
    if i < |tokss| {
      RaceKeepsAll(tokss, i + 1);
      assert tokss[i..][1..] == tokss[i + 1..];
    } else {
      assert tokss[i..] == [];
    }
  }

  /** The number of tokens in stints `i..`. */
  function TokenCount<T>(tokss: seq<seq<T>>, i: nat): nat
    requires i <= |tokss|
    decreases |tokss| - i
  {
    if i == |tokss| then 0 else |tokss[i]| + TokenCount(tokss, i + 1)
  }

  /** In a practice session a stint loses its out lap and, unless it is the
      last one, its pit-in lap: with at least two tokens per stint, the
      retained count is the token count minus two per stint, plus one. */
  lemma {:induction false} PracticeCount<T>(tokss: seq<seq<T>>, i: nat)
    requires i < |tokss|
    requires forall k :: i <= k < |tokss| ==> |tokss[k]| >= 2
    ensures |KeptFrom(tokss, i, false)| == TokenCount(tokss, i) - 2 * (|tokss| - i) + 1
    decreases |tokss| - i
  {
    if i + 1 < |tokss| {
      PracticeCount(tokss, i + 1);
    }
  }

  /** Every retained token is a lap token. */
  lemma {:induction false} KeptAreTokens(tokss: seq<seq<string>>, i: nat, isRace: bool)
    requires i <= |tokss|
    requires forall k, j :: 0 <= k < |tokss| && 0 <= j < |tokss[k]| ==> IsLapToken(tokss[k][j])
    ensures forall k :: 0 <= k < |KeptFrom(tokss, i, isRace)| ==> IsLapToken(KeptFrom(tokss, i, isRace)[k])
    decreases |tokss| - i
  {
    if i < |tokss| {
      KeptAreTokens(tokss, i + 1, isRace);
    }
  }

  /** The stint token lists hold lap tokens only. */
  lemma StintTokensAreTokens(stints: seq<string>)
    ensures var tokss := StintTokenLists(stints);
            forall k, j :: 0 <= k < |tokss| && 0 <= j < |tokss[k]| ==> IsLapToken(tokss[k][j])
  {
    var tokss := StintTokenLists(stints);
    forall k | 0 <= k < |tokss| ensures forall j :: 0 <= j < |tokss[k]| ==> IsLapToken(tokss[k][j]) {
      LapTokensSpec(CutUnfinished(stints[k]));
    }
  }

  /** A lap token whose leading and trailing whitespace are newlines and
      whose separator is a decimal point. */
  predicate PlainToken(t: string) {
    |t| >= 10 && t[0] == '\n' && t[5] == '.' && t[9] == '\n'
  }

  /** Plain lap tokens convert without error, to laps of at least one
      minute and under 3 minutes 40. */
  lemma PlainLaps(ts: seq<string>)
    requires forall k :: 0 <= k < |ts| ==> IsLapToken(ts[k]) && PlainToken(ts[k])
    ensures MapAll(LapMillis, ts).Ok?
    ensures forall k :: 0 <= k < |MapAll(LapMillis, ts).value| ==> 60000 <= MapAll(LapMillis, ts).value[k] < 220000
  {
    MapAllSpec(LapMillis, ts);
    forall k | 0 <= k < |ts| ensures LapMillis(ts[k]) == Ok(CanonicalMillis(ts[k])) && 60000 <= CanonicalMillis(ts[k]) < 220000 {
      LapMillisCanonical(ts[k]);
    }
  }

  /** When every retained token of a block is plain, the block converts
      without error, to laps of at least one minute and under 3 minutes 40. */
  lemma BlockLapsPlain(block: string, isRace: bool)
    requires forall k :: 0 <= k < |BlockTokens(block, isRace)| ==> PlainToken(BlockTokens(block, isRace)[k])
    ensures BlockLaps(block, isRace).Ok?
    ensures forall k :: 0 <= k < |BlockLaps(block, isRace).value| ==> 60000 <= BlockLaps(block, isRace).value[k] < 220000
  {
    StintTokensAreTokens(Stints(block));
    KeptAreTokens(StintTokenLists(Stints(block)), 0, isRace);
    PlainLaps(BlockTokens(block, isRace));
  }

  // ---------------------------------------------------------------------
  // The lap-time table.

  /** `file.split("_")[-1][:-4]`: the text after the last underscore without
      its last four characters (the `.pdf` extension). */
  function SessionTag(file: string): string {
    var last := LastPiece(file, "_");
    if |last| < 4 then "" else last[..|last| - 4]
  }

  /** The session tag of a download name `<prefix>_<session>.pdf` is the
      session. */
  lemma SessionTagOf(prefix: string, session: string)
    requires '_' !in session
    ensures SessionTag(prefix + "_" + session + ".pdf") == session
  {
    var tail := session + ".pdf";
    assert prefix + "_" + session + ".pdf" == prefix + ['_'] + tail;
    assert '_' !in tail;
    ContainsChar(tail, '_');
    LastPieceAfter(prefix, '_', tail);
    assert tail[..|tail| - 4] == session;
  }

  /** The table `parse_pdf` builds: each rider's lap times in milliseconds,
      and the session tag written on every row. */
  datatype LapSheet = LapSheet(laps: Dict<string, seq<int>>, session: string)

  /** The deletion criterion: at least three laps. */
  predicate HasThreeLaps(laps: seq<int>) {
    |laps| >= 3
  }

  /** `parse_pdf` on the scanned text: names first, then the laps of every
      block, paired with `dict(zip(...))`, then the optional deletion of
      riders with fewer than three laps. */
  function ParsePdfSpec(scan: NameScan, file: string, deleteShort: bool, isRace: bool): Result<LapSheet> {
    match MapAll(TrimName, Headings(scan))
    case Err(e) => Err(e)
    case Ok(names) =>
      match MapAll(BlockLapsOf(isRace), Pieces(scan)[1..])
      case Err(e) => Err(e)
      case Ok(laps) =>
        var d := FromPairs(names, laps);
        Ok(LapSheet(if deleteShort then FilterValues(d, HasThreeLaps) else d, SessionTag(file)))
  }

  /** The name loop of `parse_pdf`: `_trim_names` of every heading, in
      order; the first heading without a newline raises. */
  method TrimNames(headings: seq<string>) returns (r: Result<seq<string>>)
    ensures r == MapAll(TrimName, headings)
  {
    var names: seq<string> := [];
    var i := 0;
    assert headings[i..] == headings;
    PrependAssoc([], [], MapAll(TrimName, headings));
    while i < |headings|
      invariant 0 <= i <= |headings|
      invariant MapAll(TrimName, headings) == Prepend(names, MapAll(TrimName, headings[i..]))
    {
      var name := TrimName(headings[i]);
      if name.Err? {
        assert headings[i..][0] == headings[i];
        return Err(name.error);
      }
      MapAllStep(TrimName, headings, i);
      PrependAssoc(names, [name.value], MapAll(TrimName, headings[i + 1..]));
      names := names + [name.value];
      i := i + 1;
    }
    assert headings[i..] == [];
    assert MapAll(TrimName, headings[i..]) == Ok([]);
    assert names + [] == names;
    return Ok(names);
  }

  /** The stint loop of `parse_pdf` for one rider block: split at pit
      entries, cut each stint at "unfinished", keep the tokens the session
      policy keeps and convert them, extending the block's laps. */
  method StintLapTimes(block: string, isRace: bool) returns (r: Result<seq<int>>)
    ensures r == BlockLaps(block, isRace)
  {
    r := ConvertStints(Stints(block), isRace, LapMillis);
  }

  /** The stint loop with the conversion of one token (`_min_to_seconds`
      after `_trim_laptimes`) as a parameter. */
  method ConvertStints<B>(stints: seq<string>, isRace: bool, convert: string -> Result<B>) returns (r: Result<seq<B>>)
    ensures r == MapAll(convert, KeptFrom(StintTokenLists(stints), 0, isRace))
  {
    ghost var tokss := StintTokenLists(stints);
    ConvertedFromSpec(convert, tokss, 0, isRace);
    var laps: seq<B> := [];
    var s := 0;
    PrependAssoc([], [], ConvertedFrom(convert, tokss, 0, isRace));
    while s < |stints|
      invariant 0 <= s <= |stints|
      invariant ConvertedFrom(convert, tokss, 0, isRace) == Prepend(laps, ConvertedFrom(convert, tokss, s, isRace))
    {
      var tokens := StintLapTokens(stints[s]);
      var temp := MapAll(convert, KeptTokens(tokens, isRace, s == |stints| - 1));
      assert tokens == tokss[s];
      if temp.Err? {
        return Err(temp.error);
      }
      PrependAssoc(laps, temp.value, ConvertedFrom(convert, tokss, s + 1, isRace));
      laps := laps + temp.value;
      s := s + 1;
    }
    assert laps + [] == laps;
    return Ok(laps);
  }

  /** The stint loop's own order of work: the converted laps of stint `s`,
      then those of the stints after it; the first failing stint's error
      is the result. */
  function ConvertedFrom<B>(convert: string -> Result<B>, tokss: seq<seq<string>>, s: nat, isRace: bool): Result<seq<B>>
    requires s <= |tokss|
    decreases |tokss| - s
  {
    if s == |tokss| then Ok([])
    else
      match MapAll(convert, KeptTokens(tokss[s], isRace, s == |tokss| - 1))
      case Err(e) => Err(e)
      case Ok(x) => Prepend(x, ConvertedFrom(convert, tokss, s + 1, isRace))
  }

  /** Converting stint by stint is converting the retained tokens of all
      stints at once. */
  lemma {:induction false} ConvertedFromSpec<B>(convert: string -> Result<B>, tokss: seq<seq<string>>, s: nat, isRace: bool)
    requires s <= |tokss|
    ensures ConvertedFrom(convert, tokss, s, isRace) == MapAll(convert, KeptFrom(tokss, s, isRace))
    decreases |tokss| - s
  {
    if s < |tokss| {
      var kept := KeptTokens(tokss[s], isRace, s == |tokss| - 1);
      var later := KeptFrom(tokss, s + 1, isRace);
      assert KeptFrom(tokss, s, isRace) == kept + later;
      ConvertedFromSpec(convert, tokss, s + 1, isRace);
      MapAllConcat(convert, kept, later);
    }
  }

  /** The lap tokens of one stint: cut at the first "unfinished", then
      matched. */
  method StintLapTokens(times: string) returns (tokens: seq<string>)
    ensures tokens == LapTokens(CutUnfinished(times))
  {
    var text := times;
    var unfinished := Find(text, "unfinished");
    if unfinished.Some? {
      text := text[..unfinished.value];
    }
    tokens := LapTokens(text);
  }

  /** The block loop of `parse_pdf`: the laps of every rider block, in
      order; the first conversion error raises. */
  method RiderLapTimes(riderData: seq<string>, isRace: bool) returns (r: Result<seq<seq<int>>>)
    ensures r == MapAll(BlockLapsOf(isRace), riderData)
  {
    var lapTimes: seq<seq<int>> := [];
    var j := 0;
    assert riderData[j..] == riderData;
    PrependAssoc([], [], MapAll(BlockLapsOf(isRace), riderData));
    while j < |riderData|
      invariant 0 <= j <= |riderData|
      invariant MapAll(BlockLapsOf(isRace), riderData) == Prepend(lapTimes, MapAll(BlockLapsOf(isRace), riderData[j..]))
    {
      var laps := StintLapTimes(riderData[j], isRace);
      if laps.Err? {
        assert riderData[j..][0] == riderData[j];
        return Err(laps.error);
      }
      MapAllStep(BlockLapsOf(isRace), riderData, j);
      PrependAssoc(lapTimes, [laps.value], MapAll(BlockLapsOf(isRace), riderData[j + 1..]));
      lapTimes := lapTimes + [laps.value];
      j := j + 1;
    }
    assert riderData[j..] == [];
    assert MapAll(BlockLapsOf(isRace), riderData[j..]) == Ok([]);
    assert lapTimes + [] == lapTimes;
    return Ok(lapTimes);
  }

  /** The scan of `parse_pdf` over `d.items()` collecting the riders with
      fewer than three laps. */
  method CollectShort(d: Dict<string, seq<int>>) returns (toDelete: seq<string>)
    ensures toDelete == KeysFailing(d, HasThreeLaps)
  {
    toDelete := [];
    var k := 0;
    while k < |d|
      invariant 0 <= k <= |d|
      invariant toDelete == KeysFailing(d[..k], HasThreeLaps)
    {
      if |d[k].1| < 3 {
        toDelete := toDelete + [d[k].0];
      }
      KeysFailingAppend(d[..k], d[k], HasThreeLaps);
      assert d[..k + 1] == d[..k] + [d[k]];
      k := k + 1;
    }
    assert d[..k] == d;
  }

  /** The `del` loop of `parse_pdf`, guarded by `if to_delete`. */
  method DeleteAll(d: Dict<string, seq<int>>, toDelete: seq<string>) returns (r: Dict<string, seq<int>>)
    ensures r == Without(d, toDelete)
  {
    r := d;
    if |toDelete| > 0 {
      var m := 0;
      WithoutNothing(d, []);
      while m < |toDelete|
        invariant 0 <= m <= |toDelete|
        invariant r == Without(d, toDelete[..m])
      {
        RemoveWithout(d, toDelete[..m], toDelete[m]);
        assert toDelete[..m + 1] == toDelete[..m] + [toDelete[m]];
        r := Remove(r, toDelete[m]);
        m := m + 1;
      }
      assert toDelete[..m] == toDelete;
    } else {
      WithoutNothing(d, toDelete);
    }
  }

  /** `parse_pdf` on the scanned text. */
  method ParsePdf(scan: NameScan, file: string, deleteShort: bool, isRace: bool) returns (r: Result<LapSheet>)
    ensures r == ParsePdfSpec(scan, file, deleteShort, isRace)
  {
    var names := TrimNames(Headings(scan));
    if names.Err? {
      return Err(names.error);
    }
    var riderData := Pieces(scan);
    riderData := riderData[1..];
    var lapTimes := RiderLapTimes(riderData, isRace);
    if lapTimes.Err? {
      return Err(lapTimes.error);
    }
    var d := FromPairs(names.value, lapTimes.value);
    if deleteShort {
      var toDelete := CollectShort(d);
      d := DeleteAll(d, toDelete);
      FromPairsSpec(names.value, lapTimes.value);
      WithoutFailing(FromPairs(names.value, lapTimes.value), HasThreeLaps);
    }
    return Ok(LapSheet(d, SessionTag(file)));
  }

  /** Each rider's entry holds the laps of the block after its heading,
      under the name trimmed from the heading, unless a later heading trims
      to the same name; with deletion on, exactly the riders with fewer
      than three laps are gone. Every row carries the session tag. */
  lemma ParsePdfRider(scan: NameScan, file: string, deleteShort: bool, isRace: bool, i: int)
      returns (name: string, laps: seq<int>)
    requires ParsePdfSpec(scan, file, deleteShort, isRace).Ok?
    requires 0 <= i < |scan.riders|
    requires forall j :: i < j < |scan.riders| ==> TrimName(scan.riders[j].0) != TrimName(scan.riders[i].0)
    ensures TrimName(scan.riders[i].0) == Ok(name)
    ensures BlockLaps(scan.riders[i].1, isRace) == Ok(laps)
    ensures Get(ParsePdfSpec(scan, file, deleteShort, isRace).value.laps, name) ==
              if deleteShort && |laps| < 3 then None else Some(laps)
    ensures ParsePdfSpec(scan, file, deleteShort, isRace).value.session == SessionTag(file)
  {
    var headings := Headings(scan);
    var blocks := Pieces(scan)[1..];
    var names := MapAll(TrimName, headings).value;
    var lapLists := MapAll(BlockLapsOf(isRace), blocks).value;
    MapAllLength(TrimName, headings);
    MapAllLength(BlockLapsOf(isRace), blocks);
    MapAllAt(TrimName, headings, i);
    MapAllAt(BlockLapsOf(isRace), blocks, i);
    forall j | i < j < |names| ensures names[j] != names[i] {
      MapAllAt(TrimName, headings, j);
    }
    assert blocks[i] == scan.riders[i].1;
    assert BlockLapsOf(isRace)(blocks[i]) == BlockLaps(scan.riders[i].1, isRace);
    name, laps := names[i], lapLists[i];
    FromPairsSpec(names, lapLists);
    var d := FromPairs(names, lapLists);
    assert Get(d, names[i]) == Some(lapLists[i]);
    if deleteShort {
      FilterValuesGet(d, HasThreeLaps, names[i]);
    }
  }

  /** A heading without a newline makes `parse_pdf` raise `IndexError`. */
  lemma ParsePdfBadHeading(scan: NameScan, file: string, deleteShort: bool, isRace: bool, i: int)
    requires 0 <= i < |scan.riders| && '\n' !in scan.riders[i].0
    ensures ParsePdfSpec(scan, file, deleteShort, isRace) == Err(IndexError)
  {
    MapAllSpec(TrimName, Headings(scan));
  }

  /** Without deletion the table has one rider per distinct trimmed name,
      in order of first appearance. */
  lemma ParsePdfKeys(scan: NameScan, file: string, isRace: bool)
    requires ParsePdfSpec(scan, file, false, isRace).Ok?
    ensures var names := MapAll(TrimName, Headings(scan)).value;
            Keys(ParsePdfSpec(scan, file, false, isRace).value.laps) == Dedup(names)
  {
    var headings := Headings(scan);
    var blocks := Pieces(scan)[1..];
    MapAllLength(TrimName, headings);
    MapAllLength(BlockLapsOf(isRace), blocks);
    var names := MapAll(TrimName, headings).value;
    var laps := MapAll(BlockLapsOf(isRace), blocks).value;
    FromPairsSpec(names, laps);
    assert names[..|names|] == names;
  }


  // ---------------------------------------------------------------------
  // Race classification.

  /** The finish-time pattern `\d\d'\d\d.\d\d\d` matches at `i` (the `.`
      matches any character but a newline). */
  predicate RaceTimeAt(s: string, i: nat) {
    i + 9 <= |s| && IsDigit(s[i]) && IsDigit(s[i + 1]) && s[i + 2] == '\'' &&
    IsDigit(s[i + 3]) && IsDigit(s[i + 4]) && s[i + 5] != '\n' &&
    IsDigit(s[i + 6]) && IsDigit(s[i + 7]) && IsDigit(s[i + 8])
  }

  /** `re.split(race_time_pattern, s[start..])`, scanning from `i`: cut at
      every leftmost, non-overlapping finish time. */
  function RaceSplitFrom(s: string, start: nat, i: nat): (r: seq<string>)
    requires start <= i <= |s|
    ensures |r| >= 1
    decreases |s| - i
  {
    if |s| < i + 9 then [s[start..]]
    else if RaceTimeAt(s, i) then [s[start..i]] + RaceSplitFrom(s, i + 9, i + 9)
    else RaceSplitFrom(s, start, i + 1)
  }

  /** `re.split(race_time_pattern, text)`. */
  function RaceSplit(text: string): seq<string> {
    RaceSplitFrom(text, 0, 0)
  }

  /** A finish time inside a slice is one in the whole text. */
  lemma RaceTimeInSlice(s: string, start: nat, end: nat, j: nat)
    requires start <= end <= |s|
    ensures RaceTimeAt(s[start..end], j) <==> j + 9 <= end - start && RaceTimeAt(s, start + j)
  {
  }

  /** No chunk of the split holds a finish time: every time was cut out. */
  lemma {:induction false} RaceSplitChunks(s: string, start: nat, i: nat)
    requires start <= i <= |s|
    requires forall j :: start <= j < i ==> !RaceTimeAt(s, j)
    ensures forall k, j :: 0 <= k < |RaceSplitFrom(s, start, i)| && 0 <= j ==> !RaceTimeAt(RaceSplitFrom(s, start, i)[k], j)
    decreases |s| - i
  {
    var r := RaceSplitFrom(s, start, i);
    if |s| < i + 9 {
      forall j: nat ensures !RaceTimeAt(s[start..|s|], j) {
        RaceTimeInSlice(s, start, |s|, j);
      }
      assert s[start..] == s[start..|s|];
    } else if RaceTimeAt(s, i) {
      RaceSplitChunks(s, i + 9, i + 9);
      forall j: nat ensures !RaceTimeAt(s[start..i], j) {
        RaceTimeInSlice(s, start, i, j);
      }
      assert r == [s[start..i]] + RaceSplitFrom(s, i + 9, i + 9);
    } else {
      RaceSplitChunks(s, start, i + 1);
    }
  }

  /** The newline-separated lines of a chunk. */
  function Lines(chunk: string): seq<string> {
    Split(chunk, "\n")
  }

  /** The line, counted from the end, that holds the rider's name: the first
      chunk lacks the gap line the others have. */
  function RiderOffset(i: nat): nat {
    if i == 0 then 7 else 8
  }

  /** What one pass of the classification loop does with a chunk. */
  datatype Step = Stop | Raise(error: Error) | Record(rider: string, points: real)

  /** One pass of the loop of `parse_race_results_pdf` on chunk number `i`:
      a chunk saying "Not classified" breaks; the rider line is read before
      the length guard, so a chunk too short to hold it raises
      `IndexError`; a chunk of ten lines or fewer breaks, and so do points
      that do not parse; otherwise the rider's points are recorded. */
  function ChunkStep(chunk: string, i: nat): Step {
    if Contains(chunk, "Not classified") then Stop
    else
      var words := Lines(chunk);
      if |words| < RiderOffset(i) then Raise(IndexError)
      else if |words| <= 10 then Stop
      else
        match ParseFloat(words[|words| - 3])
        case None => Stop
        case Some(points) => Record(words[|words| - RiderOffset(i)], points)
  }

  /** The loop from step `i` on, with the points recorded so far in `acc`:
      it ends at the first `Stop` or `Raise`. A rider recorded again keeps
      its first position and takes the new points. */
  function ClassifyFrom(steps: seq<Step>, i: nat, acc: Dict<string, real>): Result<Dict<string, real>>
    requires i <= |steps|
    decreases |steps| - i
  {
    if i == |steps| then Ok(acc)
    else
      match steps[i]
      case Stop => Ok(acc)
      case Raise(e) => Err(e)
      case Record(rider, points) => ClassifyFrom(steps, i + 1, Put(acc, rider, points))
  }

  /** The step of every chunk, numbered from 0. */
  function StepsBy(chunks: seq<string>, step: (string, nat) -> Step): (r: seq<Step>)
    ensures |r| == |chunks|
    ensures forall k :: 0 <= k < |r| ==> r[k] == step(chunks[k], k)
  {
    seq(|chunks|, k requires 0 <= k < |chunks| => step(chunks[k], k))
  }

  /** The steps of all chunks of the split page. */
  function Steps(chunks: seq<string>): seq<Step> {
    StepsBy(chunks, ChunkStep)
  }

  /** Nothing after a stopping chunk matters. */
  lemma {:induction false} ClassifyStops(steps: seq<Step>, i: nat, j: nat, acc: Dict<string, real>)
    requires i <= j < |steps| && steps[j] == Stop
    ensures ClassifyFrom(steps, i, acc) == ClassifyFrom(steps[..j], i, acc)
    decreases j - i
  {
    if i < j {
      assert steps[..j][i] == steps[i];
      if steps[i].Record? {
        ClassifyStops(steps, i + 1, j, Put(acc, steps[i].rider, steps[i].points));
      }
    }
  }

  /** The first raising chunk before any stop decides the outcome. */
  lemma {:induction false} ClassifyRaises(steps: seq<Step>, i: nat, j: nat, acc: Dict<string, real>)
    requires i <= j < |steps| && steps[j].Raise?
    requires forall k :: i <= k < j ==> steps[k].Record?
    ensures ClassifyFrom(steps, i, acc) == Err(steps[j].error)
    decreases j - i
  {
    if i < j {
      ClassifyRaises(steps, i + 1, j, Put(acc, steps[i].rider, steps[i].points));
    }
  }

  /** The recorded riders stay distinct, and every rider recorded before is
      still there. */
  lemma {:induction false} ClassifyIsDict(steps: seq<Step>, i: nat, acc: Dict<string, real>)
    requires i <= |steps| && IsDict(acc)
    ensures ClassifyFrom(steps, i, acc).Ok? ==> IsDict(ClassifyFrom(steps, i, acc).value)
    ensures ClassifyFrom(steps, i, acc).Ok? ==> |acc| <= |ClassifyFrom(steps, i, acc).value|
    decreases |steps| - i
  {
    if i < |steps| && steps[i].Record? {
      var next := Put(acc, steps[i].rider, steps[i].points);
      PutKeys(acc, steps[i].rider, steps[i].points);
      ClassifyIsDict(steps, i + 1, next);
      assert ClassifyFrom(steps, i, acc) == ClassifyFrom(steps, i + 1, next);
    }
  }

  /** A first chunk without "Not classified" and with fewer than seven lines
      makes the parse raise `IndexError`. */
  lemma ShortFirstChunk(chunk: string)
    requires !Contains(chunk, "Not classified") && |Lines(chunk)| < 7
    ensures ChunkStep(chunk, 0) == Raise(IndexError)
  {
  }

  /** A later chunk needs eight lines. */
  lemma ShortLaterChunk(chunk: string, i: nat)
    requires i > 0 && !Contains(chunk, "Not classified") && |Lines(chunk)| < 8
    ensures ChunkStep(chunk, i) == Raise(IndexError)
  {
  }

  /** "Not classified" stops the loop whatever the chunk's shape. */
  lemma NotClassifiedStops(a: string, b: string, i: nat)
    ensures ChunkStep(a + "Not classified" + b, i) == Stop
  {
    var c := a + "Not classified" + b;
    assert c[|a|..|a| + 14] == "Not classified";
    assert OccursAt(c, "Not classified", |a|);
    FindSpec(c, "Not classified");
  }

  /** One row of the results table. */
  datatype Standing = Standing(position: int, points: real, rider: string)

  /** The table of the recorded points: Position, Points, Rider, with the
      positions counted from 1 in insertion order. */
  function Standings(d: Dict<string, real>): seq<Standing> {
    seq(|d|, k requires 0 <= k < |d| => Standing(k + 1, d[k].1, d[k].0))
  }

  /** `parse_race_results_pdf` on the text of the first page. */
  function RaceResults(text: string): Result<seq<Standing>> {
    match ClassifyFrom(Steps(RaceSplit(text)), 0, [])
    case Err(e) => Err(e)
    case Ok(d) => Ok(Standings(d))
  }

  /** `parse_race_results_pdf`: no file gives no table. */
  function ParseRaceResultsSpec(file: Option<string>): Option<Result<seq<Standing>>> {
    match file
    case None => None
    case Some(text) => Some(RaceResults(text))
  }

  /** The rows are numbered 1..n and name distinct riders. */
  lemma RaceResultsRows(text: string)
    requires RaceResults(text).Ok?
    ensures var rows := RaceResults(text).value;
            && (forall k :: 0 <= k < |rows| ==> rows[k].position == k + 1)
            && (forall k, l :: 0 <= k < l < |rows| ==> rows[k].rider != rows[l].rider)
  {
    ClassifyIsDict(Steps(RaceSplit(text)), 0, []);
    var d := ClassifyFrom(Steps(RaceSplit(text)), 0, []).value;
    forall k, l | 0 <= k < l < |d| ensures d[k].0 != d[l].0 {
      assert Keys(d)[k] != Keys(d)[l];
    }
  }

  /** The loop of `parse_race_results_pdf` over the chunks of the page,
      with its `break`s, given what its body does with a chunk. */
  method ClassifyChunks(chunks: seq<string>, step: (string, nat) -> Step) returns (r: Result<Dict<string, real>>)
    ensures r == ClassifyFrom(StepsBy(chunks, step), 0, [])
  {
    ghost var steps := StepsBy(chunks, step);
    var points: Dict<string, real> := [];
    var i := 0;
    while i < |chunks|
      invariant 0 <= i <= |chunks|
      invariant ClassifyFrom(steps, 0, []) == ClassifyFrom(steps, i, points)
    {
      var s := step(chunks[i], i);
      if s.Stop? {
        break;
      } else if s.Raise? {
        return Err(s.error);
      }
      points := Put(points, s.rider, s.points);
      i := i + 1;
    }
    return Ok(points);
  }

  /** `parse_race_results_pdf`: split the page text at the finish times,
      run the loop and number the rows. */
  method ParseRaceResults(file: Option<string>) returns (r: Option<Result<seq<Standing>>>)
    ensures r == ParseRaceResultsSpec(file)
  {
    if file.None? {
      return None;
    }
    var points := ClassifyChunks(RaceSplit(file.value), ChunkStep);
    if points.Err? {
      return Some(Err(points.error));
    }
    return Some(Ok(Standings(points.value)));
  }
}
