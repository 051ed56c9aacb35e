/** The older `PdfParser` of fp_analysis/Parser.py from the extracted page
    text onward: the rider name is the first line of its heading, every lap
    token of a rider block is kept, and riders with fewer than three laps
    are always dropped. */
module FpParser {
  import opened Wrappers
  import opened Strings
  import opened Dicts
  import opened LapTimes
  import Parser

  /** `_trim_names`: the first newline-separated segment of a heading. */
  function FirstName(name: string): string {
    Split(name, "\n")[0]
  }

  /** The first segment is the text up to the first newline, or the whole
      heading when it has none; it never fails. */
  lemma FirstNameSpec(name: string)
    ensures FirstName(name) <= name
    ensures '\n' !in FirstName(name)
    ensures '\n' !in name ==> FirstName(name) == name
    ensures '\n' in name ==> |FirstName(name)| < |name| && name[|FirstName(name)|] == '\n'
  {
    FindSpec(name, "\n");
    SplitPieces(name, "\n");
    ContainsChar(FirstName(name), '\n');
    ContainsChar(name, '\n');
    if '\n' in name {
      var i := Find(name, "\n").value;
      assert name[i..i + 1] == "\n";
    }
  }

  /** Whatever follows the first newline, the name is the text before it. */
  lemma FirstNameOf(y: string, z: string)
    requires '\n' !in y
    ensures FirstName(y + "\n" + z) == y
  {
    SplitAppend(y, '\n', z);
    ContainsChar(y, '\n');
    SplitNone(y, "\n");
  }

  /** The names of all headings, in order. */
  function Names(headings: seq<string>): (r: seq<string>)
    ensures |r| == |headings|
    ensures forall i :: 0 <= i < |r| ==> r[i] == FirstName(headings[i])
  {
    seq(|headings|, i requires 0 <= i < |headings| => FirstName(headings[i]))
  }

  /** The lap times of one rider block: every lap token, converted in order;
      the first token that does not convert raises. */
  function BlockLaps(block: string): Result<seq<int>> {
    MapAll(LapMillis, LapTokens(block))
  }

  /** `parse_pdf` on the scanned text: names, the laps of every block after
      the preamble, `dict(zip(...))`, then the deletion of the riders with
      fewer than three laps. */
  function ParsePdfSpec(scan: Parser.NameScan): Result<Dict<string, seq<int>>> {
    match MapAll(BlockLaps, Parser.Pieces(scan)[1..])
    case Err(e) => Err(e)
    case Ok(laps) =>
      Ok(FilterValues(FromPairs(Names(Parser.Headings(scan)), laps), Parser.HasThreeLaps))
  }

  /** The name loop of `parse_pdf`. */
  method FirstNames(headings: seq<string>) returns (names: seq<string>)
    ensures names == Names(headings)
  {
    names := [];
    var i := 0;
    while i < |headings|
      invariant 0 <= i <= |headings|
      invariant names == Names(headings[..i])
    {
      names := names + [FirstName(headings[i])];
      assert headings[..i + 1] == headings[..i] + [headings[i]];
      i := i + 1;
    }
    assert headings[..i] == headings;
  }

  /** The token loop of `parse_pdf` for one block: convert every token in
      order; the first one that does not convert raises. */
  method TokenLapTimes(tokens: seq<string>) returns (r: Result<seq<int>>)
    ensures r == MapAll(LapMillis, tokens)
  {
    var laps: seq<int> := [];
    var k := 0;
    assert tokens[k..] == tokens;
    PrependAssoc([], [], MapAll(LapMillis, tokens));
    while k < |tokens|
      invariant 0 <= k <= |tokens|
      invariant MapAll(LapMillis, tokens) == Prepend(laps, MapAll(LapMillis, tokens[k..]))
    {
      var lap := LapMillis(tokens[k]);
      if lap.Err? {
        assert tokens[k..][0] == tokens[k];
        return Err(lap.error);
      }
      MapAllStep(LapMillis, tokens, k);
      PrependAssoc(laps, [lap.value], MapAll(LapMillis, tokens[k + 1..]));
      laps := laps + [lap.value];
      k := k + 1;
    }
    assert MapAll(LapMillis, tokens[k..]) == Ok([]);
    assert laps + [] == laps;
    return Ok(laps);
  }

  /** The block loop of `parse_pdf`: the laps of every rider block, in
      order. */
  method RiderLapTimes(riderData: seq<string>) returns (r: Result<seq<seq<int>>>)
    ensures r == MapAll(BlockLaps, riderData)
  {
    var lapTimes: seq<seq<int>> := [];
    var j := 0;
    assert riderData[j..] == riderData;
    PrependAssoc([], [], MapAll(BlockLaps, riderData));
    while j < |riderData|
      invariant 0 <= j <= |riderData|
      invariant MapAll(BlockLaps, riderData) == Prepend(lapTimes, MapAll(BlockLaps, riderData[j..]))
    {
      var laps := TokenLapTimes(LapTokens(riderData[j]));
      if laps.Err? {
        assert riderData[j..][0] == riderData[j];
        return Err(laps.error);
      }
      MapAllStep(BlockLaps, riderData, j);
      PrependAssoc(lapTimes, [laps.value], MapAll(BlockLaps, riderData[j + 1..]));
      lapTimes := lapTimes + [laps.value];
      j := j + 1;
    }
    assert MapAll(BlockLaps, riderData[j..]) == Ok([]);
    assert lapTimes + [] == lapTimes;
    return Ok(lapTimes);
  }

  /** `parse_pdf` on the scanned text; every rider left has at least three
      laps. */
  method ParsePdf(scan: Parser.NameScan) returns (r: Result<Dict<string, seq<int>>>)
    ensures r == ParsePdfSpec(scan)
    ensures r.Ok? ==> forall k :: 0 <= k < |r.value| ==> |r.value[k].1| >= 3
  {
    var names := FirstNames(Parser.Headings(scan));
    var riderData := Parser.Pieces(scan);
    riderData := riderData[1..];
    var lapTimes := RiderLapTimes(riderData);
    if lapTimes.Err? {
      return Err(lapTimes.error);
    }
    var d := FromPairs(names, lapTimes.value);
    var toDelete := Parser.CollectShort(d);
    d := Parser.DeleteAll(d, toDelete);
    FromPairsSpec(names, lapTimes.value);
    WithoutFailing(FromPairs(names, lapTimes.value), Parser.HasThreeLaps);
    return Ok(d);
  }

  /** Every lap token of a block is kept: the block has one lap per token,
      each the conversion of its token. */
  lemma AllTokensKept(block: string) returns (laps: seq<int>)
    requires BlockLaps(block).Ok?
    ensures laps == BlockLaps(block).value
    ensures |laps| == |LapTokens(block)|
    ensures forall k :: 0 <= k < |laps| ==> LapMillis(LapTokens(block)[k]) == Ok(laps[k])
  {
    var tokens := LapTokens(block);
    laps := BlockLaps(block).value;
    MapAllLength(LapMillis, tokens);
    forall k | 0 <= k < |laps| ensures LapMillis(tokens[k]) == Ok(laps[k]) {
      MapAllAt(LapMillis, tokens, k);
    }
  }

  /** On a block without pit entries and without "unfinished", this parser
      reads the laps the newer one reads for a race. */
  lemma SameAsRace(block: string)
    requires !Contains(block, "\nP\n") && !Contains(block, "unfinished")
    ensures BlockLaps(block) == Parser.BlockLaps(block, true)
  {
    var tokens := LapTokens(block);
    assert Parser.BlockTokens(block, true) == tokens by {
      SplitNone(block, "\nP\n");
      assert Parser.Stints(block) == [block];
      Parser.CutUnfinishedSpec(block);
      assert Parser.StintTokenLists([block]) == [tokens];
      assert Parser.KeptFrom([tokens], 1, true) == [];
      assert tokens + [] == tokens;
    }
  }

  /** Each rider with at least three laps holds the laps of the block after
      its heading, under the first line of the heading, unless a later
      heading has the same first line; a rider with fewer is gone. */
  lemma ParsePdfRider(scan: Parser.NameScan, i: int) returns (laps: seq<int>)
    requires ParsePdfSpec(scan).Ok?
    requires 0 <= i < |scan.riders|
    requires forall j :: i < j < |scan.riders| ==> FirstName(scan.riders[j].0) != FirstName(scan.riders[i].0)
    ensures BlockLaps(scan.riders[i].1) == Ok(laps)
    ensures Get(ParsePdfSpec(scan).value, FirstName(scan.riders[i].0)) == if |laps| < 3 then None else Some(laps)
  {
    var headings := Parser.Headings(scan);
    var blocks := Parser.Pieces(scan)[1..];
    var names := Names(headings);
    var lapLists := MapAll(BlockLaps, blocks).value;
    MapAllAt(BlockLaps, blocks, i);
    assert blocks[i] == scan.riders[i].1;
    laps := lapLists[i];
    FromPairsSpec(names, lapLists);
    var d := FromPairs(names, lapLists);
    assert Get(d, names[i]) == Some(lapLists[i]);
    FilterValuesGet(d, Parser.HasThreeLaps, names[i]);
  }

  /** A lap that does not convert makes the whole parse raise. */
  lemma ParsePdfBadLap(scan: Parser.NameScan, i: int, k: int)
    requires 0 <= i < |scan.riders| && 0 <= k < |LapTokens(scan.riders[i].1)|
    requires LapMillis(LapTokens(scan.riders[i].1)[k]).Err?
    ensures ParsePdfSpec(scan).Err?
  {
    var blocks := Parser.Pieces(scan)[1..];
    assert blocks[i] == scan.riders[i].1;
    MapAllSpec(LapMillis, LapTokens(blocks[i]));
    MapAllSpec(BlockLaps, blocks);
  }
}
