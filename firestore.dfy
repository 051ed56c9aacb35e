/** points_calculator/firestore_management.py: the picks of every player
    flattened into one record per pick, the three document layouts, and the
    set-up of the `scores` and `players` collections, each document written
    once. The database is the log of documents written. */
module Firestore {
  import opened Wrappers
  import opened Strings
  import opened Numbers
  import opened Dicts

  /** A stored field: text or a number (Python's `int` and `float` alike). */
  datatype Value = Text(text: string) | Number(number: real)

  /** A stored document. */
  type Document = Dict<string, Value>

  /** `PicksParser`: one rider picked by one player for one class at one
      predicted championship position. */
  datatype Pick = Pick(name: string, className: string, championshipPosition: int, predicted: int, pickedBy: string)

  /** The picks file: player to class to the riders picked, in predicted
      order. */
  type PlayerPicks = Dict<string, Dict<string, seq<string>>>

  /** `create_rider`: a rider starts at championship position 0. */
  function CreateRider(name: string, className: string, predicted: int, pickedBy: string): Pick {
    Pick(name, className, 0, predicted, pickedBy)
  }

  /** The picks of one class, the `i`-th rider predicted at `i + 1`. */
  function ClassPicks(player: string, className: string, riders: seq<string>): seq<Pick> {
    seq(|riders|, i requires 0 <= i < |riders| => CreateRider(riders[i], className, i + 1, player))
  }

  /** The picks of one player, class by class. */
  function PlayerPicksOf(player: string, classes: Dict<string, seq<string>>): seq<Pick> {
    if classes == [] then []
    else
      var n := |classes| - 1;
      PlayerPicksOf(player, classes[..n]) + ClassPicks(player, classes[n].0, classes[n].1)
  }

  /** `from_picks_dict` on every player, in order. */
  function FlattenPicks(d: PlayerPicks): seq<Pick> {
    if d == [] then []
    else
      var n := |d| - 1;
      FlattenPicks(d[..n]) + PlayerPicksOf(d[n].0, d[n].1)
  }

  /** `from_picks_dict`: the player, class and rider loops, appending one
      record per rider. (Iterating a dictionary's keys and indexing it is
      iterating its items.) */
  method FromPicksDict(playerDict: PlayerPicks) returns (riderList: seq<Pick>)
    ensures riderList == FlattenPicks(playerDict)
  {
    riderList := [];
    for p := 0 to |playerDict|
      invariant riderList == FlattenPicks(playerDict[..p])
    {
      var (player, playerPicks) := playerDict[p];
      ghost var before := riderList;
      for c := 0 to |playerPicks|
        invariant riderList == before + PlayerPicksOf(player, playerPicks[..c])
      {
        var (className, classPicks) := playerPicks[c];
        ghost var start := riderList;
        for i := 0 to |classPicks|
          invariant riderList == start + ClassPicks(player, className, classPicks[..i])
        {
          riderList := riderList + [CreateRider(classPicks[i], className, i + 1, player)];
          assert ClassPicks(player, className, classPicks[..i + 1]) ==
                 ClassPicks(player, className, classPicks[..i]) + [CreateRider(classPicks[i], className, i + 1, player)];
        }
        assert classPicks[..|classPicks|] == classPicks;
        assert playerPicks[..c + 1][..c] == playerPicks[..c];
      }
      assert playerPicks[..|playerPicks|] == playerPicks;
      assert playerDict[..p + 1][..p] == playerDict[..p];
    }
    assert playerDict[..|playerDict|] == playerDict;
  }

  /** Every record comes from one rider of one class of one player: it is
      picked by that player for that class, at a position one more than the
      rider's index in the class list, and it starts at championship
      position 0. */
  predicate FromPlayerDict(d: PlayerPicks, e: Pick) {
    && e.championshipPosition == 0
    && exists i, j :: 0 <= i < |d| && 0 <= j < |d[i].1|
         && d[i].0 == e.pickedBy && d[i].1[j].0 == e.className
         && 1 <= e.predicted <= |d[i].1[j].1| && d[i].1[j].1[e.predicted - 1] == e.name
  }

  /** Every record of the flattened picks comes from the picks file. */
  lemma {:induction false} FlattenPicksOrigin(d: PlayerPicks)
    ensures forall k :: 0 <= k < |FlattenPicks(d)| ==> FromPlayerDict(d, FlattenPicks(d)[k])
  {
    if d != [] {
      var n := |d| - 1;
      FlattenPicksOrigin(d[..n]);
      var front := FlattenPicks(d[..n]);
      var back := PlayerPicksOf(d[n].0, d[n].1);
      forall k | 0 <= k < |FlattenPicks(d)| ensures FromPlayerDict(d, FlattenPicks(d)[k]) {
        if k < |front| {
          var e := front[k];
          assert FromPlayerDict(d[..n], e);
          var i, j :| 0 <= i < n && 0 <= j < |d[..n][i].1|
            && d[..n][i].0 == e.pickedBy && d[..n][i].1[j].0 == e.className
            && 1 <= e.predicted <= |d[..n][i].1[j].1| && d[..n][i].1[j].1[e.predicted - 1] == e.name;
          assert d[..n][i] == d[i];
        } else {
          var e := back[k - |front|];
          var j := PlayerPicksOfOrigin(d[n].0, d[n].1, k - |front|);
          assert d[n].1[j].1[e.predicted - 1] == e.name;
        }
      }
    }
  }

  /** Each record of one player's picks comes from one class of that
      player. */
  lemma {:induction false} PlayerPicksOfOrigin(player: string, classes: Dict<string, seq<string>>, k: int) returns (j: int)
    requires 0 <= k < |PlayerPicksOf(player, classes)|
    ensures 0 <= j < |classes|
    ensures var e := PlayerPicksOf(player, classes)[k];
            && e.championshipPosition == 0 && e.pickedBy == player && e.className == classes[j].0
            && 1 <= e.predicted <= |classes[j].1| && classes[j].1[e.predicted - 1] == e.name
  {
    var n := |classes| - 1;
    var front := PlayerPicksOf(player, classes[..n]);
    if k < |front| {
      j := PlayerPicksOfOrigin(player, classes[..n], k);
      assert classes[..n][j] == classes[j];
    } else {
      j := n;
    }
  }

  /** Each rider of each class of each player has its record, predicted at
      its index plus one. */
  lemma {:induction false} FlattenPicksComplete(d: PlayerPicks, i: int, j: int, k: int)
    requires 0 <= i < |d| && 0 <= j < |d[i].1| && 0 <= k < |d[i].1[j].1|
    ensures CreateRider(d[i].1[j].1[k], d[i].1[j].0, k + 1, d[i].0) in FlattenPicks(d)
  {
    var n := |d| - 1;
    if i < n {
      FlattenPicksComplete(d[..n], i, j, k);
      assert d[..n][i] == d[i];
    } else {
      PlayerPicksOfComplete(d[i].0, d[i].1, j, k);
    }
  }

  lemma {:induction false} PlayerPicksOfComplete(player: string, classes: Dict<string, seq<string>>, j: int, k: int)
    requires 0 <= j < |classes| && 0 <= k < |classes[j].1|
    ensures CreateRider(classes[j].1[k], classes[j].0, k + 1, player) in PlayerPicksOf(player, classes)
  {
    var n := |classes| - 1;
    if j < n {
      PlayerPicksOfComplete(player, classes[..n], j, k);
      assert classes[..n][j] == classes[j];
    } else {
      assert ClassPicks(player, classes[j].0, classes[j].1)[k] == CreateRider(classes[j].1[k], classes[j].0, k + 1, player);
    }
  }

  /** `riders_to_dict`: the class and the championship position. */
  function RidersToDict(p: Pick): Document {
    [("class_name", Text(p.className)), ("championship_position", Number(p.championshipPosition as real))]
  }

  /** A new rider's document holds its class and position 0, and nothing
      else. */
  lemma RidersToDictNew(name: string, className: string, predicted: int, pickedBy: string)
    ensures var doc := RidersToDict(CreateRider(name, className, predicted, pickedBy));
            && Keys(doc) == ["class_name", "championship_position"]
            && Get(doc, "class_name") == Some(Text(className))
            && Get(doc, "championship_position") == Some(Number(0.0))
  {
  }

  /** `players_to_dict`: the seven scores of a new player. */
  function PlayersToDict(): Document {
    [ ("total", Number(0.0)), ("bonus_50", Number(0.0)), ("bonus_30", Number(0.0)),
      ("current_week_motogp", Number(0.0)), ("current_week_moto2", Number(0.0)),
      ("current_week_moto3", Number(0.0)), ("current_week", Number(0.0)) ]
  }

  /** A new player's document is a dictionary of seven scores, all 0, among
      them both bonus fields. */
  lemma PlayersToDictSpec()
    ensures IsDict(PlayersToDict()) && |PlayersToDict()| == 7
    ensures forall k :: 0 <= k < 7 ==> PlayersToDict()[k].1 == Number(0.0)
    ensures Get(PlayersToDict(), "bonus_50") == Some(Number(0.0))
    ensures Get(PlayersToDict(), "bonus_30") == Some(Number(0.0))
  {
  }

  /** `picks_to_dict`: one field, `<class>_<predicted>`, holding the
      rider. */
  function PicksToDict(p: Pick): Document {
    [(p.className + "_" + IntToString(p.predicted), Text(p.name))]
  }

  /** The field name of a pick splits back into its class (the text before
      the first `_`) and its predicted position (the text after the last),
      when the class name has no `_`. */
  lemma PicksKeyRoundTrip(p: Pick)
    requires '_' !in p.className
    ensures var key := PicksToDict(p)[0].0;
            && Split(key, "_")[0] == p.className
            && LastPiece(key, "_") == IntToString(p.predicted)
  {
    var digits := IntToString(p.predicted);
    var key := p.className + "_" + digits;
    assert key == p.className + ['_'] + digits;
    SplitAppend(p.className, '_', digits);
    ContainsChar(p.className, '_');
    SplitNone(p.className, "_");
    DigitsHaveNoUnderscore(p.predicted);
    ContainsChar(digits, '_');
    SplitNone(digits, "_");
  }

  lemma DigitsHaveNoUnderscore(i: int)
    ensures '_' !in IntToString(i)
  {
    var s := IntToString(i);
    if i >= 0 {
      assert AllDigits(s);
      forall k | 0 <= k < |s| ensures s[k] != '_' {
        assert IsDigit(s[k]);
      }
    } else {
      var t := NatToString(-i);
      assert s == "-" + t;
      forall k | 0 <= k < |s| ensures s[k] != '_' {
        if k > 0 {
          assert s[k] == t[k - 1];
          assert IsDigit(t[k - 1]);
        }
      }
    }
  }

  /** The records whose key has not been seen earlier in the list, in
      order: the first record of each key. */
  function FirstOfEach(ps: seq<Pick>, key: Pick -> string): seq<Pick> {
    if ps == [] then []
    else
      var n := |ps| - 1;
      var front := FirstOfEach(ps[..n], key);
      if key(ps[n]) in KeysOf(front, key) then front else front + [ps[n]]
  }

  /** The key of every record, in order. */
  function KeysOf(ps: seq<Pick>, key: Pick -> string): (r: seq<string>)
    ensures |r| == |ps|
    ensures forall i :: 0 <= i < |ps| ==> r[i] == key(ps[i])
  {
    seq(|ps|, i requires 0 <= i < |ps| => key(ps[i]))
  }

  lemma KeysOfAppend(ps: seq<Pick>, p: Pick, key: Pick -> string)
    ensures KeysOf(ps + [p], key) == KeysOf(ps, key) + [key(p)]
  {
  }

  /** The first records of each key carry each key of the list exactly
      once, in the order of first appearance. */
  lemma {:induction false} FirstOfEachKeys(ps: seq<Pick>, key: Pick -> string)
    ensures KeysOf(FirstOfEach(ps, key), key) == Dedup(KeysOf(ps, key))
  {
    if ps != [] {
      var n := |ps| - 1;
      FirstOfEachKeys(ps[..n], key);
      assert ps == ps[..n] + [ps[n]];
      KeysOfAppend(ps[..n], ps[n], key);
      KeysOfAppend(FirstOfEach(ps[..n], key), ps[n], key);
    }
  }

  /** No earlier record has the key of record `i`. */
  predicate FirstWithKey(ps: seq<Pick>, i: int, key: Pick -> string)
    requires 0 <= i < |ps|
  {
    forall j :: 0 <= j < i ==> key(ps[j]) != key(ps[i])
  }

  /** Each of the first records of each key is the first record of the list
      with its key. */
  lemma {:induction false} FirstOfEachFirst(ps: seq<Pick>, key: Pick -> string, k: int) returns (i: int)
    requires 0 <= k < |FirstOfEach(ps, key)|
    ensures 0 <= i < |ps| && ps[i] == FirstOfEach(ps, key)[k] && FirstWithKey(ps, i, key)
  {
    var n := |ps| - 1;
    var front := FirstOfEach(ps[..n], key);
    if k < |front| {
      i := FirstOfEachFirst(ps[..n], key, k);
      assert ps[..n][i] == ps[i];
      forall j | 0 <= j < i ensures key(ps[j]) != key(ps[i]) {
        assert ps[..n][j] == ps[j];
      }
    } else {
      i := n;
      FirstOfEachKeys(ps[..n], key);
      DedupSpec(KeysOf(ps[..n], key));
      forall j | 0 <= j < n ensures key(ps[j]) != key(ps[n]) {
        assert KeysOf(ps[..n], key)[j] == key(ps[j]);
      }
    }
  }

  /** A record's rider name and player name. */
  function RiderName(p: Pick): string { p.name }
  function PlayerName(p: Pick): string { p.pickedBy }

  /** One write: a document of a collection set to `fields`, or, with
      `merge`, `fields` put into what the document already holds. */
  datatype Write = Write(collection: string, document: string, fields: Document, merge: bool)

  /** The fields put one by one into a document. */
  function MergeFields(d: Document, fields: Document): Document
    decreases |fields|
  {
    if fields == [] then d else MergeFields(Put(d, fields[0].0, fields[0].1), fields[1..])
  }

  /** What one write leaves in its document, from what it held before. */
  function Apply(before: Option<Document>, w: Write): Document {
    if w.merge then MergeFields(before.GetOr([]), w.fields) else w.fields
  }

  /** What a document holds after a log of writes, `None` when none of
      them wrote it. */
  function Stored(ws: seq<Write>, collection: string, document: string): Option<Document> {
    if ws == [] then None
    else
      var n := |ws| - 1;
      var before := Stored(ws[..n], collection, document);
      if ws[n].collection == collection && ws[n].document == document then Some(Apply(before, ws[n])) else before
  }

  /** A rider's `scores` document. */
  function ScoreWrite(p: Pick): Write {
    Write("scores", p.name, RidersToDict(p), false)
  }

  /** A player's `players` document. */
  function PlayerWrite(p: Pick): Write {
    Write("players", p.pickedBy, PlayersToDict(), false)
  }

  /** One write per record. */
  function WritesOf(ps: seq<Pick>, write: Pick -> Write): (r: seq<Write>)
    ensures |r| == |ps|
    ensures forall i :: 0 <= i < |ps| ==> r[i] == write(ps[i])
  {
    seq(|ps|, i requires 0 <= i < |ps| => write(ps[i]))
  }

  /** The writes of `create_scores_collection`: the first record of each
      rider, as its `scores` document. */
  function ScoreWrites(data: seq<Pick>): seq<Write> {
    WritesOf(FirstOfEach(data, RiderName), ScoreWrite)
  }

  /** The writes of `create_players_collection`: one `players` document per
      player, at the player's first record. */
  function PlayerWrites(data: seq<Pick>): seq<Write> {
    WritesOf(FirstOfEach(data, PlayerName), PlayerWrite)
  }

  /** The documents named by some writes, in order. */
  function Documents(ws: seq<Write>): (r: seq<string>)
    ensures |r| == |ws|
    ensures forall i :: 0 <= i < |ws| ==> r[i] == ws[i].document
  {
    seq(|ws|, i requires 0 <= i < |ws| => ws[i].document)
  }

  /** Each distinct rider is written exactly once, in order of first
      appearance. */
  lemma ScoreWritesOnce(data: seq<Pick>)
    ensures Documents(ScoreWrites(data)) == Dedup(KeysOf(data, RiderName))
    ensures Distinct(Documents(ScoreWrites(data)))
  {
    FirstOfEachKeys(data, RiderName);
    assert Documents(ScoreWrites(data)) == KeysOf(FirstOfEach(data, RiderName), RiderName);
    DedupSpec(KeysOf(data, RiderName));
  }

  /** Each rider's document is set from the rider's first record. */
  lemma ScoreWritesFirst(data: seq<Pick>, k: int) returns (i: int)
    requires 0 <= k < |ScoreWrites(data)|
    ensures 0 <= i < |data| && FirstWithKey(data, i, RiderName)
    ensures ScoreWrites(data)[k] == ScoreWrite(data[i])
  {
    i := FirstOfEachFirst(data, RiderName, k);
  }

  /** Each distinct player is written exactly once, in order of first
      appearance, with the seven zero scores. */
  lemma PlayerWritesOnce(data: seq<Pick>)
    ensures Documents(PlayerWrites(data)) == Dedup(KeysOf(data, PlayerName))
    ensures Distinct(Documents(PlayerWrites(data)))
    ensures forall k :: 0 <= k < |PlayerWrites(data)| ==> PlayerWrites(data)[k].fields == PlayersToDict()
  {
    FirstOfEachKeys(data, PlayerName);
    assert Documents(PlayerWrites(data)) == KeysOf(FirstOfEach(data, PlayerName), PlayerName);
    DedupSpec(KeysOf(data, PlayerName));
  }

  /** One more record: it is written when its key is new. */
  lemma FirstOfEachStep(ps: seq<Pick>, i: int, key: Pick -> string, write: Pick -> Write)
    requires 0 <= i < |ps|
    ensures key(ps[i]) in KeysOf(FirstOfEach(ps[..i], key), key) ==>
              FirstOfEach(ps[..i + 1], key) == FirstOfEach(ps[..i], key)
    ensures key(ps[i]) !in KeysOf(FirstOfEach(ps[..i], key), key) ==>
              && KeysOf(FirstOfEach(ps[..i + 1], key), key) == KeysOf(FirstOfEach(ps[..i], key), key) + [key(ps[i])]
              && WritesOf(FirstOfEach(ps[..i + 1], key), write) == WritesOf(FirstOfEach(ps[..i], key), write) + [write(ps[i])]
  {
    assert ps[..i + 1][..i] == ps[..i];
    KeysOfAppend(FirstOfEach(ps[..i], key), ps[i], key);
  }

  /** A pick merged into its player's `picks` document. */
  function PickWrite(p: Pick): Write {
    Write("picks", p.pickedBy, PicksToDict(p), true)
  }

  /** The writes of `create_picks_collection`: every record, merged. */
  function PicksWrites(data: seq<Pick>): seq<Write> {
    WritesOf(data, PickWrite)
  }

  /** The fields of the picks of one player, in order. */
  function PicksOf(data: seq<Pick>, player: string): seq<(string, Value)> {
    if data == [] then []
    else
      var n := |data| - 1;
      PicksOf(data[..n], player) + if data[n].pickedBy == player then PicksToDict(data[n]) else []
  }

  /** A player's `picks` document holds the field of each of the player's
      picks, a later pick with the same class and position overwriting an
      earlier one; a player without picks has no document. */
  lemma {:induction false} PicksStored(data: seq<Pick>, player: string)
    ensures Stored(PicksWrites(data), "picks", player) ==
              if PicksOf(data, player) == [] then None else Some(DictOf(PicksOf(data, player)))
  {
    if data != [] {
      var n := |data| - 1;
      PicksStored(data[..n], player);
      var ws := PicksWrites(data);
      assert ws[..n] == PicksWrites(data[..n]);
      assert ws[n] == PickWrite(data[n]);
      var before := Stored(ws[..n], "picks", player);
      var front := PicksOf(data[..n], player);
      assert before == if front == [] then None else Some(DictOf(front));
      if data[n].pickedBy == player {
        var pair := PicksToDict(data[n])[0];
        assert Stored(ws, "picks", player) == Some(Apply(before, ws[n]));
        MergeOne(before.GetOr([]), pair);
        assert PicksOf(data, player) == front + [pair];
        DictOfAppend(front, pair);
      } else {
        assert Stored(ws, "picks", player) == before;
        assert PicksOf(data, player) == front;
      }
    }
  }

  lemma MergeOne(d: Document, pair: (string, Value))
    ensures MergeFields(d, [pair]) == Put(d, pair.0, pair.1)
  {
    assert [pair][1..] == [];
  }

  lemma DictOfAppend(ps: seq<(string, Value)>, pair: (string, Value))
    ensures DictOf(ps + [pair]) == Put(DictOf(ps), pair.0, pair.1)
  {
    assert (ps + [pair])[..|ps|] == ps;
  }

  /** `FirestoreDatabaseManager`: the picks read from the picks file, and
      the documents written so far. */
  class DatabaseManager {
    var data: Option<seq<Pick>>
    var writes: seq<Write>

    constructor()
      ensures data == None && writes == []
    {
      data := None;
      writes := [];
    }

    /** `get_picks_data`, from the parsed picks file. */
    method GetPicksData(playerDict: PlayerPicks)
      modifies this
      ensures data == Some(FlattenPicks(playerDict)) && writes == old(writes)
    {
      var picks := FromPicksDict(playerDict);
      data := Some(picks);
    }

    /** `create_scores_collection`: each rider's document once, skipping
        names already processed. */
    method CreateScoresCollection() returns (r: Result<()>)
      modifies this
      ensures old(data).None? ==> r == Err(TypeError) && unchanged(this)
      ensures old(data).Some? ==> r == Ok(()) && data == old(data) && writes == old(writes) + ScoreWrites(data.value)
    {
      if data.None? {
        return Err(TypeError);
      }
      var riders := data.value;
      var processedRiders: seq<string> := [];
      for i := 0 to |riders|
        invariant data == old(data)
        invariant processedRiders == KeysOf(FirstOfEach(riders[..i], RiderName), RiderName)
        invariant writes == old(writes) + ScoreWrites(riders[..i])
      {
        var rider := riders[i];
        FirstOfEachStep(riders, i, RiderName, ScoreWrite);
        if rider.name in processedRiders {
          continue;
        }
        processedRiders := processedRiders + [rider.name];
        writes := writes + [ScoreWrite(rider)];
      }
      assert riders[..|riders|] == riders;
      return Ok(());
    }

    /** `create_players_collection`: each player's document once, skipping
        players already set up. */
    method CreatePlayersCollection() returns (r: Result<()>)
      modifies this
      ensures old(data).None? ==> r == Err(TypeError) && unchanged(this)
      ensures old(data).Some? ==> r == Ok(()) && data == old(data) && writes == old(writes) + PlayerWrites(data.value)
    {
      if data.None? {
        return Err(TypeError);
      }
      var players := data.value;
      var playerNames: seq<string> := [];
      for i := 0 to |players|
        invariant data == old(data)
        invariant playerNames == KeysOf(FirstOfEach(players[..i], PlayerName), PlayerName)
        invariant writes == old(writes) + PlayerWrites(players[..i])
      {
        var player := players[i];
        FirstOfEachStep(players, i, PlayerName, PlayerWrite);
        if player.pickedBy in playerNames {
          continue;
        }
        playerNames := playerNames + [player.pickedBy];
        writes := writes + [PlayerWrite(player)];
      }
      assert players[..|players|] == players;
      return Ok(());
    }

    /** `create_picks_collection`: each record merged into its player's
        `picks` document. */
    method CreatePicksCollection() returns (r: Result<()>)
      modifies this
      ensures old(data).None? ==> r == Err(TypeError) && unchanged(this)
      ensures old(data).Some? ==> r == Ok(()) && data == old(data) && writes == old(writes) + PicksWrites(data.value)
    {
      if data.None? {
        return Err(TypeError);
      }
      var picks := data.value;
      for i := 0 to |picks|
        invariant data == old(data)
        invariant writes == old(writes) + PicksWrites(picks[..i])
      {
        assert picks[..i + 1] == picks[..i] + [picks[i]];
        writes := writes + [PickWrite(picks[i])];
      }
      assert picks[..|picks|] == picks;
      return Ok(());
    }
  }
}
