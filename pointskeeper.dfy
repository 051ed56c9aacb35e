/** The database side of `PointsKeeper` in
    points_calculator/fdb_points_keeper.py: writing a player's records into
    the `scores` and `players` collections (lines 145-190), the season
    total and the private race-number table. Firestore is a `Database`
    object: the `players` collection as a map from document id to
    document, the writes to the `scores` collection as a log. */
module PointsKeeping {
  import opened Wrappers
  import opened Strings
  import opened Dicts
  import opened Scoring
  import opened Records
  import Firestore

  /** A player's document: field name to score. */
  type Doc = Dict<string, real>

  /** One `rider_doc.update({field: value})` on the `scores` collection. */
  datatype ScoreWrite = ScoreWrite(rider: string, field: string, value: real)

  /** A document of the `players` collection, as the reference
      `player_ref` that updates it in place. */
  class PlayerDoc {
    var fields: Doc

    constructor(fields: Doc)
      ensures this.fields == fields
    {
      this.fields := fields;
    }

    /** `player_ref.update({key: value})`. */
    method Update(key: string, value: real)
      modifies this
      ensures fields == Put(old(fields), key, value)
    {
      fields := Put(fields, key, value);
    }
  }

  /** The Firestore collections the points keeper reads and writes. */
  class Database {
    /** The `players` collection: document id to document. */
    var players: map<string, Doc>
    /** The `picks` collection: player to the pairs of its picks document,
        in field order. */
    const picks: map<string, seq<PickItem>>
    /** Every update of a rider's document in the `scores` collection, in
        order. */
    var scores: seq<ScoreWrite>
    /** The `race` field of the `current race number` document. */
    var raceNumber: int

    constructor(players: map<string, Doc>, picks: map<string, seq<PickItem>>, raceNumber: int)
      ensures this.players == players && this.picks == picks
      ensures scores == [] && this.raceNumber == raceNumber
    {
      this.players := players;
      this.picks := picks;
      scores := [];
      this.raceNumber := raceNumber;
    }
  }

  /** The private table of `PointsKeeper` (lines 29-51): event number to
      three-letter code, 21 events. */
  function RaceCode(n: int): Option<string> {
    match n
    case 1 => Some("POR")
    case 2 => Some("ARG")
    case 3 => Some("AME")
    case 4 => Some("SPA")
    case 5 => Some("FRA")
    case 6 => Some("ITA")
    case 7 => Some("GER")
    case 8 => Some("NED")
    case 9 => Some("KAZ")
    case 10 => Some("GBR")
    case 11 => Some("AUT")
    case 12 => Some("CAT")
    case 13 => Some("RSM")
    case 14 => Some("IND")
    case 15 => Some("JPN")
    case 16 => Some("INA")
    case 17 => Some("AUS")
    case 18 => Some("THA")
    case 19 => Some("MAL")
    case 20 => Some("QAT")
    case 21 => Some("VAL")
    case _ => None
  }

  /** The sum of a dictionary's values. */
  function Total(d: Dict<string, real>): real {
    if d == [] then 0.0 else Total(d[..|d| - 1]) + d[|d| - 1].1
  }

  /** The riders of a list of writes. */
  function RidersOf(ws: seq<ScoreWrite>): (rs: seq<string>)
    ensures |rs| == |ws| && forall i :: 0 <= i < |ws| ==> rs[i] == ws[i].rider
  {
    if ws == [] then [] else RidersOf(ws[..|ws| - 1]) + [ws[|ws| - 1].rider]
  }

  /** The riders written this week after one record (lines 161-172):
      each rider of the record not yet in `updated` joins it, in order. */
  function Seen(updated: seq<string>, points: Dict<string, real>): seq<string> {
    if points == [] then updated
    else
      var n := |points| - 1;
      var s := Seen(updated, points[..n]);
      if points[n].0 in s then s else s + [points[n].0]
  }

  /** The writes of one record (lines 161-172): each rider not yet written
      this week gets `field` set to its points. */
  function WritesOf(updated: seq<string>, points: Dict<string, real>, field: string): seq<ScoreWrite> {
    if points == [] then []
    else
      var n := |points| - 1;
      var front := WritesOf(updated, points[..n], field);
      if points[n].0 in Seen(updated, points[..n]) then front
      else front + [ScoreWrite(points[n].0, field, points[n].1)]
  }

  /** The riders written this week after some records. */
  function RecordsSeen(updated: seq<string>, records: seq<Record>): seq<string> {
    if records == [] then updated
    else
      var n := |records| - 1;
      Seen(RecordsSeen(updated, records[..n]), records[n].points)
  }

  /** The writes of all records, each record seeing the riders the earlier
      ones wrote. */
  function RecordsWrites(updated: seq<string>, records: seq<Record>, field: string): seq<ScoreWrite> {
    if records == [] then []
    else
      var n := |records| - 1;
      RecordsWrites(updated, records[..n], field) + WritesOf(RecordsSeen(updated, records[..n]), records[n].points, field)
  }

  /** `key.split("_")[-1] == current_category`. */
  predicate Matches(key: string, category: string) {
    LastPiece(key, "_") == category
  }

  /** The fields of the snapshot that a record's class matches, in order. */
  function Matching(keys: seq<string>, category: string): (r: seq<string>)
    ensures |r| <= |keys|
  {
    if keys == [] then []
    else
      var n := |keys| - 1;
      Matching(keys[..n], category) + if Matches(keys[n], category) then [keys[n]] else []
  }

  /** Each of the fields set to `v`, in order. */
  function SetAll(doc: Doc, fields: seq<string>, v: real): Doc {
    if fields == [] then doc
    else
      var n := |fields| - 1;
      Put(SetAll(doc, fields[..n], v), fields[n], v)
  }

  /** The player's document after the records' class fields are written
      (lines 174-177): each record's total into every matching field. */
  function ApplyRecords(doc: Doc, keys: seq<string>, records: seq<Record>): Doc {
    if records == [] then doc
    else
      var n := |records| - 1;
      SetAll(ApplyRecords(doc, keys, records[..n]), Matching(keys, records[n].category), Total(records[n].points))
  }

  /** `v` added up `n` times. */
  function Repeat(n: nat, v: real): real {
    if n == 0 then 0.0 else Repeat(n - 1, v) + v
  }

  /** `current_week_value`: each record's total, once per matching field. */
  function WeekValue(keys: seq<string>, records: seq<Record>): real {
    if records == [] then 0.0
    else
      var n := |records| - 1;
      WeekValue(keys, records[..n]) + Repeat(|Matching(keys, records[n].category)|, Total(records[n].points))
  }

  /** The four resets of lines 149-152. */
  function Resets(doc: Doc): Doc {
    Put(Put(Put(Put(doc, "current_week", 0.0), "current_week_motogp", 0.0), "current_week_moto2", 0.0),
        "current_week_moto3", 0.0)
  }

  /** The season total of lines 181-190: the snapshot's value of each race
      field, a field the snapshot lacks counting nothing. */
  function SeasonTotal(snapshot: Doc, fields: seq<string>): real {
    if fields == [] then 0.0
    else
      var n := |fields| - 1;
      SeasonTotal(snapshot, fields[..n]) + Get(snapshot, fields[n]).GetOr(0.0)
  }

  /** The season total with this week's value standing in for the race's
      field. */
  function SeasonTotalWith(snapshot: Doc, raceField: string, week: real, fields: seq<string>): real {
    if fields == [] then 0.0
    else
      var n := |fields| - 1;
      SeasonTotalWith(snapshot, raceField, week, fields[..n])
      + (if fields[n] == raceField then week else Get(snapshot, fields[n]).GetOr(0.0))
  }

  /** The player's document before its total is written (lines 145-180):
      the resets, the class fields, and the week's value under
      `current_week` and under the race's field. */
  function WeekDoc(doc: Doc, records: seq<Record>, raceField: string): Doc {
    var snapshot := Resets(doc);
    var keys := Keys(snapshot);
    var week := WeekValue(keys, records);
    Put(Put(ApplyRecords(snapshot, keys, records), "current_week", week), raceField, week)
  }

  /** The player's document after the update: the season total is taken
      over the snapshot read after the resets with this week's value in the
      race's field, so that it counts this week. */
  function PlayerAfter(doc: Doc, records: seq<Record>, raceField: string, seasonFields: seq<string>): Doc {
    var snapshot := Resets(doc);
    var week := WeekValue(Keys(snapshot), records);
    Put(WeekDoc(doc, records, raceField), "total", SeasonTotalWith(snapshot, raceField, week, seasonFields))
  }

  /** The player's document after the update as lines 181-190 compute it:
      the season total is taken over the snapshot read before this week's
      value was written. */
  function PlayerAfterAsWritten(doc: Doc, records: seq<Record>, raceField: string, seasonFields: seq<string>): Doc {
    Put(WeekDoc(doc, records, raceField), "total", SeasonTotal(Resets(doc), seasonFields))
  }

  /** The writes of a list of writes followed by one more have the riders
      of both. */
  lemma RidersOfAppend(ws: seq<ScoreWrite>, vs: seq<ScoreWrite>)
    ensures RidersOf(ws + vs) == RidersOf(ws) + RidersOf(vs)
  {
  }

  /** Lines 149-152: the four weekly fields of a player reset to 0. */
  method ResetWeek(player: PlayerDoc)
    modifies player
    ensures player.fields == Resets(old(player.fields))
  {
    player.Update("current_week", 0.0);
    player.Update("current_week_motogp", 0.0);
    player.Update("current_week_moto2", 0.0);
    player.Update("current_week_moto3", 0.0);
  }

  /** Lines 160-172 for one record: every rider not yet written gets its
      points under `field` in the `scores` collection and joins `updated`;
      the player's score is the record's total either way. */
  method WriteRiders(db: Database, points: Dict<string, real>, field: string, updated: seq<string>)
    returns (playerScores: real, updated': seq<string>)
    modifies db
    ensures db.scores == old(db.scores) + WritesOf(updated, points, field)
    ensures updated' == Seen(updated, points)
    ensures playerScores == Total(points)
    ensures db.raceNumber == old(db.raceNumber) && db.players == old(db.players)
  {
    playerScores := 0.0;
    updated' := updated;
    for j := 0 to |points|
      invariant db.scores == old(db.scores) + WritesOf(updated, points[..j], field)
      invariant updated' == Seen(updated, points[..j])
      invariant playerScores == Total(points[..j])
      invariant db.raceNumber == old(db.raceNumber) && db.players == old(db.players)
    {
      var rider := points[j].0;
      var value := points[j].1;
      assert points[..j + 1][..j] == points[..j];
      assert Total(points[..j + 1]) == Total(points[..j]) + value;
      ghost var ws := WritesOf(updated, points[..j], field);
      if rider in updated' {
        assert WritesOf(updated, points[..j + 1], field) == ws;
        playerScores := playerScores + value;
      } else {
        assert WritesOf(updated, points[..j + 1], field) == ws + [ScoreWrite(rider, field, value)];
        db.scores := db.scores + [ScoreWrite(rider, field, value)];
        playerScores := playerScores + value;
        updated' := updated' + [rider];
      }
    }
    assert points[..|points|] == points;
  }

  /** Lines 174-177 for one record: every field of the snapshot that the
      record's class matches is set to the player's score, and the week's
      value grows by the score once per such field. */
  method WriteClassFields(player: PlayerDoc, keys: seq<string>, category: string, playerScores: real)
    returns (added: real)
    modifies player
    ensures player.fields == SetAll(old(player.fields), Matching(keys, category), playerScores)
    ensures added == Repeat(|Matching(keys, category)|, playerScores)
  {
    added := 0.0;
    for k := 0 to |keys|
      invariant player.fields == SetAll(old(player.fields), Matching(keys[..k], category), playerScores)
      invariant added == Repeat(|Matching(keys[..k], category)|, playerScores)
    {
      assert keys[..k + 1][..k] == keys[..k];
      ghost var m := Matching(keys[..k], category);
      if Matches(keys[k], category) {
        player.Update(keys[k], playerScores);
        assert Matching(keys[..k + 1], category) == m + [keys[k]];
        assert (m + [keys[k]])[..|m|] == m;
        added := added + playerScores;
      } else {
        assert Matching(keys[..k + 1], category) == m;
      }
    }
    assert keys[..|keys|] == keys;
  }

  /** Lines 181-189: the sum of the document's value of each race field, a
      missing field skipped. */
  method SeasonTotalOf(doc: Doc, fields: seq<string>) returns (total: real)
    ensures total == SeasonTotal(doc, fields)
  {
    total := 0.0;
    for f := 0 to |fields|
      invariant total == SeasonTotal(doc, fields[..f])
    {
      assert fields[..f + 1][..f] == fields[..f];
      match Get(doc, fields[f])
      case Some(v) => total := total + v;
      case None =>
    }
    assert fields[..|fields|] == fields;
  }

  /** Lines 159-177: the records of one player, written one after the
      other into the `scores` collection and the player's class fields,
      starting from the snapshot `doc` whose fields are `keys`. */
  method WriteRecords(db: Database, player: PlayerDoc, keys: seq<string>, records: seq<Record>, field: string,
                      updated: seq<string>)
    returns (week: real, updated': seq<string>)
    modifies db, player
    ensures player.fields == ApplyRecords(old(player.fields), keys, records)
    ensures db.scores == old(db.scores) + RecordsWrites(updated, records, field)
    ensures updated' == RecordsSeen(updated, records)
    ensures week == WeekValue(keys, records)
    ensures db.raceNumber == old(db.raceNumber) && db.players == old(db.players)
  {
    week := 0.0;
    updated' := updated;
    for i := 0 to |records|
      invariant player.fields == ApplyRecords(old(player.fields), keys, records[..i])
      invariant db.scores == old(db.scores) + RecordsWrites(updated, records[..i], field)
      invariant updated' == RecordsSeen(updated, records[..i])
      invariant week == WeekValue(keys, records[..i])
      invariant db.raceNumber == old(db.raceNumber) && db.players == old(db.players)
    {
      assert records[..i + 1][..i] == records[..i];
      var playerScores;
      playerScores, updated' := WriteRiders(db, records[i].points, field, updated');
      var added := WriteClassFields(player, keys, records[i].category, playerScores);
      week := week + added;
    }
    assert records[..|records|] == records;
  }

  /** Lines 145-190 for one player: the four resets, the rider writes and
      class fields of each record, the week's value, and the season total;
      `updated` is the list of riders whose `scores` document was written
      this week, shared by all players. The total stored is the intended
      one, counting this week (`PlayerAfter`); the code sums the snapshot
      taken before the week's field is written (`PlayerAfterAsWritten`). */
  method UpdatePlayer(db: Database, player: PlayerDoc, records: seq<Record>, raceField: string, seasonFields: seq<string>,
                      updated: seq<string>)
    returns (updated': seq<string>)
    modifies db, player
    ensures player.fields == PlayerAfter(old(player.fields), records, raceField, seasonFields)
    ensures db.scores == old(db.scores) + RecordsWrites(updated, records, raceField)
    ensures updated' == RecordsSeen(updated, records)
    ensures db.raceNumber == old(db.raceNumber) && db.players == old(db.players)
  {
    ResetWeek(player);
    var snapshot := player.fields;
    var keys := Keys(snapshot);
    var week;
    week, updated' := WriteRecords(db, player, keys, records, raceField, updated);
    player.Update("current_week", week);
    player.Update(raceField, week);
    var total := SeasonTotalOf(Put(snapshot, raceField, week), seasonFields);
    SeasonTotalPut(snapshot, raceField, week, seasonFields);
    player.Update("total", total);
  }

  /** The riders written this week after a record are those written before
      it followed by the riders of the record's writes: a rider's document
      in the `scores` collection is written exactly when the rider joins
      the list. */
  lemma {:induction false} SeenWrites(updated: seq<string>, points: Dict<string, real>, field: string)
    ensures Seen(updated, points) == updated + RidersOf(WritesOf(updated, points, field))
    decreases |points|
  {
    if points != [] {
      var n := |points| - 1;
      SeenWrites(updated, points[..n], field);
      var front := WritesOf(updated, points[..n], field);
      if points[n].0 !in Seen(updated, points[..n]) {
        RidersOfAppend(front, [ScoreWrite(points[n].0, field, points[n].1)]);
      }
    }
  }

  /** A record's writes carry the race's field and a rider with its points
      from the record. */
  lemma {:induction false} WritesOfValues(updated: seq<string>, points: Dict<string, real>, field: string)
    ensures forall w :: w in WritesOf(updated, points, field) ==> w.field == field && (w.rider, w.value) in points
    decreases |points|
  {
    if points != [] {
      var n := |points| - 1;
      WritesOfValues(updated, points[..n], field);
      forall w | w in WritesOf(updated, points, field)
        ensures w.field == field && (w.rider, w.value) in points
      {
        if w in WritesOf(updated, points[..n], field) {
          assert (w.rider, w.value) in points[..n];
        }
      }
    }
  }

  /** Without repeats in `updated`, none after a record either; every rider
      of the record is in the list afterwards, and nothing else joins it. */
  lemma {:induction false} SeenDistinct(updated: seq<string>, points: Dict<string, real>)
    requires Distinct(updated)
    ensures Distinct(Seen(updated, points))
    ensures forall i :: 0 <= i < |points| ==> points[i].0 in Seen(updated, points)
    ensures forall x :: x in Seen(updated, points) ==> x in updated || x in Keys(points)
    ensures forall x :: x in updated ==> x in Seen(updated, points)
    decreases |points|
  {
    if points != [] {
      var n := |points| - 1;
      SeenDistinct(updated, points[..n]);
      var s := Seen(updated, points[..n]);
      forall i | 0 <= i < |points| ensures points[i].0 in Seen(updated, points) {
        if i < n {
          assert points[..n][i] == points[i];
        }
      }
      forall x | x in Seen(updated, points) ensures x in updated || x in Keys(points) {
        if x in s && x !in updated {
          var j :| 0 <= j < n && Keys(points[..n])[j] == x;
          assert Keys(points)[j] == x;
        } else if x !in s {
          assert Keys(points)[n] == x;
        }
      }
    }
  }

  /** The riders written after some records: the writes' riders appended
      to `updated`. */
  lemma {:induction false} RecordsSeenWrites(updated: seq<string>, records: seq<Record>, field: string)
    ensures RecordsSeen(updated, records) == updated + RidersOf(RecordsWrites(updated, records, field))
    decreases |records|
  {
    if records != [] {
      var n := |records| - 1;
      var seen := RecordsSeen(updated, records[..n]);
      var front := RecordsWrites(updated, records[..n], field);
      var last := WritesOf(seen, records[n].points, field);
      calc {
        RecordsSeen(updated, records);
        Seen(seen, records[n].points);
        { SeenWrites(seen, records[n].points, field); }
        seen + RidersOf(last);
        { RecordsSeenWrites(updated, records[..n], field); }
        updated + RidersOf(front) + RidersOf(last);
        { RidersOfAppend(front, last); }
        updated + RidersOf(front + last);
        updated + RidersOf(RecordsWrites(updated, records, field));
      }
    }
  }

  /** `score_has_been_updated` has no repeats, and every rider of every
      record is in it afterwards. */
  lemma {:induction false} RecordsSeenDistinct(updated: seq<string>, records: seq<Record>)
    requires Distinct(updated)
    ensures Distinct(RecordsSeen(updated, records))
    ensures forall i, j :: 0 <= i < |records| && 0 <= j < |records[i].points| ==>
              records[i].points[j].0 in RecordsSeen(updated, records)
    decreases |records|
  {
    if records != [] {
      var n := |records| - 1;
      RecordsSeenDistinct(updated, records[..n]);
      var seen := RecordsSeen(updated, records[..n]);
      SeenDistinct(seen, records[n].points);
      forall i, j | 0 <= i < |records| && 0 <= j < |records[i].points|
        ensures records[i].points[j].0 in RecordsSeen(updated, records)
      {
        if i < n {
          assert records[..n][i] == records[i];
          assert records[i].points[j].0 in seen;
        }
      }
    }
  }

  /** Across the players of one race week, a rider's document in the
      `scores` collection is written at most once: no rider is written
      twice, and none that was already written this week. */
  lemma WrittenOnce(updated: seq<string>, records: seq<Record>, field: string)
    requires Distinct(updated)
    ensures Distinct(RidersOf(RecordsWrites(updated, records, field)))
    ensures forall w :: w in RecordsWrites(updated, records, field) ==> w.rider !in updated
  {
    RecordsSeenWrites(updated, records, field);
    RecordsSeenDistinct(updated, records);
    var rs := RidersOf(RecordsWrites(updated, records, field));
    var all := updated + rs;
    forall i, j | 0 <= i < j < |rs| ensures rs[i] != rs[j] {
      assert all[|updated| + i] == rs[i] && all[|updated| + j] == rs[j];
    }
    forall w | w in RecordsWrites(updated, records, field) ensures w.rider !in updated {
      var k :| 0 <= k < |RecordsWrites(updated, records, field)| && RecordsWrites(updated, records, field)[k] == w;
      assert rs[k] == w.rider;
      assert all[|updated| + k] == w.rider;
      forall i | 0 <= i < |updated| ensures updated[i] != w.rider {
        assert all[i] == updated[i];
      }
    }
  }

  /** The fields of a new player's document. */
  const PlayerFields: seq<string> :=
    ["total", "bonus_50", "bonus_30", "current_week_motogp", "current_week_moto2", "current_week_moto3", "current_week"]

  /** The classes whose records a player's week is made of. */
  const Classes: seq<string> := ["motogp", "moto2", "moto3"]

  /** `players_to_dict` creates exactly these fields, in this order. */
  lemma NewPlayerFields()
    ensures Keys(Firestore.PlayersToDict()) == PlayerFields
  {
    var d := Firestore.PlayersToDict();
    assert Keys(d)[..7] == PlayerFields[..7];
  }

  /** What follows the last `_` in each field of a new player. */
  const FieldPieces: seq<string> := ["total", "50", "30", "motogp", "moto2", "moto3", "week"]

  /** `key.split("_")[-1]` of each field of a new player. */
  lemma FieldPiece(i: int)
    requires 0 <= i < 7
    ensures LastPiece(PlayerFields[i], "_") == FieldPieces[i]
  {
    if i == 0 {
      ContainsChar("total", '_');
      SplitNone("total", "_");
    } else if i == 1 {
      assert PlayerFields[1] == "bonus" + "_" + "50";
      Piece("bonus", "50");
    } else if i == 2 {
      assert PlayerFields[2] == "bonus" + "_" + "30";
      Piece("bonus", "30");
    } else if i == 3 {
      assert PlayerFields[3] == "current_week" + "_" + "motogp";
      Piece("current_week", "motogp");
    } else if i == 4 {
      assert PlayerFields[4] == "current_week" + "_" + "moto2";
      Piece("current_week", "moto2");
    } else if i == 5 {
      assert PlayerFields[5] == "current_week" + "_" + "moto3";
      Piece("current_week", "moto3");
    } else {
      assert PlayerFields[6] == "current" + "_" + "week";
      Piece("current", "week");
    }
  }

  /** No two fields of a new player end in the same piece: only the three
      class fields name a class, each its own. */
  lemma FieldPiecesDistinct()
    ensures Distinct(FieldPieces)
    ensures forall j :: 0 <= j < 3 ==> Classes[j] == FieldPieces[3 + j]
  {
    assert FieldPieces[0][0] == 't' && FieldPieces[4][0] == 'm' && FieldPieces[5][0] == 'm';
    assert FieldPieces[1][0] == '5' && FieldPieces[2][0] == '3';
    assert FieldPieces[4][4] == '2' && FieldPieces[5][4] == '3';
  }

  /** The last piece of `a + "_" + b`, for `b` without `_`. */
  lemma Piece(a: string, b: string)
    requires '_' !in b
    ensures LastPiece(a + "_" + b, "_") == b
  {
    ContainsChar(b, '_');
    assert a + "_" + b == a + ['_'] + b;
    LastPieceAfter(a, '_', b);
  }

  /** The fields of a player's document during the season: the seven of a
      new player, and race fields whose text after the last `_` is no
      class. */
  predicate SeasonDoc(doc: Doc) {
    && IsDict(doc)
    && (forall f :: f in PlayerFields ==> f in Keys(doc))
    && (forall k :: k in Keys(doc) && k !in PlayerFields ==> LastPiece(k, "_") !in Classes)
  }

  /** A record's class names exactly one field when exactly one of the
      fields matches it. */
  lemma {:induction false} MatchingOne(keys: seq<string>, category: string, f: string)
    requires Distinct(keys) && f in keys && Matches(f, category)
    requires forall k :: k in keys && k != f ==> !Matches(k, category)
    ensures Matching(keys, category) == [f]
    decreases |keys|
  {
    var n := |keys| - 1;
    if keys[n] == f {
      assert f !in keys[..n];
      MatchingNone(keys[..n], category);
    } else {
      assert f in keys[..n];
      MatchingOne(keys[..n], category, f);
    }
  }

  /** No field matches: no field is written. */
  lemma {:induction false} MatchingNone(keys: seq<string>, category: string)
    requires forall k :: k in keys ==> !Matches(k, category)
    ensures Matching(keys, category) == []
    decreases |keys|
  {
    if keys != [] {
      MatchingNone(keys[..|keys| - 1], category);
    }
  }

  /** In a season document the record of the `j`-th class is written to
      that class's `current_week_` field and nowhere else. */
  lemma ClassMatching(doc: Doc, j: int)
    requires SeasonDoc(doc) && 0 <= j < 3
    ensures Matching(Keys(doc), Classes[j]) == [PlayerFields[3 + j]]
  {
    var f := PlayerFields[3 + j];
    FieldPiece(3 + j);
    FieldPiecesDistinct();
    forall k | k in Keys(doc) && k != f ensures !Matches(k, Classes[j]) {
      if k in PlayerFields {
        var i :| 0 <= i < 7 && PlayerFields[i] == k;
        FieldPiece(i);
        assert FieldPieces[i] != FieldPieces[3 + j];
      } else {
        assert Classes[j] in Classes;
      }
    }
    MatchingOne(Keys(doc), Classes[j], f);
  }

  /** The resets keep a season document's fields and their order. */
  lemma ResetsKeys(doc: Doc)
    requires SeasonDoc(doc)
    ensures Keys(Resets(doc)) == Keys(doc) && SeasonDoc(Resets(doc))
  {
    var d1 := Put(doc, "current_week", 0.0);
    var d2 := Put(d1, "current_week_motogp", 0.0);
    var d3 := Put(d2, "current_week_moto2", 0.0);
    assert "current_week" in PlayerFields && "current_week_motogp" in PlayerFields;
    assert "current_week_moto2" in PlayerFields && "current_week_moto3" in PlayerFields;
    PutKeys(doc, "current_week", 0.0);
    PutKeys(d1, "current_week_motogp", 0.0);
    PutKeys(d2, "current_week_moto2", 0.0);
    PutKeys(d3, "current_week_moto3", 0.0);
  }

  /** A one-field write. */
  lemma SetOne(doc: Doc, f: string, v: real)
    ensures SetAll(doc, [f], v) == Put(doc, f, v)
  {
    assert [f][..0] == [];
  }

  /** One more record of the `j`-th class: its total goes to that class's
      field and onto the week's value. */
  lemma OneMoreRecord(snap: Doc, rs: seq<Record>, r: Record, j: int)
    requires SeasonDoc(snap) && 0 <= j < 3 && r.category == Classes[j]
    ensures ApplyRecords(snap, Keys(snap), rs + [r]) == Put(ApplyRecords(snap, Keys(snap), rs), PlayerFields[3 + j], Total(r.points))
    ensures WeekValue(Keys(snap), rs + [r]) == WeekValue(Keys(snap), rs) + Total(r.points)
  {
    var rs' := rs + [r];
    assert rs'[..|rs|] == rs && rs'[|rs|] == r;
    var f := PlayerFields[3 + j];
    assert Matching(Keys(snap), r.category) == [f] by {
      ClassMatching(snap, j);
    }
    assert ApplyRecords(snap, Keys(snap), rs') == SetAll(ApplyRecords(snap, Keys(snap), rs), [f], Total(r.points));
    SetOne(ApplyRecords(snap, Keys(snap), rs), f, Total(r.points));
    assert Repeat(|[f]|, Total(r.points)) == Total(r.points) by {
      assert Repeat(0, Total(r.points)) == 0.0;
    }
  }

  /** The records of the three classes, in order. */
  predicate ClassRecords(rs: seq<Record>) {
    |rs| == 3 && forall j :: 0 <= j < 3 ==> rs[j].category == Classes[j]
  }

  /** A field read after a `Put`. */
  lemma GetPut(d: Doc, f: string, v: real, k: string)
    ensures Get(Put(d, f, v), k) == if k == f then Some(v) else Get(d, k)
  {
    if k == f {
      PutGetSame(d, f, v);
    } else {
      PutGetOther(d, f, v, k);
    }
  }

  /** The `i`-th class's record sets its class field and no other. */
  lemma ClassRecordStep(snap: Doc, rs: seq<Record>, i: int, k: string)
    requires SeasonDoc(snap) && ClassRecords(rs) && 0 <= i < 3
    ensures Get(ApplyRecords(snap, Keys(snap), rs[..i + 1]), k) ==
            if k == PlayerFields[3 + i] then Some(Total(rs[i].points)) else Get(ApplyRecords(snap, Keys(snap), rs[..i]), k)
  {
    assert rs[..i + 1] == rs[..i] + [rs[i]];
    OneMoreRecord(snap, rs[..i], rs[i], i);
    GetPut(ApplyRecords(snap, Keys(snap), rs[..i]), PlayerFields[3 + i], Total(rs[i].points), k);
  }

  /** The three records of a week, written into a season document: each
      class field holds its record's total and every other field is
      unchanged. */
  lemma ThreeRecords(snap: Doc, rs: seq<Record>, k: string)
    requires SeasonDoc(snap) && ClassRecords(rs)
    ensures Get(ApplyRecords(snap, Keys(snap), rs), k) ==
            if k == PlayerFields[5] then Some(Total(rs[2].points))
            else if k == PlayerFields[4] then Some(Total(rs[1].points))
            else if k == PlayerFields[3] then Some(Total(rs[0].points))
            else Get(snap, k)
  {
    assert rs[..0] == [] && rs[..3] == rs;
    ClassRecordStep(snap, rs, 0, k);
    ClassRecordStep(snap, rs, 1, k);
    ClassRecordStep(snap, rs, 2, k);
  }

  /** The week's value of those three records is the sum of their totals. */
  lemma ThreeRecordsWeek(snap: Doc, rs: seq<Record>)
    requires SeasonDoc(snap) && ClassRecords(rs)
    ensures WeekValue(Keys(snap), rs) == Total(rs[0].points) + Total(rs[1].points) + Total(rs[2].points)
  {
    var keys := Keys(snap);
    assert WeekValue(keys, rs[..1]) == Total(rs[0].points) by {
      assert rs[..1] == rs[..0] + [rs[0]] && rs[..0] == [];
      OneMoreRecord(snap, rs[..0], rs[0], 0);
    }
    assert WeekValue(keys, rs[..2]) == Total(rs[0].points) + Total(rs[1].points) by {
      assert rs[..2] == rs[..1] + [rs[1]];
      OneMoreRecord(snap, rs[..1], rs[1], 1);
    }
    assert rs == rs[..2] + [rs[2]];
    OneMoreRecord(snap, rs[..2], rs[2], 2);
  }

  /** Reading a field back after the three final writes of a player's
      update. */
  lemma FinishGet(applied: Doc, week: real, raceField: string, total: real, k: string)
    ensures Get(Put(Put(Put(applied, "current_week", week), raceField, week), "total", total), k)
            == if k == "total" then Some(total)
               else if k == raceField || k == "current_week" then Some(week)
               else Get(applied, k)
  {
    var d1 := Put(applied, "current_week", week);
    var d2 := Put(d1, raceField, week);
    GetPut(d2, "total", total, k);
    GetPut(d1, raceField, week, k);
    GetPut(applied, "current_week", week, k);
  }

  /** The class totals of the week land in the class fields of the
      snapshot. */
  lemma AppliedClass(doc: Doc, rs: seq<Record>, j: int)
    requires SeasonDoc(doc) && ClassRecords(rs) && 0 <= j < 3
    ensures Get(ApplyRecords(Resets(doc), Keys(Resets(doc)), rs), PlayerFields[3 + j]) == Some(Total(rs[j].points))
  {
    ResetsKeys(doc);
    ThreeRecords(Resets(doc), rs, PlayerFields[3 + j]);
    assert |PlayerFields[3]| == 19 && |PlayerFields[4]| == 18 && |PlayerFields[5]| == 18;
    assert PlayerFields[4][17] != PlayerFields[5][17];
  }

  /** The bonus fields of the snapshot keep their values. */
  lemma AppliedBonus(doc: Doc, rs: seq<Record>, f: string)
    requires SeasonDoc(doc) && ClassRecords(rs) && (f == "bonus_50" || f == "bonus_30")
    ensures Get(ApplyRecords(Resets(doc), Keys(Resets(doc)), rs), f) == Get(doc, f)
  {
    ResetsKeys(doc);
    ThreeRecords(Resets(doc), rs, f);
    assert f == PlayerFields[1] || f == PlayerFields[2];
    ResetsBonus(doc, f);
  }

  /** The week's value is the sum of the three classes' totals. */
  lemma WeekOf(doc: Doc, rs: seq<Record>)
    requires SeasonDoc(doc) && ClassRecords(rs)
    ensures WeekValue(Keys(Resets(doc)), rs) == Total(rs[0].points) + Total(rs[1].points) + Total(rs[2].points)
  {
    ResetsKeys(doc);
    ThreeRecordsWeek(Resets(doc), rs);
  }

  /** After the update of a player whose document has the season's
      fields, each class field holds that class's total for the week. */
  lemma ClassFieldAfter(doc: Doc, rs: seq<Record>, raceField: string, seasonFields: seq<string>, j: int)
    requires SeasonDoc(doc) && ClassRecords(rs) && raceField !in PlayerFields && 0 <= j < 3
    ensures Get(PlayerAfter(doc, rs, raceField, seasonFields), PlayerFields[3 + j]) == Some(Total(rs[j].points))
  {
    var snap := Resets(doc);
    var week := WeekValue(Keys(snap), rs);
    var f := PlayerFields[3 + j];
    AppliedClass(doc, rs, j);
    assert f != "total" && f != "current_week" && f != raceField;
    FinishGet(ApplyRecords(snap, Keys(snap), rs), week, raceField, SeasonTotalWith(snap, raceField, week, seasonFields), f);
  }

  /** The update writes the week's value to `current_week` and to the
      race's own field. */
  lemma WeekWritten(doc: Doc, rs: seq<Record>, raceField: string, seasonFields: seq<string>, week: real)
    requires WeekValue(Keys(Resets(doc)), rs) == week && raceField != "total"
    ensures Get(PlayerAfter(doc, rs, raceField, seasonFields), "current_week") == Some(week)
    ensures Get(PlayerAfter(doc, rs, raceField, seasonFields), raceField) == Some(week)
  {
    var snap := Resets(doc);
    var applied := ApplyRecords(snap, Keys(snap), rs);
    var total := SeasonTotalWith(snap, raceField, week, seasonFields);
    FinishGet(applied, week, raceField, total, "current_week");
    FinishGet(applied, week, raceField, total, raceField);
  }

  /** After the update, `current_week` and the race's own field hold the
      week's value: the sum of the three classes' totals. */
  lemma WeekAfter(doc: Doc, rs: seq<Record>, raceField: string, seasonFields: seq<string>)
    requires SeasonDoc(doc) && ClassRecords(rs) && raceField !in PlayerFields
    ensures Get(PlayerAfter(doc, rs, raceField, seasonFields), "current_week")
            == Some(Total(rs[0].points) + Total(rs[1].points) + Total(rs[2].points))
    ensures Get(PlayerAfter(doc, rs, raceField, seasonFields), raceField)
            == Some(Total(rs[0].points) + Total(rs[1].points) + Total(rs[2].points))
  {
    WeekOf(doc, rs);
    assert raceField != "total" by { assert PlayerFields[0] == "total"; }
    WeekWritten(doc, rs, raceField, seasonFields, Total(rs[0].points) + Total(rs[1].points) + Total(rs[2].points));
  }

  /** The resets leave the bonus fields alone. */
  lemma ResetsBonus(doc: Doc, f: string)
    requires f == "bonus_50" || f == "bonus_30"
    ensures Get(Resets(doc), f) == Get(doc, f)
  {
    var d1 := Put(doc, "current_week", 0.0);
    var d2 := Put(d1, "current_week_motogp", 0.0);
    var d3 := Put(d2, "current_week_moto2", 0.0);
    GetPut(d3, "current_week_moto3", 0.0, f);
    GetPut(d2, "current_week_moto2", 0.0, f);
    GetPut(d1, "current_week_motogp", 0.0, f);
    GetPut(doc, "current_week", 0.0, f);
  }

  /** The weekly update leaves the bonus fields alone. */
  lemma BonusUntouched(doc: Doc, rs: seq<Record>, raceField: string, seasonFields: seq<string>, f: string)
    requires SeasonDoc(doc) && ClassRecords(rs) && raceField !in PlayerFields
    requires f == "bonus_50" || f == "bonus_30"
    ensures Get(PlayerAfter(doc, rs, raceField, seasonFields), f) == Get(doc, f)
  {
    var snap := Resets(doc);
    var week := WeekValue(Keys(snap), rs);
    assert f in PlayerFields && f != "total" && f != "current_week" && f != raceField;
    AppliedBonus(doc, rs, f);
    FinishGet(ApplyRecords(snap, Keys(snap), rs), week, raceField, SeasonTotalWith(snap, raceField, week, seasonFields), f);
  }

  /** Lines 181-184: the race field of each event from 1 to `raceNum`,
      through the private table and the race names; an event missing from
      either raises `KeyError`. */
  function SeasonFields(raceNames: Dict<string, string>, raceNum: int): (r: Result<seq<string>>)
    decreases raceNum
    ensures r.Ok? <==> forall n :: 1 <= n <= raceNum ==> RaceCode(n).Some? && Get(raceNames, RaceCode(n).value).Some?
    ensures r.Err? ==> r.error == KeyError
    ensures r.Ok? ==> |r.value| == (if raceNum < 1 then 0 else raceNum)
    ensures r.Ok? ==> forall i :: 0 <= i < |r.value| ==> Get(raceNames, RaceCode(i + 1).value) == Some(r.value[i])
  {
    if raceNum < 1 then Ok([])
    else
      match SeasonFields(raceNames, raceNum - 1)
      case Err(e) => Err(e)
      case Ok(front) =>
        match RaceCode(raceNum)
        case None => Err(KeyError)
        case Some(code) =>
          match Get(raceNames, code)
          case None => Err(KeyError)
          case Some(name) => Ok(front + [name])
  }

  /** The season total only reads the listed fields. */
  lemma {:induction false} SeasonTotalSame(a: Doc, b: Doc, fields: seq<string>)
    requires forall i :: 0 <= i < |fields| ==> Get(a, fields[i]) == Get(b, fields[i])
    ensures SeasonTotal(a, fields) == SeasonTotal(b, fields)
  {
    if fields != [] {
      SeasonTotalSame(a, b, fields[..|fields| - 1]);
    }
  }

  /** Writing the week's value to the race's field and then taking the
      season total is the season total with the week standing in for that
      field. */
  lemma {:induction false} SeasonTotalPut(snapshot: Doc, raceField: string, week: real, fields: seq<string>)
    ensures SeasonTotal(Put(snapshot, raceField, week), fields) == SeasonTotalWith(snapshot, raceField, week, fields)
  {
    if fields != [] {
      SeasonTotalPut(snapshot, raceField, week, fields[..|fields| - 1]);
      GetPut(snapshot, raceField, week, fields[|fields| - 1]);
    }
  }

  /** A season that does not list the race's field does not see the
      week. */
  lemma {:induction false} SeasonTotalWithout(snapshot: Doc, raceField: string, week: real, fields: seq<string>)
    requires raceField !in fields
    ensures SeasonTotalWith(snapshot, raceField, week, fields) == SeasonTotal(snapshot, fields)
  {
    if fields != [] {
      SeasonTotalWithout(snapshot, raceField, week, fields[..|fields| - 1]);
    }
  }

  /** The season total of the earlier events, then the race's field: the
      week counts once, on top of the earlier events. */
  lemma SeasonTotalLast(snapshot: Doc, earlier: seq<string>, raceField: string, week: real)
    requires raceField !in earlier
    ensures SeasonTotalWith(snapshot, raceField, week, earlier + [raceField]) == SeasonTotal(snapshot, earlier) + week
  {
    var fields := earlier + [raceField];
    assert fields[..|fields| - 1] == earlier;
    SeasonTotalWithout(snapshot, raceField, week, earlier);
  }

  /** A field outside the season document's own fields keeps its value
      through the records. */
  lemma AppliedOther(doc: Doc, rs: seq<Record>, f: string)
    requires SeasonDoc(doc) && ClassRecords(rs) && f !in PlayerFields
    ensures Get(ApplyRecords(Resets(doc), Keys(Resets(doc)), rs), f) == Get(Resets(doc), f)
  {
    ResetsKeys(doc);
    ThreeRecords(Resets(doc), rs, f);
  }

  /** Reading a field other than `current_week` from the document before
      its total is written. */
  lemma WeekDocGet(doc: Doc, rs: seq<Record>, raceField: string, f: string)
    requires f != "current_week"
    requires Get(ApplyRecords(Resets(doc), Keys(Resets(doc)), rs), f) == Get(Resets(doc), f)
    ensures Get(WeekDoc(doc, rs, raceField), f)
            == Get(Put(Resets(doc), raceField, WeekValue(Keys(Resets(doc)), rs)), f)
  {
    var snap := Resets(doc);
    var week := WeekValue(Keys(snap), rs);
    var applied := ApplyRecords(snap, Keys(snap), rs);
    GetPut(Put(applied, "current_week", week), raceField, week, f);
    GetPut(applied, "current_week", week, f);
    GetPut(snap, raceField, week, f);
  }

  /** Every race field reads, after the week's writes, as in the snapshot
      with this week's value in the race's field. */
  lemma RaceFieldsAfter(doc: Doc, rs: seq<Record>, raceField: string, seasonFields: seq<string>, total: real)
    requires SeasonDoc(doc) && ClassRecords(rs)
    requires forall i :: 0 <= i < |seasonFields| ==> seasonFields[i] !in PlayerFields
    ensures SeasonTotal(Put(WeekDoc(doc, rs, raceField), "total", total), seasonFields)
            == SeasonTotal(Put(Resets(doc), raceField, WeekValue(Keys(Resets(doc)), rs)), seasonFields)
  {
    var mid := Put(Resets(doc), raceField, WeekValue(Keys(Resets(doc)), rs));
    forall i | 0 <= i < |seasonFields|
      ensures Get(Put(WeekDoc(doc, rs, raceField), "total", total), seasonFields[i]) == Get(mid, seasonFields[i])
    {
      var f := seasonFields[i];
      assert f != "current_week" && f != "total" by {
        assert PlayerFields[0] == "total" && PlayerFields[6] == "current_week";
      }
      AppliedOther(doc, rs, f);
      WeekDocGet(doc, rs, raceField, f);
      GetPut(WeekDoc(doc, rs, raceField), "total", total, f);
    }
    SeasonTotalSame(Put(WeekDoc(doc, rs, raceField), "total", total), mid, seasonFields);
  }

  /** The intended invariant of the season total: after the update,
      `total` is the sum of the season's race fields as the document now
      stands, this week's included. */
  lemma TotalIsSeasonSum(doc: Doc, rs: seq<Record>, raceField: string, seasonFields: seq<string>)
    requires SeasonDoc(doc) && ClassRecords(rs)
    requires forall i :: 0 <= i < |seasonFields| ==> seasonFields[i] !in PlayerFields
    ensures Get(PlayerAfter(doc, rs, raceField, seasonFields), "total")
            == Some(SeasonTotal(PlayerAfter(doc, rs, raceField, seasonFields), seasonFields))
  {
    var snap := Resets(doc);
    var week := WeekValue(Keys(snap), rs);
    var total := SeasonTotalWith(snap, raceField, week, seasonFields);
    RaceFieldsAfter(doc, rs, raceField, seasonFields, total);
    SeasonTotalPut(snap, raceField, week, seasonFields);
    GetPut(WeekDoc(doc, rs, raceField), "total", total, "total");
  }

  /** A field the resets do not touch reads as before them. */
  lemma ResetsOther(doc: Doc, f: string)
    requires f !in PlayerFields
    ensures Get(Resets(doc), f) == Get(doc, f)
  {
    assert f != PlayerFields[3] && f != PlayerFields[4] && f != PlayerFields[5] && f != PlayerFields[6];
    var d1 := Put(doc, "current_week", 0.0);
    var d2 := Put(d1, "current_week_motogp", 0.0);
    var d3 := Put(d2, "current_week_moto2", 0.0);
    GetPut(d3, "current_week_moto3", 0.0, f);
    GetPut(d2, "current_week_moto2", 0.0, f);
    GetPut(d1, "current_week_motogp", 0.0, f);
    GetPut(doc, "current_week", 0.0, f);
  }

  /** The two totals of a season whose last event's field the snapshot
      lacks: taken over the snapshot, the last event counts nothing; taken
      over the snapshot with the week's value in that field, it counts the
      week. */
  lemma LastEventTotals(weekDoc: Doc, snapshot: Doc, earlier: seq<string>, raceField: string, week: real)
    requires Get(snapshot, raceField) == None && raceField !in earlier
    ensures Get(Put(weekDoc, "total", SeasonTotal(snapshot, earlier + [raceField])), "total")
            == Some(SeasonTotal(snapshot, earlier))
    ensures Get(Put(weekDoc, "total", SeasonTotalWith(snapshot, raceField, week, earlier + [raceField])), "total")
            == Some(SeasonTotal(snapshot, earlier) + week)
  {
    var fields := earlier + [raceField];
    assert fields[..|fields| - 1] == earlier;
    SeasonTotalLast(snapshot, earlier, raceField, week);
    GetPut(weekDoc, "total", SeasonTotal(snapshot, fields), "total");
    GetPut(weekDoc, "total", SeasonTotalWith(snapshot, raceField, week, fields), "total");
  }

  /** The total as the code computes it misses the week: when the snapshot
      read after the resets does not yet hold the race's field, the race
      being the last of the season so far, the stored total is that of the
      earlier events alone. */
  lemma StaleTotal(doc: Doc, rs: seq<Record>, raceField: string, earlier: seq<string>)
    requires Get(Resets(doc), raceField) == None && raceField !in earlier
    ensures Get(PlayerAfterAsWritten(doc, rs, raceField, earlier + [raceField]), "total")
            == Some(SeasonTotal(Resets(doc), earlier))
  {
    LastEventTotals(WeekDoc(doc, rs, raceField), Resets(doc), earlier, raceField, WeekValue(Keys(Resets(doc)), rs));
  }

  /** The intended total counts the week: in the same situation it is the
      total of the earlier events plus the week's value, the value written
      to `current_week`. */
  lemma TotalCountsWeek(doc: Doc, rs: seq<Record>, raceField: string, earlier: seq<string>, week: real)
    requires Get(Resets(doc), raceField) == None && raceField !in earlier
    requires week == WeekValue(Keys(Resets(doc)), rs)
    ensures Get(PlayerAfter(doc, rs, raceField, earlier + [raceField]), "total")
            == Some(SeasonTotal(Resets(doc), earlier) + week)
  {
    LastEventTotals(WeekDoc(doc, rs, raceField), Resets(doc), earlier, raceField, week);
  }
}
